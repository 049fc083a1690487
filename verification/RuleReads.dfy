/**
  * Searching rule lists that change under the search: each list is read under its own lock, and other threads
  * may update both lists between two reads (src/rules_manager.rs:249-306).
  */
module RuleReads {
  import opened Wrappers
  import opened NtStrings
  import opened Globs
  import opened RuleKeys
  import opened Rules

  /** One read of one list: does a rule of the type cover the path for the process? */
  datatype Query = Query(name: NtStr, path: NtStr, ruleType: Action)

  predicate Hits(up: CaseTable, store: Store, q: Query) {
    SearchRule(up, store.Rules(q.ruleType), q.name, q.path)
  }

  /** The reads of `search_rule_action`. */
  function SearchQueries(name: NtStr, path: NtStr): seq<Query> {
    [Query(name, path, Deny), Query(name, path, ReadOnly)]
  }

  /** The type of the first read that finds a rule; `seen[i]` is the store as the i-th read finds it. */
  function FirstHit(up: CaseTable, queries: seq<Query>, seen: seq<Store>): Action {
    if queries == [] || seen == [] then Bypass
    else if Hits(up, seen[0], queries[0]) then queries[0].ruleType
    else FirstHit(up, queries[1..], seen[1..])
  }

  /** No further read is needed: a rule was found, or every list was read. */
  predicate Settled(up: CaseTable, queries: seq<Query>, seen: seq<Store>) {
    FirstHit(up, queries, seen) != Bypass || |queries| <= |seen|
  }

  /** The i-th read finds a rule. */
  predicate HitAt(up: CaseTable, queries: seq<Query>, seen: seq<Store>, i: nat) {
    i < |queries| && i < |seen| && Hits(up, seen[i], queries[i])
  }

  /** The i-th read is the first to find a rule. */
  ghost predicate HitFirstAt(up: CaseTable, queries: seq<Query>, seen: seq<Store>, i: nat) {
    HitAt(up, queries, seen, i) && forall j: nat | j < i :: !HitAt(up, queries, seen, j)
  }

  lemma HitShift(up: CaseTable, queries: seq<Query>, seen: seq<Store>, i: nat)
    requires queries != [] && seen != []
    ensures HitAt(up, queries[1..], seen[1..], i) <==> HitAt(up, queries, seen, i + 1)
  {
  }

  lemma {:induction false} FirstHitFound(up: CaseTable, queries: seq<Query>, seen: seq<Store>) returns (i: nat)
    requires FirstHit(up, queries, seen) != Bypass
    ensures HitFirstAt(up, queries, seen, i) && queries[i].ruleType == FirstHit(up, queries, seen)
    decreases |queries|
  {
    if Hits(up, seen[0], queries[0]) {
      i := 0;
    } else {
      var k := FirstHitFound(up, queries[1..], seen[1..]);
      i := k + 1;
      HitShift(up, queries, seen, k);
      forall j: nat | j < i
        ensures !HitAt(up, queries, seen, j)
      {
        if j > 0 {
          HitShift(up, queries, seen, j - 1);
        }
      }
    }
  }

  lemma {:induction false} HitIsFound(up: CaseTable, queries: seq<Query>, seen: seq<Store>, i: nat)
    requires HitAt(up, queries, seen, i)
    ensures FirstHit(up, queries, seen) != Bypass
    decreases |queries|
  {
    if !Hits(up, seen[0], queries[0]) {
      HitShift(up, queries, seen, i - 1);
      HitIsFound(up, queries[1..], seen[1..], i - 1);
    }
  }

  /** The answer without the search: the type of the earliest read that finds a rule, Bypass if none does. */
  lemma FirstHitMeaning(up: CaseTable, queries: seq<Query>, seen: seq<Store>)
    ensures FirstHit(up, queries, seen) != Bypass <==> exists i: nat :: HitAt(up, queries, seen, i)
    ensures forall i: nat :: HitFirstAt(up, queries, seen, i) ==> FirstHit(up, queries, seen) == queries[i].ruleType
  {
    if FirstHit(up, queries, seen) != Bypass {
      var k := FirstHitFound(up, queries, seen);
      forall i: nat | HitFirstAt(up, queries, seen, i)
        ensures i == k
      {
        assert HitAt(up, queries, seen, i) && HitAt(up, queries, seen, k);
      }
    }
    forall i: nat | HitAt(up, queries, seen, i)
      ensures FirstHit(up, queries, seen) != Bypass
    {
      HitIsFound(up, queries, seen, i);
    }
  }

  /** A search in two stages: the second counts only when the first finds nothing. */
  lemma {:induction false} FirstHitStages(up: CaseTable, first: seq<Query>, second: seq<Query>,
                                          seen: seq<Store>, later: seq<Store>)
    requires |seen| == |first|
    ensures FirstHit(up, first + second, seen + later)
         == var a := FirstHit(up, first, seen); if a != Bypass then a else FirstHit(up, second, later)
    decreases |first|
  {
    if first == [] {
      assert first + second == second && seen + later == later;
    } else {
      var queries, stores := first + second, seen + later;
      assert queries[0] == first[0] && queries[1..] == first[1..] + second;
      assert stores[0] == seen[0] && stores[1..] == seen[1..] + later;
      FirstHitStages(up, first[1..], second, seen[1..], later);
    }
  }

  /** Once the search is settled, what becomes of the lists later does not matter. */
  lemma {:induction false} SettledStays(up: CaseTable, queries: seq<Query>, seen: seq<Store>, later: seq<Store>)
    requires Settled(up, queries, seen)
    ensures Settled(up, queries, seen + later)
    ensures FirstHit(up, queries, seen + later) == FirstHit(up, queries, seen)
    decreases |queries|
  {
    if queries != [] && seen != [] {
      var stores := seen + later;
      assert stores[0] == seen[0] && stores[1..] == seen[1..] + later;
      if !Hits(up, seen[0], queries[0]) {
        SettledStays(up, queries[1..], seen[1..], later);
      }
    }
  }

  /** A search whose two reads find two stores asks the one's deny rules and the other's read-only rules. */
  lemma SearchReadsTwo(up: CaseTable, name: NtStr, path: NtStr, seen: seq<Store>)
    requires |seen| >= 2
    ensures FirstHit(up, SearchQueries(name, path), seen)
         == SearchAction(up, Store(seen[0].deny, seen[1].readOnly), name, path)
  {
    var queries, later := SearchQueries(name, path), seen[1..];
    assert queries[1..] == [queries[1]] && later[0] == seen[1];
    assert FirstHit(up, queries[1..], later) == if Hits(up, later[0], queries[1]) then ReadOnly else Bypass;
  }

  // ---------- when a search cannot miss a rule ----------

  /** The store that a search sees whose deny read is at moment `i` and whose read-only read is at moment `j`. */
  function SeenBetween(moments: seq<Store>, i: nat, j: nat): Store
    requires i < |moments| && j < |moments|
  {
    Store(moments[i].deny, moments[j].readOnly)
  }

  /** No search at these moments, however its two reads fall, ends in Bypass. */
  ghost predicate NeverMissed(up: CaseTable, moments: seq<Store>, name: NtStr, path: NtStr) {
    forall i, j | 0 <= i <= j < |moments| :: SearchAction(up, SeenBetween(moments, i, j), name, path) != Bypass
  }

  /** Deny rules cover the file up to moment `k`, read-only rules from then on. */
  ghost predicate HandedOverAt(up: CaseTable, moments: seq<Store>, name: NtStr, path: NtStr, k: nat) {
    && k <= |moments|
    && (forall i | 0 <= i < k :: FirstFitCovers(up, moments[i].deny, name, path))
    && (forall j | k <= j < |moments| :: FirstFitCovers(up, moments[j].readOnly, name, path))
  }

  /**
    * What it takes that no search misses a file while its rules are changed: deny rules until some moment and
    * read-only rules from this moment on. A file moved from read-only to deny can be missed, even if it is in
    * both lists for a while.
    */
  lemma NeverMissedIff(up: CaseTable, moments: seq<Store>, name: NtStr, path: NtStr)
    ensures NeverMissed(up, moments, name, path) <==> exists k :: HandedOverAt(up, moments, name, path, k)
  {
    if NeverMissed(up, moments, name, path) {
      var first := FirstIndex(moments, (s: Store) => !SearchRule(up, s.deny, name, path));
      var k := if first.Some? then first.value else |moments|;
      forall i | 0 <= i < k
        ensures FirstFitCovers(up, moments[i].deny, name, path)
      {
        SearchIsFirstFit(up, moments[i].deny, name, path);
      }
      forall j | k <= j < |moments|
        ensures FirstFitCovers(up, moments[j].readOnly, name, path)
      {
        assert SearchAction(up, SeenBetween(moments, k, j), name, path) != Bypass;
        SearchIsFirstFit(up, moments[j].readOnly, name, path);
      }
      assert HandedOverAt(up, moments, name, path, k);
    }
    if k :| HandedOverAt(up, moments, name, path, k) {
      forall i, j | 0 <= i <= j < |moments|
        ensures SearchAction(up, SeenBetween(moments, i, j), name, path) != Bypass
      {
        SearchMeaning(up, SeenBetween(moments, i, j), name, path);
      }
    }
  }

  /**
    * Moving a rule from read-only to deny, set there first and deleted here afterwards: at every moment the file
    * is ruled, and still a search whose reads fall before and after the move misses it.
    */
  lemma MoveToDenyCanBeMissed(up: CaseTable, entry: FileAccessEntry, name: NtStr, path: NtStr)
    requires MatchesNoCase(up, name, entry.processName) && EntryCovers(up, entry, path)
    ensures var moments := [Store([], [entry]), Store([entry], [entry]), Store([entry], [])];
            && (forall i | 0 <= i < 3 :: SearchAction(up, moments[i], name, path) != Bypass)
            && FirstHit(up, SearchQueries(name, path), [moments[0], moments[2]]) == Bypass
            && !NeverMissed(up, moments, name, path)
  {
    var moments := [Store([], [entry]), Store([entry], [entry]), Store([entry], [])];
    FirstIndexUnique([entry], (e: FileAccessEntry) => MatchesNoCase(up, name, e.processName), 0);
    SearchReadsTwo(up, name, path, [moments[0], moments[2]]);
    assert SearchAction(up, SeenBetween(moments, 0, 2), name, path) == Bypass;
  }

  // ---------- any number of reads ----------

  /** The reads fall at moments in this order, none before `from`. */
  ghost predicate IsSchedule(schedule: seq<nat>, from: nat, moments: nat) {
    && (forall i | 0 <= i < |schedule| :: from <= schedule[i] < moments)
    && (forall i, j | 0 <= i < j < |schedule| :: schedule[i] <= schedule[j])
  }

  /** What the reads of a schedule find. */
  ghost function SeenAt(moments: seq<Store>, schedule: seq<nat>): (r: seq<Store>)
    requires forall i | 0 <= i < |schedule| :: schedule[i] < |moments|
    ensures |r| == |schedule| && forall i | 0 <= i < |schedule| :: r[i] == moments[schedule[i]]
  {
    seq(|schedule|, i requires 0 <= i < |schedule| => moments[schedule[i]])
  }

  /** However the reads fall from moment `from` on, one of them finds a rule. */
  ghost predicate AlwaysFound(up: CaseTable, queries: seq<Query>, moments: seq<Store>, from: nat) {
    forall schedule | |schedule| == |queries| && IsSchedule(schedule, from, |moments|) ::
      FirstHit(up, queries, SeenAt(moments, schedule)) != Bypass
  }

  /** The query would find a rule at every moment from `from` up to `until`. */
  ghost predicate FoundDuring(up: CaseTable, q: Query, moments: seq<Store>, from: nat, until: nat)
    requires until <= |moments|
  {
    forall i | from <= i < until :: Hits(up, moments[i], q)
  }

  /** One query after the other takes over: each finds a rule until the next one does, the last one to the end. */
  ghost predicate HandedOver(up: CaseTable, queries: seq<Query>, moments: seq<Store>, from: nat)
    requires queries != [] && from <= |moments|
    decreases |queries|
  {
    if |queries| == 1 then FoundDuring(up, queries[0], moments, from, |moments|)
    else
      exists k: nat | from <= k <= |moments| ::
        FoundDuring(up, queries[0], moments, from, k) && HandedOver(up, queries[1..], moments, k)
  }

  lemma ScheduleStep(up: CaseTable, queries: seq<Query>, moments: seq<Store>, schedule: seq<nat>)
    requires queries != [] && |schedule| == |queries| && IsSchedule(schedule, 0, |moments|)
    ensures IsSchedule(schedule[1..], schedule[0], |moments|)
    ensures FirstHit(up, queries, SeenAt(moments, schedule))
         == if Hits(up, moments[schedule[0]], queries[0]) then queries[0].ruleType
            else FirstHit(up, queries[1..], SeenAt(moments, schedule[1..]))
  {
    var seen := SeenAt(moments, schedule);
    assert seen[1..] == SeenAt(moments, schedule[1..]);
  }

  lemma {:induction false} HandedOverIsFound(up: CaseTable, queries: seq<Query>, moments: seq<Store>, from: nat,
                                             schedule: seq<nat>)
    requires queries != [] && from <= |moments| && HandedOver(up, queries, moments, from)
    requires |schedule| == |queries| && IsSchedule(schedule, from, |moments|)
    ensures FirstHit(up, queries, SeenAt(moments, schedule)) != Bypass
    decreases |queries|
  {
    ScheduleStep(up, queries, moments, schedule);
    if !Hits(up, moments[schedule[0]], queries[0]) {
      var k: nat :| from <= k <= |moments| && FoundDuring(up, queries[0], moments, from, k)
                    && HandedOver(up, queries[1..], moments, k);
      HandedOverIsFound(up, queries[1..], moments, k, schedule[1..]);
    }
  }

  /** The first moment from `from` on at which the query finds nothing. */
  ghost function FirstMiss(up: CaseTable, q: Query, moments: seq<Store>, from: nat): (k: nat)
    requires from <= |moments|
    ensures from <= k <= |moments| && FoundDuring(up, q, moments, from, k)
    ensures k < |moments| ==> !Hits(up, moments[k], q)
    decreases |moments| - from
  {
    if from == |moments| || !Hits(up, moments[from], q) then from else FirstMiss(up, q, moments, from + 1)
  }

  lemma EarlierRead(rest: seq<nat>, from: nat, k: nat, moments: nat)
    requires from <= k < moments && IsSchedule(rest, k, moments)
    ensures IsSchedule([k] + rest, from, moments) && IsSchedule([k] + rest, 0, moments)
  {
    var schedule := [k] + rest;
    assert forall i | 0 < i < |schedule| :: schedule[i] == rest[i - 1];
  }

  lemma ReadsAfterMiss(up: CaseTable, queries: seq<Query>, moments: seq<Store>, from: nat, k: nat, rest: seq<nat>)
    requires |queries| > 1 && from <= k < |moments| && !Hits(up, moments[k], queries[0])
    requires AlwaysFound(up, queries, moments, from)
    requires |rest| == |queries| - 1 && IsSchedule(rest, k, |moments|)
    ensures FirstHit(up, queries[1..], SeenAt(moments, rest)) != Bypass
  {
    var schedule := [k] + rest;
    EarlierRead(rest, from, k, |moments|);
    ScheduleStep(up, queries, moments, schedule);
    assert schedule[1..] == rest;
    assert FirstHit(up, queries, SeenAt(moments, schedule)) != Bypass;
  }

  lemma LaterIsFound(up: CaseTable, queries: seq<Query>, moments: seq<Store>, from: nat, k: nat)
    requires |queries| > 1 && from <= k < |moments| && !Hits(up, moments[k], queries[0])
    requires AlwaysFound(up, queries, moments, from)
    ensures AlwaysFound(up, queries[1..], moments, k)
  {
    forall rest | |rest| == |queries[1..]| && IsSchedule(rest, k, |moments|)
      ensures FirstHit(up, queries[1..], SeenAt(moments, rest)) != Bypass
    {
      ReadsAfterMiss(up, queries, moments, from, k, rest);
    }
  }

  lemma AtTheEnd(up: CaseTable, queries: seq<Query>, moments: seq<Store>)
    requires queries != []
    ensures HandedOver(up, queries, moments, |moments|)
    decreases |queries|
  {
    if |queries| > 1 {
      AtTheEnd(up, queries[1..], moments);
      assert FoundDuring(up, queries[0], moments, |moments|, |moments|);
    }
  }

  lemma {:induction false} FoundIsHandedOver(up: CaseTable, queries: seq<Query>, moments: seq<Store>, from: nat)
    requires queries != [] && from <= |moments| && AlwaysFound(up, queries, moments, from)
    ensures HandedOver(up, queries, moments, from)
    decreases |queries|
  {
    if |queries| == 1 {
      forall i | from <= i < |moments|
        ensures Hits(up, moments[i], queries[0])
      {
        assert IsSchedule([i], from, |moments|);
        assert FirstHit(up, queries, SeenAt(moments, [i])) != Bypass;
        ScheduleStep(up, queries, moments, [i]);
      }
    } else {
      var k := FirstMiss(up, queries[0], moments, from);
      if k < |moments| {
        LaterIsFound(up, queries, moments, from, k);
        FoundIsHandedOver(up, queries[1..], moments, k);
      } else {
        AtTheEnd(up, queries[1..], moments);
      }
      assert FoundDuring(up, queries[0], moments, from, k) && HandedOver(up, queries[1..], moments, k);
    }
  }

  /**
    * For any list of reads: none of the ways in which they may fall misses the file exactly when the reads take
    * over from each other in the order in which they are made.
    */
  lemma AlwaysFoundIff(up: CaseTable, queries: seq<Query>, moments: seq<Store>)
    requires queries != []
    ensures AlwaysFound(up, queries, moments, 0) <==> HandedOver(up, queries, moments, 0)
  {
    if AlwaysFound(up, queries, moments, 0) {
      FoundIsHandedOver(up, queries, moments, 0);
    }
    if HandedOver(up, queries, moments, 0) {
      forall schedule | |schedule| == |queries| && IsSchedule(schedule, 0, |moments|)
        ensures FirstHit(up, queries, SeenAt(moments, schedule)) != Bypass
      {
        HandedOverIsFound(up, queries, moments, 0, schedule);
      }
    }
  }

  /** The four reads of a create by a process with a parent, with three moments of hand-over. */
  ghost predicate HandedOverThrice(up: CaseTable, moments: seq<Store>, own: NtStr, parent: NtStr, path: NtStr,
                                   k: nat, l: nat, n: nat) {
    && k <= l <= n <= |moments|
    && FoundDuring(up, Query(own, path, Deny), moments, 0, k)
    && FoundDuring(up, Query(own, path, ReadOnly), moments, k, l)
    && FoundDuring(up, Query(parent, path, Deny), moments, l, n)
    && FoundDuring(up, Query(parent, path, ReadOnly), moments, n, |moments|)
  }

  /** No create misses the file exactly when these four reads take over from each other. */
  lemma CreateNeverMissedIff(up: CaseTable, moments: seq<Store>, own: NtStr, parent: NtStr, path: NtStr)
    ensures AlwaysFound(up, SearchQueries(own, path) + SearchQueries(parent, path), moments, 0)
       <==> exists k: nat, l: nat, n: nat :: HandedOverThrice(up, moments, own, parent, path, k, l, n)
  {
    var queries := SearchQueries(own, path) + SearchQueries(parent, path);
    AlwaysFoundIff(up, queries, moments);
    assert queries[1..][1..] == SearchQueries(parent, path);
    assert queries[1..][1..][1..] == [Query(parent, path, ReadOnly)];
    if HandedOver(up, queries, moments, 0) {
      var k: nat :| 0 <= k <= |moments| && FoundDuring(up, queries[0], moments, 0, k)
                    && HandedOver(up, queries[1..], moments, k);
      var l: nat :| k <= l <= |moments| && FoundDuring(up, queries[1..][0], moments, k, l)
                    && HandedOver(up, queries[1..][1..], moments, l);
      var n: nat :| l <= n <= |moments| && FoundDuring(up, queries[1..][1..][0], moments, l, n)
                    && HandedOver(up, queries[1..][1..][1..], moments, n);
      assert HandedOverThrice(up, moments, own, parent, path, k, l, n);
    }
    if k: nat, l: nat, n: nat :| HandedOverThrice(up, moments, own, parent, path, k, l, n) {
      assert HandedOver(up, queries[1..][1..][1..], moments, n);
      assert HandedOver(up, queries[1..][1..], moments, l);
      assert HandedOver(up, queries[1..], moments, k);
    }
  }
}
