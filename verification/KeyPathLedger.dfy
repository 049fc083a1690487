/**
  * Who holds the key path strings that the configuration manager lends, over whole runs of registry callbacks
  * (src/registry_manager.rs:90-256, src/kernel_objects/cm_key_object_path.rs:38-73).
  */
module KeyPathLedger {
  import opened Wrappers
  import opened NtStrings

  /** A key path string lent by the configuration manager. */
  type PathId = nat

  /** What a rename passes from its pre- to its post-operation callback. */
  type CallContext = Option<PathId>

  /** The strings that are out, the next one to lend, and how often each came back. */
  datatype Ledger = Ledger(lent: map<PathId, NtStr>, next: PathId, returned: multiset<PathId>) {

    /** Every string lent so far is either out or came back exactly once. */
    ghost predicate Valid() {
      && (forall id | id in lent :: id < next && returned[id] == 0)
      && (forall id: PathId | id < next && id !in lent :: returned[id] == 1)
      && (forall id: PathId | next <= id :: returned[id] == 0)
    }

    function Lend(path: NtStr): Ledger {
      Ledger(lent[next := path], next + 1, returned)
    }

    function TakeBack(id: PathId): Ledger {
      Ledger(lent - {id}, next, returned + multiset{id})
    }
  }

  const EMPTY_LEDGER := Ledger(map[], 0, multiset{})

  lemma LendValid(l: Ledger, path: NtStr)
    requires l.Valid()
    ensures l.Lend(path).Valid()
  {
  }

  lemma TakeBackValid(l: Ledger, id: PathId)
    requires l.Valid() && id in l.lent
    ensures l.TakeBack(id).Valid()
  {
  }

  // ---------- callbacks ----------

  /**
    * One callback: before a rename (asking for the path may fail, which fails the rename), after a rename,
    * or after another operation that asks for the path and drops it before it returns.
    */
  datatype Callback =
    | PreRename(rename: nat, path: Result<NtStr>)
    | PostRename(rename: nat)
    | PostOther(path: Result<NtStr>)

  /** The ledger and the contexts of the renames that are between their two callbacks. */
  datatype State = State(ledger: Ledger, contexts: map<nat, CallContext>)

  const INITIAL := State(EMPTY_LEDGER, map[])

  /** The system pairs the callbacks: a post callback follows its own successful pre callback. */
  predicate Allowed(s: State, c: Callback) {
    match c
    case PreRename(rename, _) => rename !in s.contexts
    case PostRename(rename) => rename in s.contexts
    case PostOther(_) => true
  }

  /** The ledger after the post callback dropped the path it took from its context. */
  function Released(l: Ledger, context: CallContext): Ledger {
    if context.Some? then l.TakeBack(context.value) else l
  }

  function Next(s: State, c: Callback): State
    requires Allowed(s, c)
  {
    match c
    case PreRename(rename, path) =>
      if path.Failure? then s
      else State(s.ledger.Lend(path.value), s.contexts[rename := Some(s.ledger.next)])
    case PostRename(rename) => State(Released(s.ledger, s.contexts[rename]), s.contexts - {rename})
    case PostOther(path) =>
      if path.Failure? then s else s.(ledger := s.ledger.Lend(path.value).TakeBack(s.ledger.next))
  }

  ghost predicate IsRun(s: State, run: seq<Callback>)
    decreases |run|
  {
    run == [] || (Allowed(s, run[0]) && IsRun(Next(s, run[0]), run[1..]))
  }

  ghost function After(s: State, run: seq<Callback>): State
    requires IsRun(s, run)
    decreases |run|
  {
    if run == [] then s else After(Next(s, run[0]), run[1..])
  }

  /** The strings that are out are exactly those the open renames hold, each held once. */
  ghost predicate Balanced(s: State) {
    && s.ledger.Valid()
    && (forall r | r in s.contexts :: s.contexts[r].Some? && s.contexts[r].value in s.ledger.lent)
    && (forall id | id in s.ledger.lent :: exists r | r in s.contexts :: s.contexts[r] == Some(id))
    && (forall r, q | r in s.contexts && q in s.contexts && s.contexts[r] == s.contexts[q] :: r == q)
  }

  lemma PreRenameBalanced(s: State, rename: nat, path: Result<NtStr>)
    requires Balanced(s) && rename !in s.contexts
    ensures Balanced(Next(s, PreRename(rename, path)))
  {
    if path.Success? {
      var t := Next(s, PreRename(rename, path));
      LendValid(s.ledger, path.value);
      forall id | id in t.ledger.lent
        ensures exists r | r in t.contexts :: t.contexts[r] == Some(id)
      {
        if id == s.ledger.next {
          assert t.contexts[rename] == Some(id);
        } else {
          var r :| r in s.contexts && s.contexts[r] == Some(id);
          assert t.contexts[r] == Some(id);
        }
      }
    }
  }

  lemma PostRenameBalanced(s: State, rename: nat)
    requires Balanced(s) && rename in s.contexts
    ensures Balanced(Next(s, PostRename(rename)))
  {
    var t := Next(s, PostRename(rename));
    TakeBackValid(s.ledger, s.contexts[rename].value);
    forall id | id in t.ledger.lent
      ensures exists r | r in t.contexts :: t.contexts[r] == Some(id)
    {
      var r :| r in s.contexts && s.contexts[r] == Some(id);
      assert t.contexts[r] == Some(id);
    }
  }

  lemma PostOtherBalanced(s: State, path: Result<NtStr>)
    requires Balanced(s)
    ensures Balanced(Next(s, PostOther(path)))
  {
    if path.Success? {
      LendValid(s.ledger, path.value);
      TakeBackValid(s.ledger.Lend(path.value), s.ledger.next);
      assert s.ledger.Lend(path.value).TakeBack(s.ledger.next).lent == s.ledger.lent;
    }
  }

  lemma {:induction false} RunBalanced(s: State, run: seq<Callback>)
    requires Balanced(s) && IsRun(s, run)
    ensures Balanced(After(s, run))
    decreases |run|
  {
    if run != [] {
      match run[0]
      case PreRename(rename, path) => PreRenameBalanced(s, rename, path); RunBalanced(Next(s, run[0]), run[1..]);
      case PostRename(rename) => PostRenameBalanced(s, rename); RunBalanced(Next(s, run[0]), run[1..]);
      case PostOther(path) => PostOtherBalanced(s, path); RunBalanced(Next(s, run[0]), run[1..]);
    }
  }

  /**
    * Over any interleaving of callbacks no string is handed back twice or by a callback that does not hold it,
    * and as many strings are out as renames are open; once none is open, every string ever lent has come back
    * exactly once.
    */
  lemma EveryPathReturnedOnce(run: seq<Callback>)
    requires IsRun(INITIAL, run)
    ensures var end := After(INITIAL, run);
            && (forall id :: end.ledger.returned[id] <= 1)
            && (forall id | id in end.ledger.lent :: end.ledger.returned[id] == 0)
            && |end.ledger.lent| == |end.contexts|
            && (end.contexts == map[] ==> forall id: PathId | id < end.ledger.next :: end.ledger.returned[id] == 1)
  {
    RunBalanced(INITIAL, run);
    var end := After(INITIAL, run);
    SameSize(end.contexts, end.ledger.lent);
    if end.contexts == map[] {
      assert forall id | id in end.ledger.lent :: false;
    }
  }

  /** A one-to-one correspondence between open renames and strings that are out. */
  lemma {:induction false} SameSize(contexts: map<nat, CallContext>, lent: map<PathId, NtStr>)
    requires forall r | r in contexts :: contexts[r].Some? && contexts[r].value in lent
    requires forall id | id in lent :: exists r | r in contexts :: contexts[r] == Some(id)
    requires forall r, q | r in contexts && q in contexts && contexts[r] == contexts[q] :: r == q
    ensures |contexts| == |lent|
    decreases |contexts|
  {
    if contexts == map[] {
      assert lent.Keys == {};
    } else {
      var r :| r in contexts;
      var id := contexts[r].value;
      var c, l := contexts - {r}, lent - {id};
      forall i | i in l
        ensures exists q | q in c :: c[q] == Some(i)
      {
        var q :| q in contexts && contexts[q] == Some(i);
        assert q in c;
      }
      assert |c| == |contexts| - 1 by { assert c.Keys == contexts.Keys - {r}; assert |c.Keys| == |contexts.Keys| - 1; }
      assert |l| == |lent| - 1 by { assert l.Keys == lent.Keys - {id}; assert |l.Keys| == |lent.Keys| - 1; }
      SameSize(c, l);
    }
  }
}
