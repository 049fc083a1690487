/** Exactly when the driver handles a registry operation, and runs in which it handles them all. */
module RegistryHandling {
  import opened Wrappers
  import opened NtStrings
  import opened PathUtils
  import opened RulePaths
  import opened Rules
  import opened RuleEvents
  import opened RegistryNotifications
  import opened RegistryTracking

  /** The name under which the entry of a key is looked up makes no difference to whether there is one. */
  lemma HasNameOfSpelling(up: CaseTable, rules: RuleList, a: NtStr, b: NtStr)
    requires EqualsNoCase(up, a, b)
    ensures HasName(up, rules, a) <==> HasName(up, rules, b)
  {
  }

  /**
    * A set value is handled exactly when none of the requests made for it is refused: to copy it, to prepare it, to
    * copy and upper-case the process name, to push the path, and to push an entry where the process has none.
    */
  lemma SetHandledIff(m: Machine, reg: Registry, store: Store, ev: RegistryEvent, refused: Refusals)
    requires KeysOk(m.up, reg) && ev.SetValue? && Legal(m.up, reg, ev)
    ensures After(m, store, ev, refused).result.Success?
       <==> && CopyValueName !in refused && Prepare(m, ev.value, refused).Success?
            && CopyProcessName !in refused && UpcaseProcessName !in refused && PushPath !in refused
            && (HasName(m.up, store.Rules(ev.key.action), ev.key.process) || PushEntry !in refused)
  {
    var name := SpelledKey(m.up, ev.keyPath, ev.key);
    NotificationOnProcessKey(m, store, NoteOf(ev), refused, ev.key.action, name);
    HasNameOfSpelling(m.up, store.Rules(ev.key.action), name, ev.key.process);
    if CopyPrepared(m, ev.value, refused).Success? {
      AddFileExact(m.up, store.Rules(ev.key.action), name, CopyPrepared(m, ev.value, refused).value, refused);
    }
  }

  /** A deleted value is handled exactly when its name can be copied and prepared. */
  lemma DeleteHandledIff(m: Machine, reg: Registry, store: Store, ev: RegistryEvent, refused: Refusals)
    requires KeysOk(m.up, reg) && ev.DeleteValue? && Legal(m.up, reg, ev)
    ensures After(m, store, ev, refused).result.Success?
       <==> CopyValueName !in refused && Prepare(m, ev.value, refused).Success?
  {
    var name := SpelledKey(m.up, ev.keyPath, ev.key);
    NotificationOnProcessKey(m, store, NoteOf(ev), refused, ev.key.action, name);
  }

  /** A removed key is always handled. */
  lemma RemoveKeyHandled(m: Machine, reg: Registry, store: Store, ev: RegistryEvent, refused: Refusals)
    requires KeysOk(m.up, reg) && ev.RemoveKey? && Legal(m.up, reg, ev)
    ensures After(m, store, ev, refused).result.Success?
  {
    var name := SpelledKey(m.up, ev.keyPath, ev.key);
    NotificationOnProcessKey(m, store, NoteOf(ev), refused, ev.key.action, name);
  }

  /** A renamed key is handled exactly when the new name can be copied and upper-cased, whatever the names. */
  lemma RenameHandledIff(m: Machine, reg: Registry, store: Store, ev: RegistryEvent, refused: Refusals)
    requires KeysOk(m.up, reg) && ev.RenameTo? && Legal(m.up, reg, ev)
    ensures After(m, store, ev, refused).result.Success?
       <==> CopyProcessName !in refused && UpcaseProcessName !in refused
  {
    var name := SpelledKey(m.up, ev.keyPath, ev.key);
    NotificationOnProcessKey(m, store, NoteOf(ev), refused, ev.key.action, name);
    RenameProcessExact(m.up, store.Rules(ev.key.action), name, ev.newName, refused);
  }

  // ---------- runs without refusals ----------

  /** Every operation is legal, every set value is new and has a stored form, and no memory request is refused. */
  ghost predicate QuietRun(m: Machine, reg: Registry, steps: seq<Step>)
    decreases |steps|
  {
    steps == [] ||
    (var ev := steps[0].event;
     && Legal(m.up, reg, ev) && steps[0].refused == {}
     && (ev.SetValue? ==> !HasValue(m.up, reg[ev.key], ev.value) && Prepared(m, ev.value).Success?)
     && QuietRun(m, RegistryNext(m.up, reg, ev), steps[1..]))
  }

  lemma QuietStepStaysStored(m: Machine, reg: Registry, ev: RegistryEvent)
    requires AllStored(m, reg) && Legal(m.up, reg, ev)
    requires ev.SetValue? ==> Prepared(m, ev.value).Success?
    ensures AllStored(m, RegistryNext(m.up, reg, ev))
  {
    var next := RegistryNext(m.up, reg, ev);
    forall k | k in next
      ensures AllPrepared(m, next[k])
    {
      assert k in reg ==> AllPrepared(m, reg[k]);
      if ev.RenameTo? {
        assert AllPrepared(m, reg[ev.key]);
      }
    }
  }

  lemma QuietStepIsHandled(m: Machine, reg: Registry, store: Store, ev: RegistryEvent)
    requires KeysOk(m.up, reg) && AllStored(m, reg) && Legal(m.up, reg, ev) && !ev.Elsewhere?
    requires ev.SetValue? ==> Prepared(m, ev.value).Success?
    ensures After(m, store, ev, {}).result.Success?
  {
    match ev
    case CreateKey(_) =>
    case SetValue(_, _, _) => SetHandledIff(m, reg, store, ev, {});
    case DeleteValue(key, _, value) =>
      DeleteHandledIff(m, reg, store, ev, {});
      var i := FindPath(m.up, reg[key], value).value;
      assert AllPrepared(m, reg[key]);
      PrepareIgnoresCase(m, reg[key][i], value, {});
    case RemoveKey(_, _) => RemoveKeyHandled(m, reg, store, ev, {});
    case RenameTo(_, _, _) => RenameHandledIff(m, reg, store, ev, {});
  }

  /** While memory lasts and values can be stored, the driver handles every run. */
  lemma {:induction false} QuietRunIsHandled(m: Machine, reg: Registry, store: Store, steps: seq<Step>)
    requires RegistryOk(m.up, reg) && AllStored(m, reg) && QuietRun(m, reg, steps)
    ensures HandledRun(m, reg, store, steps)
    decreases |steps|
  {
    if steps != [] {
      var ev := steps[0].event;
      if !ev.Elsewhere? {
        QuietStepIsHandled(m, reg, store, ev);
      }
      QuietStepStaysStored(m, reg, ev);
      RegistryStaysOk(m.up, reg, ev);
      QuietRunIsHandled(m, RegistryNext(m.up, reg, ev), After(m, store, ev, {}).store, steps[1..]);
    }
  }

  /** So from nothing registered, every such run ends with the store as an index of the registry. */
  lemma QuietRunTracks(m: Machine, steps: seq<Step>)
    requires QuietRun(m, map[], steps)
    ensures HandledRun(m, map[], EMPTY_STORE, steps)
    ensures Tracks(m, Final(m, map[], EMPTY_STORE, steps).0, Final(m, map[], EMPTY_STORE, steps).1)
  {
    NothingIsTracked(m);
    QuietRunIsHandled(m, map[], EMPTY_STORE, steps);
    RunFromEmptyTracks(m, steps);
  }
}
