/** The invariant of the two rule lists, over loading and over every run of notifications. */
module StoreInvariants {
  import opened Wrappers
  import opened NtStrings
  import opened PathUtils
  import opened RuleKeys
  import opened RulePaths
  import opened Rules
  import opened RuleEvents
  import opened RegistryNotifications
  import opened RegistryLoad

  /** Both lists are upper-case and name each process once. */
  predicate StoreInv(up: CaseTable, store: Store) {
    RulesInv(up, store.deny) && RulesInv(up, store.readOnly)
  }

  /** The new name of a renamed process key is not the name of another entry (or nothing is renamed). */
  predicate RenameIsFree(up: CaseTable, store: Store, keyPath: NtStr, newName: NtStr) {
    Parse(up, keyPath).Success? && NamesProcess(Parse(up, keyPath).value) ==>
      var key := Parse(up, keyPath).value;
      var rules, oldName := store.Rules(key.ruleType.value), key.processName.value;
      !HasName(up, rules, oldName) || EqualsNoCase(up, oldName, newName) || !HasName(up, rules, newName)
  }

  lemma SetKeepsValid(m: Machine, store: Store, keyPath: NtStr, value: NtStr, refused: Refusals)
    requires StoreInv(m.up, store)
    ensures StoreInv(m.up, SetKeyValue(m, store, keyPath, value, refused).store)
  {
    var path, key := CopyPrepared(m, value, refused), Parse(m.up, keyPath);
    if path.Success? && key.Success? && NamesProcess(key.value) {
      PrepareIsNormal(m, value, refused);
      var action, name := key.value.ruleType.value, key.value.processName.value;
      if AddFile(m.up, store.Rules(action), name, path.value, refused).Success? {
        AddFileKeepsInv(m.up, store.Rules(action), name, path.value, refused);
      }
    }
  }

  lemma DeleteKeepsValid(m: Machine, store: Store, keyPath: NtStr, value: NtStr, refused: Refusals)
    requires StoreInv(m.up, store)
    ensures StoreInv(m.up, DeleteKeyValue(m, store, keyPath, value, refused).store)
  {
    var path, key := CopyPrepared(m, value, refused), Parse(m.up, keyPath);
    if path.Success? && key.Success? && NamesProcess(key.value) {
      RemoveFileKeepsInv(m.up, store.Rules(key.value.ruleType.value), key.value.processName.value, path.value);
    }
  }

  lemma ClearKeepsValid(m: Machine, store: Store, keyPath: NtStr)
    requires StoreInv(m.up, store)
    ensures StoreInv(m.up, DeleteKey(m, store, keyPath).store)
  {
    var key := Parse(m.up, keyPath);
    if key.Success? && NamesProcess(key.value) {
      ClearProcessKeepsInv(m.up, store.Rules(key.value.ruleType.value), key.value.processName.value);
    }
  }

  lemma RenameKeepsValidIff(m: Machine, store: Store, keyPath: NtStr, newName: NtStr, refused: Refusals)
    requires StoreInv(m.up, store) && RenameKey(m, store, keyPath, newName, refused).result.Success?
    ensures StoreInv(m.up, RenameKey(m, store, keyPath, newName, refused).store)
       <==> RenameIsFree(m.up, store, keyPath, newName)
  {
    var key := Parse(m.up, keyPath).value;
    if NamesProcess(key) {
      ParseNeverBypass(m.up, keyPath);
      RenameKeepsInvIff(m.up, store.Rules(key.ruleType.value), key.processName.value, newName, refused);
    }
  }

  /** Loading keeps the invariant, also when it ends early. */
  lemma {:induction false} LoadKeepsInv(m: Machine, types: seq<ListedType>, store: Store)
    requires StoreInv(m.up, store)
    requires forall t | 0 <= t < |types| :: ProcessesOk(m.up, types[t].name, types[t].processes)
    ensures StoreInv(m.up, LoadTypes(m, types, store).store)
  {
    if types != [] {
      var action, rules := ActionOfName(m.up, types[0].name), LoadProcesses(m, types[0].processes);
      if action.Success? && rules.Success? {
        LoadedRulesInv(m, types[0].name, types[0].processes);
        LoadKeepsInv(m, types[1..], store.With(action.value, rules.value));
      }
    }
  }

  lemma ListingKeepsInv(m: Machine, types: seq<ListedType>, store: Store)
    ensures StoreInv(m.up, store) && ListingOk(m.up, types) ==> StoreInv(m.up, LoadTypes(m, types, store).store)
  {
    if StoreInv(m.up, store) && ListingOk(m.up, types) {
      LoadKeepsInv(m, types, store);
    }
  }

  // ---------- runs of notifications ----------

  /** A notification that renames an entry gives it a name that no other entry has. */
  predicate RenameNoteIsFree(m: Machine, store: Store, note: Notification, refused: Refusals) {
    ConcernsRules(m.up, note) && note.PostRenameKey? && note.newName.Some?
    && RenameKey(m, store, note.savedPath.value, note.newName.value, refused).result.Success? ==>
      RenameIsFree(m.up, store, note.savedPath.value, note.newName.value)
  }

  /** Whatever the notification, handled or failed, the invariant survives unless it renames onto a taken name. */
  lemma NotificationKeepsInvIff(m: Machine, store: Store, note: Notification, refused: Refusals)
    requires StoreInv(m.up, store)
    ensures StoreInv(m.up, HandleNotification(m, store, note, refused).store)
            <==> RenameNoteIsFree(m, store, note, refused)
  {
    if !ConcernsRules(m.up, note) {
      UnconcernedChangesNothing(m, store, note, refused);
    } else if HandleNotification(m, store, note, refused).result.Failure? {
      FailedNotificationChangesNothing(m, store, note, refused);
    } else {
      match note
      case PostDeleteKey(_, path) => ClearKeepsValid(m, store, path.value);
      case PostRenameKey(_, path, name) => RenameKeepsValidIff(m, store, path.value, name.value, refused);
      case PostDeleteValue(_, path, name) => DeleteKeepsValid(m, store, path.value, name.value, refused);
      case PostSetValue(_, path, name) => SetKeepsValid(m, store, path.value, name.value, refused);
    }
  }

  /** A notification and the memory requests that are refused while it is handled. */
  datatype Notified = Notified(note: Notification, refused: Refusals)

  ghost predicate InvThroughout(m: Machine, store: Store, run: seq<Notified>)
    decreases |run|
  {
    && StoreInv(m.up, store)
    && (run != [] ==> InvThroughout(m, HandleNotification(m, store, run[0].note, run[0].refused).store, run[1..]))
  }

  ghost predicate RenamesFree(m: Machine, store: Store, run: seq<Notified>)
    decreases |run|
  {
    run == [] ||
    (&& RenameNoteIsFree(m, store, run[0].note, run[0].refused)
     && RenamesFree(m, HandleNotification(m, store, run[0].note, run[0].refused).store, run[1..]))
  }

  /**
    * Over any run of notifications at all, with repeated values, failed operations and refused memory, the
    * invariant holds throughout exactly when no rename takes a name that is in use.
    */
  lemma {:induction false} InvThroughoutIff(m: Machine, store: Store, run: seq<Notified>)
    requires StoreInv(m.up, store)
    ensures InvThroughout(m, store, run) <==> RenamesFree(m, store, run)
    decreases |run|
  {
    if run != [] {
      NotificationKeepsInvIff(m, store, run[0].note, run[0].refused);
      var next := HandleNotification(m, store, run[0].note, run[0].refused).store;
      if StoreInv(m.up, next) {
        InvThroughoutIff(m, next, run[1..]);
      }
    }
  }
}
