/** What the registry callback does to the rule store (src/registry_manager.rs:90-350). */
module RegistryNotifications {
  import opened Wrappers
  import opened NtStrings
  import opened PathUtils
  import opened RuleKeys
  import opened Rules
  import opened RuleEvents

  /**
    * A post-operation notification: did the operation succeed, the key's full path (asking for it may fail;
    * a rename carries the path its pre-operation callback saved, if any), and the name that comes with the
    * operation (absent when the system passes no information).
    */
  datatype Notification =
    | PostDeleteKey(succeeded: bool, keyPath: Result<NtStr>)
    | PostRenameKey(succeeded: bool, savedPath: Option<NtStr>, newName: Option<NtStr>)
    | PostDeleteValue(succeeded: bool, keyPath: Result<NtStr>, valueName: Option<NtStr>)
    | PostSetValue(succeeded: bool, keyPath: Result<NtStr>, valueName: Option<NtStr>)
    | Unmonitored

  /** The key path a notification is about, as its handler obtains it. */
  function NotifiedPath(note: Notification): Result<NtStr>
    requires !note.Unmonitored?
  {
    if note.PostRenameKey? then
      match note.savedPath
      case None => Failure(ObjectNameNotFound)
      case Some(path) => Success(path)
    else note.keyPath
  }

  /** `registry_callback_impl` for the post-operation classes. */
  function HandleNotification(m: Machine, store: Store, note: Notification, refused: Refusals): Outcome {
    if note.Unmonitored? || !note.succeeded then Outcome(store, Success(()))
    else
      match NotifiedPath(note)
      case Failure(e) => Outcome(store, Failure(e))
      case Success(keyPath) =>
        if !IsProtectionKey(m.up, keyPath) then Outcome(store, Success(()))
        else
          match note
          case PostDeleteKey(_, _) => DeleteKey(m, store, keyPath)
          case PostRenameKey(_, _, newName) =>
            if newName.None? then Outcome(store, Failure(InvalidParameter))
            else RenameKey(m, store, keyPath, newName.value, refused)
          case PostDeleteValue(_, _, valueName) =>
            if valueName.None? then Outcome(store, Failure(InvalidParameter))
            else DeleteKeyValue(m, store, keyPath, valueName.value, refused)
          case PostSetValue(_, _, valueName) =>
            if valueName.None? then Outcome(store, Failure(InvalidParameter))
            else SetKeyValue(m, store, keyPath, valueName.value, refused)
  }

  /** Can the notification change the rule store at all? */
  predicate ConcernsRules(up: CaseTable, note: Notification) {
    && !note.Unmonitored?
    && note.succeeded
    && NotifiedPath(note).Success?
    && IsProtectionKey(up, NotifiedPath(note).value)
    && Parse(up, NotifiedPath(note).value).Success?
    && NamesProcess(Parse(up, NotifiedPath(note).value).value)
  }

  /** A successful operation on a process key is one update of that process's rules. */
  lemma NotificationOnProcessKey(m: Machine, store: Store, note: Notification, refused: Refusals,
                                 action: Action, name: NtStr)
    requires !note.Unmonitored? && note.succeeded && NotifiedPath(note).Success?
    requires IsProtectionKey(m.up, NotifiedPath(note).value)
    requires Parse(m.up, NotifiedPath(note).value) == Success(RuleKeyPath(Some(action), Some(name)))
    ensures note.PostDeleteKey? ==>
              HandleNotification(m, store, note, refused)
              == Updated(store, action, Success(ClearProcess(m.up, store.Rules(action), name)))
    ensures note.PostRenameKey? && note.newName.Some? ==>
              HandleNotification(m, store, note, refused)
              == Updated(store, action, RenameProcess(m.up, store.Rules(action), name, note.newName.value, refused))
    ensures note.PostDeleteValue? && note.valueName.Some? ==>
              HandleNotification(m, store, note, refused)
              == match CopyPrepared(m, note.valueName.value, refused)
                 case Failure(e) => Outcome(store, Failure(e))
                 case Success(path) => Updated(store, action,
                     Success(RemoveFile(m.up, store.Rules(action), name, path)))
    ensures note.PostSetValue? && note.valueName.Some? ==>
              HandleNotification(m, store, note, refused)
              == match CopyPrepared(m, note.valueName.value, refused)
                 case Failure(e) => Outcome(store, Failure(e))
                 case Success(path) => Updated(store, action, AddFile(m.up, store.Rules(action), name, path, refused))
  {
  }

  /** Failed operations, foreign keys, type keys and keys below process keys never touch the store. */
  lemma UnconcernedChangesNothing(m: Machine, store: Store, note: Notification, refused: Refusals)
    requires !ConcernsRules(m.up, note)
    ensures HandleNotification(m, store, note, refused).store == store
  {
  }

  /** Whatever the notification, an error return means an unchanged store. */
  lemma FailedNotificationChangesNothing(m: Machine, store: Store, note: Notification, refused: Refusals)
    requires HandleNotification(m, store, note, refused).result.Failure?
    ensures HandleNotification(m, store, note, refused).store == store
  {
    if ConcernsRules(m.up, note) {
      var keyPath := NotifiedPath(note).value;
      var name := if note.PostDeleteKey? then None else if note.PostRenameKey? then note.newName else note.valueName;
      FailedEventsChangeNothing(m, store, keyPath, if name.Some? then name.value else [], refused);
    }
  }

  /** Does the notification carry the name that its handler needs? */
  predicate HasItsName(note: Notification) {
    match note
    case PostRenameKey(_, _, newName) => newName.Some?
    case PostDeleteValue(_, _, valueName) => valueName.Some?
    case PostSetValue(_, _, valueName) => valueName.Some?
    case _ => true
  }

  /** Is it about a value? */
  predicate AboutValue(note: Notification) {
    note.PostSetValue? || note.PostDeleteValue?
  }

  /** What nobody asked for, what failed, and what happens outside the rules root is passed over without an error. */
  lemma ForeignIsIgnored(m: Machine, store: Store, note: Notification, refused: Refusals)
    requires note.Unmonitored? || !note.succeeded
             || (NotifiedPath(note).Success? && !IsProtectionKey(m.up, NotifiedPath(note).value))
    ensures HandleNotification(m, store, note, refused) == Outcome(store, Success(()))
  {
  }

  /** The errors of a notification on a key at or below the rules root that changes nothing, in their order. */
  lemma UnconcernedOutcome(m: Machine, store: Store, note: Notification, refused: Refusals)
    requires !note.Unmonitored? && note.succeeded && !ConcernsRules(m.up, note)
    ensures NotifiedPath(note).Failure? ==>
              HandleNotification(m, store, note, refused) == Outcome(store, Failure(NotifiedPath(note).error))
    ensures NotifiedPath(note).Success? && IsProtectionKey(m.up, NotifiedPath(note).value) ==>
              HandleNotification(m, store, note, refused) == Outcome(store,
                if !HasItsName(note) then Failure(InvalidParameter)
                else if AboutValue(note) && CopyPrepared(m, note.valueName.value, refused).Failure?
                then Failure(CopyPrepared(m, note.valueName.value, refused).error)
                else if Parse(m.up, NotifiedPath(note).value).Failure?
                then Failure(Parse(m.up, NotifiedPath(note).value).error)
                else Success(()))
  {
  }

  /** Where the path comes from: what the system was asked for, or what the pre-operation callback of a rename saved. */
  lemma NotifiedPathExact(note: Notification)
    requires !note.Unmonitored?
    ensures note.PostRenameKey? && note.savedPath.Some? ==> NotifiedPath(note) == Success(note.savedPath.value)
    ensures note.PostRenameKey? && note.savedPath.None? ==> NotifiedPath(note) == Failure(ObjectNameNotFound)
    ensures !note.PostRenameKey? ==> NotifiedPath(note) == note.keyPath
  {
  }
}
