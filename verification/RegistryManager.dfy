/**
  * The registry callback object: its handlers and the key paths they own
  * (src/registry_manager.rs, src/kernel_objects/cm_key_object_path.rs, src/registry.rs:326-347).
  */
module RegistryManagers {
  import opened Wrappers
  import opened NtStrings
  import opened RuleEvents
  import opened RegistryNotifications
  import opened RulesManagers
  import RuleKeys
  import L = KeyPathLedger

  /** The configuration manager's books about the strings it lends. */
  class ConfigurationManager {
    var ledger: L.Ledger

    constructor ()
      ensures ledger == L.EMPTY_LEDGER
    {
      ledger := L.EMPTY_LEDGER;
    }

    /** CmCallbackGetKeyObjectIDEx: `path` is the key's path, or the error of asking for it. */
    method GetKeyObjectId(path: Result<NtStr>) returns (r: Result<L.PathId>)
      modifies this
      ensures path.Failure? ==> r == Failure(path.error) && ledger == old(ledger)
      ensures path.Success? ==> r == Success(old(ledger).next) && ledger == old(ledger).Lend(path.value)
    {
      var name :- path;
      r := Success(ledger.next);
      ledger := ledger.Lend(name);
    }

    /** CmCallbackReleaseKeyObjectIDEx: only a string that is out may be handed back. */
    method ReleaseKeyObjectId(id: L.PathId)
      requires id in ledger.lent
      modifies this
      ensures ledger == old(ledger).TakeBack(id)
    {
      ledger := ledger.TakeBack(id);
    }
  }

  /** The owning wrapper around a lent string; without a pointer nothing is owned. */
  class CmKeyObjectPath {
    var pointer: Option<L.PathId>

    constructor From(pointer: Option<L.PathId>)
      ensures this.pointer == pointer
    {
      this.pointer := pointer;
    }

    /** `path`. */
    method Path(cm: ConfigurationManager) returns (r: Result<NtStr>)
      requires pointer.Some? ==> pointer.value in cm.ledger.lent
      ensures pointer.Some? ==> r == Success(cm.ledger.lent[pointer.value])
      ensures pointer.None? ==> r == Failure(ObjectNameNotFound)
    {
      return if pointer.Some? then Success(cm.ledger.lent[pointer.value]) else Failure(ObjectNameNotFound);
    }

    /** `leak`: ownership moves to the caller. */
    method Leak() returns (r: Option<L.PathId>)
      modifies this
      ensures r == old(pointer) && pointer == None
    {
      r := pointer;
      pointer := None;
    }

    /** `drop`: hands the string back unless it was leaked. */
    method Drop(cm: ConfigurationManager)
      requires pointer.Some? ==> pointer.value in cm.ledger.lent
      modifies this, cm
      ensures pointer == None && cm.ledger == L.Released(old(cm.ledger), old(pointer))
    {
      if pointer.Some? {
        cm.ReleaseKeyObjectId(pointer.value);
        pointer := None;
      }
    }
  }

  class RegistryManager {
    const cm: ConfigurationManager
    const rules: RulesManager

    constructor (cm: ConfigurationManager, rules: RulesManager)
      ensures this.cm == cm && this.rules == rules
    {
      this.cm, this.rules := cm, rules;
    }

    /** `pre_rename_key`: on success the path is out and the context holds it. */
    method PreRenameKey(path: Result<NtStr>) returns (r: Result<()>, context: L.CallContext)
      modifies cm
      ensures path.Failure? ==> r == Failure(path.error) && context == None && cm.ledger == old(cm.ledger)
      ensures path.Success? ==> r.Success? && context == Some(old(cm.ledger).next)
                                && cm.ledger == old(cm.ledger).Lend(path.value)
    {
      context := None;
      var id := cm.GetKeyObjectId(path);
      if id.Failure? {
        return Failure(id.error), context;
      }
      var oldPath := new CmKeyObjectPath.From(Some(id.value));
      context := oldPath.Leak();
      oldPath.Drop(cm);
      return Success(()), context;
    }

    /** `post_rename_key`: whatever it returns, the saved path is handed back, once. */
    method PostRenameKey(context: L.CallContext, succeeded: bool, newName: Option<NtStr>, refused: Refusals)
      returns (r: Result<()>)
      requires context.Some? ==> context.value in cm.ledger.lent
      modifies cm, rules
      ensures cm.ledger == L.Released(old(cm.ledger), context)
      ensures Outcome(rules.Contents(), r) ==
              HandleNotification(rules.machine, old(rules.Contents()),
                Notification.PostRenameKey(
                  succeeded, if context.Some? then Some(old(cm.ledger).lent[context.value]) else None, newName),
                      refused)
    {
      var oldPath := new CmKeyObjectPath.From(context);
      r := RenameWith(oldPath, succeeded, newName, refused);
      oldPath.Drop(cm);
    }

    /** What `post_rename_key` does while it holds the path. */
    method RenameWith(oldPath: CmKeyObjectPath, succeeded: bool, newName: Option<NtStr>, refused: Refusals)
      returns (r: Result<()>)
      requires oldPath.pointer.Some? ==> oldPath.pointer.value in cm.ledger.lent
      modifies rules
      ensures Outcome(rules.Contents(), r) ==
              HandleNotification(rules.machine, old(rules.Contents()),
                Notification.PostRenameKey(
                  succeeded, if oldPath.pointer.Some? then Some(cm.ledger.lent[oldPath.pointer.value])
                      else None, newName),
                refused)
    {
      if !succeeded {
        return Success(());
      }
      var keyPath :- oldPath.Path(cm);
      if !RuleKeys.IsProtectionKey(rules.machine.up, keyPath) {
        return Success(());
      }
      if newName.None? {
        return Failure(InvalidParameter);
      }
      r := rules.RenameKeyRules(keyPath, newName.value, refused);
    }

    /**
      * `post_delete_key`, `post_delete_value` and `post_set_value`: the path is asked for and dropped within
      * the call.
      */
    method PostOperation(note: Notification, refused: Refusals) returns (r: Result<()>)
      requires note.PostDeleteKey? || note.PostDeleteValue? || note.PostSetValue?
      modifies cm, rules
      ensures Outcome(rules.Contents(), r) == HandleNotification(rules.machine, old(rules.Contents()), note, refused)
      ensures cm.ledger == if !note.succeeded || note.keyPath.Failure? then old(cm.ledger)
                           else old(cm.ledger).Lend(note.keyPath.value).TakeBack(old(cm.ledger).next)
    {
      if !note.succeeded {
        return Success(());
      }
      var id :- cm.GetKeyObjectId(note.keyPath);
      var held := new CmKeyObjectPath.From(Some(id));
      r := OperationWith(held, note, refused);
      held.Drop(cm);
    }

    /** What the three handlers do while they hold the path. */
    method OperationWith(held: CmKeyObjectPath, note: Notification, refused: Refusals) returns (r: Result<()>)
      requires note.PostDeleteKey? || note.PostDeleteValue? || note.PostSetValue?
      requires note.succeeded && note.keyPath.Success?
      requires held.pointer.Some? && held.pointer.value in cm.ledger.lent
      requires cm.ledger.lent[held.pointer.value] == note.keyPath.value
      modifies rules
      ensures Outcome(rules.Contents(), r) == HandleNotification(rules.machine, old(rules.Contents()), note, refused)
    {
      var path := held.Path(cm);
      var keyPath := path.value;
      if !RuleKeys.IsProtectionKey(rules.machine.up, keyPath) {
        return Success(());
      }
      match note {
        case PostDeleteKey(_, _) =>
          r := rules.DeleteKeyRules(keyPath);
        case PostDeleteValue(_, _, valueName) =>
          if valueName.None? {
            return Failure(InvalidParameter);
          }
          r := rules.DeleteKeyValueRule(keyPath, valueName.value, refused);
        case PostSetValue(_, _, valueName) =>
          if valueName.None? {
            return Failure(InvalidParameter);
          }
          r := rules.SetKeyValueRule(keyPath, valueName.value, refused);
      }
    }
  }
}
