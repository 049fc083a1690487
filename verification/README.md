# Filesystem filter driver: verified model

This project models the parts of the driver that hold state or take decisions, and proves what they promise.

- **Strings and paths.** Counted UTF-16 strings, the system's upper-case table as an arbitrary per-unit table
  (`NtStrings`), name expressions over `*` and `?` (`Globs`), the decoded suffix test (`Utf16`), DOS-to-NT conversion
  (`PathUtils`), the stored form of a rule path and what it matches (`RulePaths`), the values on which it panics
  (`RulePanics`), and rule key paths (`RuleKeys`).
- **Rule store.** The two rule lists as values, with the updates and the search (`Rules`), the search while the lists
  change (`RuleReads`), the event handlers (`RuleEvents`, `RegistryNotifications`), the invariant of the lists
  (`StoreInvariants`), and the object that updates its lists in place (`RulesManager.dfy`).
- **Store against registry.** The store as an index of the registry over whole runs (`RegistryTracking`), when operations
  are handled (`RegistryHandling`), when store and registry part (`RegistryDrift`), what the registry alone decides
  (`RegistryDecisions`), start-up loading (`RegistryLoad`), loading against replaying (`RegistryReplay`), enumeration
  (`RegistryEnumeration`), the registry callback object and who owns the key paths it is lent (`RegistryManager.dfy`,
  `KeyPathLedger`).
- **Process cache.** The object (`ProcessManager.dfy`) over the reentrant resource (`FltResource`), and the interleaving of
  its threads as a state machine with its invariants (`ProcessProtocol`, `ProcessSafety`, `ProcessRuns`), its single
  look-ups and updates (`ProcessLookups`), and what becomes of a parent whose pid is given out again (`ProcessParents`).
- **Filter.** Access and disposition bits (`FltUtils`), the two file system callbacks (`Minifilter`), the callbacks in
  front of a file system (`FileSystemRuns`), and registry, store, file system and any number of requests under way
  together (`DriverRuns`).

`dafny verify dfyconfig.toml` checks everything.

## How the outside is represented

- The upper-case table is any idempotent per-unit table under which the separator, `*`, `?` and `:` are their own upper case
  and nobody else's. Theorems hold for all such tables; those of `RulePanics` moreover ask that it leaves surrogates alone.
- Drive links are any finite map from upper-case link names to targets; a target starts with a separator followed by
  something other than `:`. Link names are looked up without regard to case.
- Every memory request of a handler has a name (`Site`); a handler gets the set of requests that are refused. A handler passes
  each place at most once, so this describes every way in which its requests can fail. Failed string growth beyond 16-bit
  byte lengths is modelled as in the code.
- The process and file name queries, the registry enumeration, ERESOURCE, ZwQuerySymbolicLinkObject and the configuration
  manager's lent strings are parameters or small stated models.
- A requesting process is given by the image names the driver finds out for it and for its running parent.
- Each rule list has a lock of its own, which is held for one read or one update of that list. So a read is one step, and
  between two reads for the same request anything may happen to both lists: a request is judged by the sequence of
  stores its reads find (`RuleReads.FirstHit`), and the imperative callbacks get these stores as inputs (`OthersRun`).
- The file system grants the rights asked for and perhaps more; write rights beyond those asked for only to requests for
  the maximum allowed access, GENERIC_WRITE or GENERIC_ALL.
- `chars()` of the nt_string crate, which is not part of this model, is taken as UTF-16 decoding (section 2 of RFC 2781)
  from either end, with one error for each lone surrogate.

## Where the code differs from what one may expect

- Setting a value that already exists appends a second copy of its path, so the store stops tracking the registry, and
  deleting the value leaves a rule in force: `RegistryTracking.SetTracksIffNew`, `RegistryDrift.RuleOutlivesValue`. Over
  whole runs, with failures: `RegistryDrift.TracksThroughoutIff`.
- Process patterns may overlap and only the first fitting entry is asked: `Rules.SearchMeaning`,
  `Rules.OverlapIsOrderSensitive`. Order matters exactly when two fitting entries disagree: `Rules.OrderIrrelevantIff`, and
  for the registry `RegistryDecisions.RegistryDecidesIff`.
- Deny stands before read-only within one process only: the requestor's read-only rule stands before its parent's deny rule:
  `Minifilters.DecisionMeaning`.
- A request reads the lists one after the other. A rule that is moved from read-only to deny meanwhile can be missed
  although the file is ruled at every moment; moving it from deny to read-only is safe: `RuleReads.NeverMissedIff`,
  `RuleReads.CreateNeverMissedIff`, `RuleReads.MoveToDenyCanBeMissed`, `Minifilters.MovedRulePasses`.
- A rename whose new name does not convert passes before either name is looked up, and may replace a ruled file:
  `FileSystemRuns.ReplacementStoppedIff`, `FileSystemRuns.ShortNameReplaces`.
- The test for write rights overlooks the maximum allowed access and the generic rights, so a read-only rule lets such
  requests through: `FltUtils.NeverGrantsWriteIff`, `FileSystemRuns.ReadOnlyOpenSafeIff`,
  `FileSystemRuns.MaximumAllowedWrites`.
- The parent's process information is found by pid. If the pid was given out again, another process's rules apply:
  `ProcessParents.ParentIsStarterIff`, `ProcessParents.StrangerIsReturned`.
- The suffix tests on rule paths panic on some ill-formed strings, when the value is set or only when it is searched:
  `Utf16.PanicsIff`, `RulePanics.SettingPanicsIff`, `RulePanics.StoredPanicsIff`.
- The parser does not look at the unit after the rules root: `RuleKeys.ParseExact`, `RuleKeys.AcceptedKeyIsPrint`,
  `RuleKeys.SiblingOfRootAccepted`.
- The comment on `init` says that only a missing rules key is forgiven. A rule on an unknown drive fails with the same status and
  is forgiven too, with the rest of the rules not loaded: `RegistryLoad.InitTracksIff`, `RegistryLoad.UnknownDriveLoadsNothing`.
- Loading keeps an entry for a process key without values, replaying the key's values does not:
  `RegistryReplay.LoadEqualsReplayIff`.

## Model

| member | source | states |
|---|---|---|
| NtStrings.LastIndexOf | src/string_utils.rs:243-245 | the index found holds the unit and no later index does; none is found only if the unit is absent |
| Globs.GlobConcat | src/string_utils.rs:45-59 | a concatenated name expression accepts exactly the concatenations of what its parts accept |
| Globs.GlobLiteral | src/string_utils.rs:45-59 | an expression without wildcards accepts exactly itself |
| Globs.MatchingMeaning | src/string_utils.rs:207-213 | a name expression accepts exactly the strings that can be cut up along it: any piece for a star, one unit for a question mark, the unit itself otherwise; the case-ignoring call upper-cases the string only |
| Globs.NonUpperPatternMatchesNothing | src/rules_manager.rs:104-115 | why stored names and paths must be upper-case: ignoring case, any other pattern matches nothing |
| Globs.LiteralMatchesSpellings | src/string_utils.rs:211-213 | an upper-case pattern without wildcards matches exactly its spellings |
| Utf16.CharsSplit | src/string_utils.rs:88-91 | decoding distributes over a cut before a well-formed tail |
| Utf16.SuffixTestExact | src/string_utils.rs:83-92 | for well-formed strings the length guard in bytes and the truncating reversed comparison of characters hold iff the units are a suffix |
| Utf16.PanicsIff | src/string_utils.rs:83-92 | on any string the test for a suffix without surrogates panics exactly when the strings agree up to an undecodable character, and otherwise is the suffix relation |
| Utf16.FolderTestsPanicIff | src/rules_manager.rs:110-112 | what that means for the separator and for the separator with a star |
| Utf16.WellFormedNeverPanics | src/string_utils.rs:83-92 | on well-formed strings the test never panics, whatever the suffix |
| RulePanics.SettingPanicsIff | src/rules_manager.rs:105-112 | setting or loading a value panics iff its NT form ends in a lone surrogate |
| RulePanics.StoredPanicsIff | src/rules_manager.rs:262-265 | a stored value panics in the searches that it does not match, and only there, iff its NT form ends in a lone surrogate and a star |
| RulePanics.LoneSurrogateStarPanicsLater | src/rules_manager.rs:262-265 | a witness: such a value is stored without a panic |
| PathUtils.ReadLink | src/path_utils.rs:26-68 | asking for the size, reserving and asking again gives the link's target or the error of opening it |
| PathUtils.ConvertDosPath | src/path_utils.rs:74-103 | the conversion by appending computes the specification, with its errors |
| PathUtils.ConversionExact | src/path_utils.rs:26-103 | the result for every path and every refused request, error by error: too short, no link, too long, or target and rest |
| PathUtils.ConversionSucceedsIff | src/path_utils.rs:26-103 | a path converts iff its drive has a link, the result fits 16-bit byte lengths, and none of its requests is refused |
| PathUtils.DosPathToNtKeepsRest | src/path_utils.rs:74-103 | a converted path is the target of the named drive followed by the rest of the path, unit for unit |
| PathUtils.PrefixIsOptional | src/path_utils.rs:75-96 | with and without the object manager prefix a path has the same conversion or the same error |
| PathUtils.ConversionIgnoresCase | src/path_utils.rs:74-103 | paths that differ in case convert to paths that differ in case, or fail alike |
| RulePaths.DiskSpecifiedIffColon | src/rules_manager.rs:93-95 | the drive test asks exactly for a colon in second place |
| RulesManagers.PrepareRuleFilePath | src/rules_manager.rs:104-115 | rewriting the string step by step gives the specified stored form or error |
| RulePaths.PreparedExact | src/rules_manager.rs:104-115 | the stored form of every value: the value, or its link's target and the rest, with a star behind a final separator, in upper case; and the error where there is none |
| RulePaths.PreparedIff | src/rules_manager.rs:104-115 | it exists iff the drive, if one is named, has a link and the result fits |
| RulePaths.PrepareSucceedsIff | src/rules_manager.rs:104-115 | under refusals: iff moreover none of the requests made for this value is refused |
| RulePaths.PrepareIsNormal | src/rules_manager.rs:104-115 | a stored path is upper-case, names no drive letter and does not end with a separator |
| RulePaths.PrepareIdempotent | src/rules_manager.rs:97-115 | normalisation succeeds on its own results and leaves them alone |
| RulePaths.PrepareIgnoresCase | src/rules_manager.rs:104-115 | value names that differ in case are stored as the same path or fail alike |
| RulePaths.PathMatchesExact | src/rules_manager.rs:261-276 | a stored path matches what it accepts as an expression, wildcards included, and behind a final separator and star also what it accepts without the two |
| RulePaths.PlainPathMatches | src/rules_manager.rs:262 | for every other stored path: exactly what it accepts as an expression |
| RulePaths.FolderRuleExact | src/rules_manager.rs:260-277 | a stored folder rule matches exactly the folder and the paths that continue it with a separator, for any folder pattern |
| RulePaths.FolderValueCoversFolder | src/rules_manager.rs:104-115 | a value name with a final separator covers exactly the folder it names and its contents |
| RuleKeys.ParseExact | src/rules_manager.rs:321-365 | a key path parses to a type and a process name iff it is root, any unit, a type name in any case, a separator and a separator-free name; no 16-bit index wraps |
| RuleKeys.ParseShortExact | src/rules_manager.rs:327-349 | only the root parses to nothing, only type keys to a type alone |
| RuleKeys.ParseErrors | src/rules_manager.rs:324-349 | a path shorter than the root and a path of another shape have their own errors |
| RuleKeys.ProtectionKeyMeaning | src/rules_manager.rs:311-313 | a protection key continues the rules root, unit by unit, in any case |
| RuleKeys.ActionOfSpelling | src/rules_manager.rs:60-68 | every spelling of a type name is accepted as that type |
| RuleKeys.ParseNeverBypass | src/rules_manager.rs:321-365 | parsing never yields Bypass, nor a name without a type |
| RuleKeys.ParsePrintNoCase | src/rules_manager.rs:321-365 | any spelling of a printed key path parses to the type and the name as spelled |
| RuleKeys.ParsePrint | src/rules_manager.rs:321-365 | parsing a printed key path gives back type and name |
| RuleKeys.AcceptedKeyIsPrint | src/rules_manager.rs:311-365 | an accepted protection key is a spelling of its print iff a separator follows the root |
| RuleKeys.DeeperKeysRefused | src/rules_manager.rs:334-353 | keys below a process key are errors |
| RuleKeys.SiblingOfRootAccepted | src/rules_manager.rs:352-353 | a witness that the unit after the root is not checked |
| Rules.SearchMeaning | src/rules_manager.rs:249-306 | the action is Deny iff the first fitting deny entry covers the file, else ReadOnly by the same test, else Bypass |
| Rules.FirstFitMeaning | src/rules_manager.rs:257-278 | the first entry whose pattern accepts the process decides, by any of its paths |
| Rules.SearchRearranged | src/rules_manager.rs:257-278 | if the entries that fit the process agree on the file, the search asks whether some of them covers it, whatever the order of entries and paths |
| Rules.OrderIrrelevantIff | src/rules_manager.rs:257-278 | no rearrangement of entries and paths changes the answer iff any two entries that fit the process agree on the file |
| Rules.OverlapIsOrderSensitive | src/rules_manager.rs:257-260 | two overlapping entries whose order changes the answer |
| RuleReads.FirstHitMeaning | src/rules_manager.rs:283-306 | when the lists change between the reads, the action is the type of the earliest read that finds a rule in the list as it is then |
| RuleReads.SettledStays | src/rules_manager.rs:289-305 | once a read has found a rule or all lists are read, later changes do not matter |
| RuleReads.NeverMissedIff | src/rules_manager.rs:249-306 | no search misses a file while its rules change iff deny rules cover it up to some moment and read-only rules from then on |
| RuleReads.MoveToDenyCanBeMissed | src/rules_manager.rs:283-306 | a witness: moved from read-only to deny, with both in place for a while, a rule is missed |
| RuleReads.AlwaysFoundIff | src/rules_manager.rs:283-306 | for any list of reads: however they fall, one finds a rule iff the reads take over from each other in the order in which they are made |
| RuleReads.CreateNeverMissedIff | src/minifilter.rs:239-252 | no create misses a file iff own deny, own read-only, parent's deny and parent's read-only rules cover it one after the other, with three moments of hand-over |
| Rules.AddFileKeepsInv | src/rules_manager.rs:527-555 | adding keeps names and paths upper-case and names distinct |
| Rules.RemoveFileKeepsInv | src/rules_manager.rs:469-498 | so does removing a path |
| Rules.ClearProcessKeepsInv | src/rules_manager.rs:368-387 | so does removing an entry |
| Rules.RenameKeepsInvIff | src/rules_manager.rs:413-440 | renaming does iff the new name is not another entry's |
| Rules.RenameProcessExact | src/rules_manager.rs:413-440 | fails only with one of its two memory requests; the first entry of the process takes the upper-case new name, whatever its length, nothing else changes |
| Rules.AddFileExact | src/rules_manager.rs:527-555 | fails only with a memory request; the path goes to the end of the first entry of the process, or a new entry to the end of the list |
| Rules.RemoveFileExact | src/rules_manager.rs:469-498 | the first copy of the path in the first entry of the process goes, nothing else changes |
| Rules.ClearProcessExact | src/rules_manager.rs:368-387 | the first entry of the process goes, nothing else changes |
| RuleEvents.FailedEventsChangeNothing | src/rules_manager.rs:587-701 | a handler that returns an error has left both lists as they were |
| RuleEvents.SetThenDeleteNeutral | src/rules_manager.rs:643-701 | setting a value and deleting it changes no decision, from any upper-case store |
| RulesManagers.RulesManager.InitRules | src/rules_manager.rs:181-245 | the loading loop leaves the lists, and returns the result, of the specified load; the invariant survives, also when loading fails |
| RulesManagers.RulesManager.LoadRules | src/rules_manager.rs:213-235 | the loop over the process keys builds one entry per key in order, or returns the first error |
| RulesManagers.RulesManager.AddFileToProcessRules | src/rules_manager.rs:527-581 | the list of the type becomes the specified one; a refused request leaves both lists alone |
| RulesManagers.RulesManager.RemoveFileFromProcessRules | src/rules_manager.rs:469-524 | at most one equal path of the first equal entry goes, nothing else changes |
| RulesManagers.RulesManager.ClearRulesForProcess | src/rules_manager.rs:368-410 | the first equal entry goes, nothing else changes |
| RulesManagers.RulesManager.RenameProcessRules | src/rules_manager.rs:413-466 | the first equal entry gets the upper-case new name, nothing else changes |
| RulesManagers.RulesManager.SearchRuleAction | src/rules_manager.rs:283-306 | reads the deny list, then the read-only list as other threads have left it by then: Deny iff the first fitting deny entry covers the file at the first read, else ReadOnly by the same test at the second |
| RulesManagers.RulesManager.SetKeyValueRule | src/rules_manager.rs:676-701 | new lists and result as specified, unchanged on error, invariant kept |
| RulesManagers.RulesManager.DeleteKeyValueRule | src/rules_manager.rs:643-668 | new lists and result as specified, unchanged on error, invariant kept |
| RulesManagers.RulesManager.DeleteKeyRules | src/rules_manager.rs:615-634 | new lists and result as specified, unchanged on error, invariant kept |
| RulesManagers.RulesManager.RenameKeyRules | src/rules_manager.rs:587-609 | new lists and result as specified, unchanged on error, invariant kept iff the new name is free |
| StoreInvariants.InvThroughoutIff | src/registry_manager.rs:278-350 | over any run of notifications, repeated and failed ones included, names stay distinct and everything upper-case iff no rename takes a name in use |
| StoreInvariants.LoadKeepsInv | src/rules_manager.rs:181-245 | loading keeps the invariant, also when it ends early |
| RegistryNotifications.FailedNotificationChangesNothing | src/registry_manager.rs:278-350 | a callback that returns an error has left the lists as they were |
| RegistryNotifications.ForeignIsIgnored | src/registry_manager.rs:96-256 | what failed, is not monitored or happens outside the rules root is passed over without an error |
| RegistryNotifications.UnconcernedOutcome | src/registry_manager.rs:96-256 | the results, error by error, of notifications below the root that concern no process key |
| RegistryTracking.SetTracksIffNew | src/rules_manager.rs:527-555 | after a set value the store tracks the registry iff the value was new |
| RegistryTracking.DeleteTracks | src/rules_manager.rs:469-498 | deleting a value under any spelling keeps the store tracking the registry |
| RegistryTracking.RemoveKeyTracks | src/rules_manager.rs:615-634 | so does deleting a process key |
| RegistryTracking.RenameToTracks | src/rules_manager.rs:587-609 | so does renaming a process key to an unused name |
| RegistryHandling.SetHandledIff | src/rules_manager.rs:676-701 | a set value is handled iff none of the requests made for it is refused and it has a stored form |
| RegistryHandling.DeleteHandledIff | src/rules_manager.rs:643-668 | a deleted value is handled iff its name can be copied and prepared |
| RegistryHandling.RemoveKeyHandled | src/rules_manager.rs:615-634 | a removed process key is always handled |
| RegistryHandling.RenameHandledIff | src/rules_manager.rs:587-609 | a renamed process key is handled iff the new name can be copied and upper-cased |
| RegistryTracking.RunTracks | src/rules_manager.rs:587-701 | over every run of handled notifications each key's stored paths are, as a multiset, the stored forms of its value names, and no entry lacks a key |
| RegistryHandling.QuietRunIsHandled | src/rules_manager.rs:587-701 | every legal run of new values with stored forms is handled while no memory request is refused |
| RegistryHandling.QuietRunTracks | src/rules_manager.rs:587-701 | so from nothing registered it ends with the store as an index of the registry |
| RegistryTracking.RunFromEmptyTracks | src/rules_manager.rs:587-701 | the same for a driver that starts with nothing registered |
| RegistryTracking.LifeOfARule | src/rules_manager.rs:615-701 | from an empty registry, creating a key, setting a value and removing the key, under any spellings of its path, is a handled run that leaves no trace |
| RegistryDrift.StepTracksIff | src/rules_manager.rs:587-701 | after one operation and its notification, handled or failed, the store still tracks the registry iff a new value was handled, a repeated one was not, a deletion was, and a rename was unless it had nothing to do |
| RegistryDrift.TracksThroughoutIff | src/rules_manager.rs:587-701 | over any run of legal operations, failures and repetitions included, the store tracks the registry throughout iff each step is of this kind |
| RegistryDrift.RuleOutlivesValue | src/rules_manager.rs:469-555 | a witness: set twice and deleted once, a value is gone from the registry and its rule is still in the store |
| RegistryDrift.OneRuleInForce | src/rules_manager.rs:283-306 | and such a rule decides about whatever it matches |
| RegistryDecisions.DecisionFromRegistry | src/rules_manager.rs:283-306 | after every handled run the action for a process and a file is decided by the registry's keys and values alone, as long as the keys that fit the process agree on the file |
| RegistryDecisions.RegistryDecidesIff | src/rules_manager.rs:257-278 | every list that tracks a rule type answers alike, and as the registry says, iff the keys that fit the process agree on the file |
| RegistryLoad.LoadTracks | src/rules_manager.rs:181-245 | a successful load tracks the registry it enumerated |
| RegistryLoad.LoadedRunTracks | src/rules_manager.rs:181-245 | from start-up over any handled run the store tracks the registry |
| RegistryLoad.LoadSucceedsIffPrepared | src/rules_manager.rs:226-227 | loading succeeds iff every value in the registry has a stored form |
| RegistryLoad.LoadTracksIff | src/rules_manager.rs:181-245 | whether it ran to its end or not, loading leaves a store that tracks the registry iff every value can be stored |
| RegistryLoad.InitTracksIff | src/rules_manager.rs:160-172 | when start-up reports success the store tracks the registry iff every value can be stored |
| RegistryLoad.UnknownDriveLoadsNothing | src/rules_manager.rs:161-164 | a witness that start-up may report success without having loaded a rule |
| RegistryLoad.InitReportsFirstValue | src/rules_manager.rs:160-172 | the first value without a stored form ends the load; start-up reports it iff it is too long |
| RegistryLoad.InitReportsUnknownType | src/rules_manager.rs:213 | a type key with another name ends the load and is reported |
| RegistryLoad.InitSucceeds | src/rules_manager.rs:160-245 | when all types are known and all values stored, start-up succeeds with the full load |
| RegistryLoad.LoadProcessExact | src/rules_manager.rs:216-234 | a process key becomes one entry with its upper-case name and its values' stored forms in order |
| RegistryReplay.ReplayIsLoadWithoutEmptyKeys | src/rules_manager.rs:196-242 | setting the enumerated values one by one builds, in order, the load without the empty process keys |
| RegistryReplay.LoadEqualsReplayIff | src/rules_manager.rs:216-235 | loading equals replaying iff every process key has a value |
| RegistryEnumeration.EnumerateNames | src/registry.rs:244-301 | the loop ends, asks for no index more than twice, and returns every name once in order unless a memory request was refused |
| RegistryManagers.CmKeyObjectPath.Drop | src/kernel_objects/cm_key_object_path.rs:38-49 | the string is handed back unless it was leaked |
| RegistryManagers.CmKeyObjectPath.Leak | src/kernel_objects/cm_key_object_path.rs:69-73 | ownership moves to the caller |
| RegistryManagers.RegistryManager.PreRenameKey | src/registry_manager.rs:122-131 | on success one string is out and the context holds it, on failure none is |
| RegistryManagers.RegistryManager.PostRenameKey | src/registry_manager.rs:141-176 | on every exit the saved string is handed back once; lists and result are those of the notification |
| RegistryManagers.RegistryManager.PostOperation | src/registry_manager.rs:96-256 | the three other handlers hand back within the call what they asked for; lists and result are those of the notification |
| KeyPathLedger.RunBalanced | src/registry_manager.rs:122-176 | over any interleaving the strings that are out are exactly those of the open renames |
| KeyPathLedger.EveryPathReturnedOnce | src/registry_manager.rs:122-176 | no string comes back twice, as many are out as renames are open, and with none open each has come back exactly once |
| FltResources.FltResource.AcquireExclusive | src/kernel_objects/flt_resource.rs:69-77 | nests for the owner; the matching release undoes it |
| FltResources.FltResource.AcquireShared | src/kernel_objects/flt_resource.rs:84-92 | nests for the exclusive owner; the matching release undoes it |
| FltResources.AdmitsExactly | src/kernel_objects/flt_resource.rs:69-92 | sharing is refused only while another thread owns, owning only while another thread holds |
| ProcessManagers.ProcessManager.AddProcess | src/process_manager.rs:150-174 | inserts unless present or refused; lock depth balanced |
| ProcessManagers.ProcessManager.RemoveProcess | src/process_manager.rs:182-200 | the pid goes, no cached entry keeps it as parent, every other entry and link stays; lock depth balanced |
| ProcessManagers.ProcessManager.GetOrAddProcessInfo | src/process_manager.rs:240-258 | the cached entry, or a new one made from what the system reports; exactly when it succeeds; lock depth balanced |
| ProcessManagers.ProcessManager.GetOrAddParentProcessInfo | src/process_manager.rs:220-232 | the entry of the recorded parent iff it is cached or can be looked up; lock depth balanced |
| ProcessLookups.CachedIsReused | src/process_manager.rs:240-243 | a look-up that finds the pid cached ends with that very object, whatever happens before it returns |
| ProcessLookups.UncachedIsMade | src/process_manager.rs:240-249 | one that does not goes on to make an object |
| ProcessLookups.MadeAsReported | src/process_manager.rs:22-42 | which carries the incarnation and the parent that the system reports at that moment |
| ProcessLookups.AbsentIsInserted | src/process_manager.rs:150-174 | an absent key gets the object unless memory is refused |
| ProcessLookups.PresentIsKept | src/process_manager.rs:150-174 | a present key is left alone, and the callback goes on with its own object |
| ProcessLookups.NoParentNoLookup | src/process_manager.rs:220-232 | a callback whose entry has no parent returns without one |
| ProcessLookups.ParentIsLookedFor | src/process_manager.rs:220-232 | with a recorded parent the look-up of that pid begins |
| ProcessLookups.StepChangesLittle | src/process_manager.rs:150-200 | in every reachable state a step clears links only to the removed process, removes only its key, and inserts only a missing one |
| ProcessSafety.StepKeepsSync | src/process_manager.rs:150-258 | every step keeps lock and guards in agreement with the program points of all threads |
| ProcessSafety.StepKeepsCache | src/process_manager.rs:150-200 | every step keeps the cache invariant |
| ProcessSafety.OwnStepOk | src/process_manager.rs:182-258 | every step establishes what its thread knows at the next program point |
| ProcessSafety.OthersOk | src/process_manager.rs:182-258 | and keeps what every other thread knows |
| ProcessRuns.CachedIsLiveOrPending | src/process_manager.rs:134-200 | in every reachable state a cached entry describes the current incarnation of its pid, which is live or has its removal ahead |
| ProcessRuns.NoRemovedParent | src/process_manager.rs:182-200 | in every reachable state no cached entry names a parent whose removal took effect since the entry was inserted |
| ProcessRuns.RemovalLeavesNoTrace | src/process_manager.rs:182-200 | when a removal drops its lock the pid is neither cached nor anyone's cached parent |
| ProcessRuns.ParentLookupIsLive | src/process_manager.rs:220-258 | the parent lookup returns only the current incarnation, live or with its removal ahead, of the pid that the system reports as the requestor's parent |
| ProcessParents.ParentIsStarterIff | src/process_manager.rs:220-258 | in any run, what the lookup returns for a process is the very process that started it iff the starter's pid was not given out again since |
| ProcessParents.StrangerIsReturned | src/process_manager.rs:220-258 | a witness: q starts p, q exits and is removed, a new q is started, and a callback of p gets the new q |
| ProcessRuns.LockDiscipline | src/process_manager.rs:153-231 | ppid guards are held by the exclusive owner only, nobody upgrades a share, a finished callback holds nothing |
| ProcessRuns.NoDeadlock | src/kernel_objects/flt_resource.rs:69-137 | in every reachable state with an unfinished callback some callback can step, without overtaking a waiting writer |
| FltUtils.WriteRightsExact | src/flt_utils.rs:67-81 | the test finds exactly the requests for one of the eight rights that let a file change, bit by bit |
| FltUtils.DispositionsExact | src/flt_utils.rs:24-56 | the dispositions by number, and what replaces open-or-create |
| FltUtils.NeverGrantsWriteIff | src/flt_utils.rs:67-81 | whatever rights the file system grants, the handle gets no write right exactly when the test passes and neither the maximum allowed access nor a generic right to write is asked for |
| FltUtils.SetDispositionExact | src/flt_utils.rs:10-56 | the disposition and the flags of the options word are independent and make it up |
| Minifilters.CreateReadOnlyMeaning | src/minifilter.rs:154-176 | a read-only rule passes exactly the requests without write rights that cannot make or empty a file, with open-or-create turned into open and flags kept |
| Minifilters.CreateReadOnlyExact | src/minifilter.rs:154-176 | the verdict in numbers, for every access mask and every options word |
| Minifilters.ReadersPass | src/minifilter.rs:154-176 | who asks only to read, execute, read the protection or wait, with "open", passes unchanged |
| Minifilters.PreCreateMeaning | src/minifilter.rs:207-255 | without names the create passes unread; else the earliest of the listed reads that finds a rule decides, and without one it passes as it came |
| Minifilters.DecisionMeaning | src/minifilter.rs:239-252 | the requestor's rule applies, deny before read-only; without one the parent's, in the same order |
| Minifilters.SteadyDecision | src/minifilter.rs:239-252 | on lists that do not change the four reads of a create come to that decision |
| Minifilters.MovedRulePasses | src/minifilter.rs:239-255 | a witness: a request passes unchanged although its file is ruled at every moment |
| Minifilters.RenameDeniedIff | src/minifilter.rs:390-426 | on lists that do not change a rename is denied iff its new name converts and its old or its new name is ruled for the requestor or its parent |
| Minifilters.PreSetInfoMeaning | src/minifilter.rs:343-431 | only a rename by a known requestor, of a file with a known name, to a name that converts, is ever denied, and exactly when one of the listed reads finds a rule |
| Minifilters.DecisionIgnoresCase | src/minifilter.rs:239-252 | the case of a file's name does not matter |
| Minifilters.CallbackData.CreateReadOnlyInPlace | src/minifilter.rs:154-176 | status, information, options and dirty mark end as the verdict says |
| Minifilters.PreCreateCallback | src/minifilter.rs:207-255 | requestor first, then parent, in up to four reads of lists that other threads may change in between; status, information, options and dirty mark as the verdict says |
| Minifilters.PreSetInfoCallback | src/minifilter.rs:343-431 | denies exactly the renames for which one of up to eight such reads finds a rule; every other class of information, and renames whose names cannot be found out or converted, leave the data as it came |
| FileSystemRuns.NeverChangesIffRuled | src/minifilter.rs:154-431 | under a fixed store a set of files never changes, whatever a set of actors does with names the filter gets to know and without wide rights on files that are not denied, iff every actor or its parent has a rule for every file of the set |
| FileSystemRuns.ProtectedFilesNeverChange | src/minifilter.rs:154-431 | when the lists change as well: in any run in which some read finds a rule for every request on a protected file, and only denied requests ask for wide rights, nobody holds a write right on a protected file, and each exists and reads as at the start |
| FileSystemRuns.ReadOnlyOpenSafeIff | src/minifilter.rs:154-176 | under a read-only rule an open leads to no write right, whatever the file system grants, iff no wide right is asked for |
| FileSystemRuns.MaximumAllowedWrites | src/minifilter.rs:154-176 | a witness: asked for with the maximum allowed access, a file under a read-only rule is written |
| FileSystemRuns.ReplacementStoppedIff | src/minifilter.rs:393-426 | a rename that would replace a file is stopped iff its new name converts and one of its names is ruled |
| FileSystemRuns.ShortNameReplaces | src/minifilter.rs:393-401 | a witness: a new name too short to name a drive replaces its target under every rule, for every requestor |
| FileSystemRuns.DeniedFilesNeverOpened | src/minifilter.rs:132-140 | files for which every create ends in a deny rule and every rename in some rule are never open, whatever rights are asked for |
| FileSystemRuns.CoveredFilesNeverChange | src/rules_manager.rs:260-277 | while some read for every request on the files that a value covers finds the value's rule, none of them changes, whatever the form of the value |
| FileSystemRuns.CoveredFolder | src/rules_manager.rs:97-115 | a value with a final separator covers the folder and its contents |
| FileSystemRuns.CoveredFile | src/rules_manager.rs:97-115 | a value whose stored form has no wildcards covers exactly that file |
| FileSystemRuns.CoveredByEnding | src/rules_manager.rs:262 | a value of the form directory, separator, star, ending covers exactly the files of that shape, at any depth |
| FileSystemRuns.ProtectedFolderNeverChanges | src/rules_manager.rs:97-115 | so a folder with such a rule never changes |
| DriverRuns.RegisteredFilesNeverChange | src/rules_manager.rs:249-306 | under any interleaving of registry changes with the list reads and effects of any number of requests, for a value of any form: the files it covers never change if every request on them comes, unless decided before, to a read whose list has the value registered, under every key that fits, at that moment |
| DriverRuns.StandingFilesNeverChange | src/rules_manager.rs:249-306 | it is enough that one registration stands from the first list read of each request on the files to its last |
| DriverRuns.RegisteredFolderNeverChanges | src/rules_manager.rs:97-115 | for a value with a final separator: the folder and its contents |
| DriverRuns.StandingFolderNeverChanges | src/rules_manager.rs:97-115 | the same under a registration that stands |
| DriverRuns.HandledInOneGo | src/minifilter.rs:207-255 | handling a request in one go on the lists of one moment is one of these runs |
| DriverRuns.StartedDriverProtects | src/driver.rs:52-80 | the same for any value from start-up, from the registry as enumerated |
| DriverRuns.StartedDriverProtectsFolder | src/driver.rs:52-80 | for a folder |
| DriverRuns.StartedDriverProtectsFile | src/driver.rs:52-80 | for a single file |

## Left out

- Utf16.SuffixTestExact: covers well-formed strings only; on others the test may panic, as Utf16.PanicsIff says exactly for the suffixes the driver uses. Elsewhere rule paths are compared by units, and a system that has panicked is not modelled.
- PathUtils.ReadLink: errors of the two link queries other than a missing link or refused memory are not modelled.
- RulesManagers.RulesManager.InitRules: memory requests during loading are taken as granted (a refusal ends start-up), and opening keys is not modelled, only what they list.
- RulesManagers.RulesManager.LoadRules: the same.
- RegistryLoad.LoadSucceedsIffPrepared: the same; a failure to open or enumerate a key is not modelled.
- RegistryLoad.LoadTracksIff: the same.
- RegistryEnumeration.EnumerateNames: system errors other than a buffer that is too small are not modelled.
- Globs.GlobConcat: the DOS wildcards of name expressions are taken as ordinary characters, and the special treatment of empty names is not modelled.
- Globs.GlobLiteral: the DOS wildcards count as ordinary characters here too.
- FileSystemRuns.ProtectedFilesNeverChange: hard links, mapped sections, directory renames above a file and handles opened before start-up are outside.
- DriverRuns.RegisteredFilesNeverChange: a registry operation and its notification are one step, so the order in which notifications arrive is that of the operations; a notification's update of a list is one step.
- DriverRuns.StartedDriverProtects: nothing changes in the registry between loading and the registration of the registry callback, although the driver loads first and registers the callback afterwards (src/driver.rs:67-80).
- ProcessProtocol: a ProcessInfo is created in one step, and a requestor does not exit before its callback returns; names are not part of this machine (they are in ProcessManagers).
- Renaming or deleting the two type keys, and creating keys, which the driver does not follow.
- Changes of drive letters during a run.
- The image name query of a process (src/process.rs), handles, object attributes and file name information: thin wrappers over system calls, given as parameters.
- Driver start and stop order, logging, error code mapping, build and installation files.
