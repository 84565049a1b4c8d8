# Verified model of TADX

TADX is a command line tool for Tableau sites. This project models the parts of it
that carry state, loops or protocols, and proves what they promise. `dafny verify
dfyconfig.toml` checks everything.

| files | what they model |
|---|---|
| `SkillDisk`, `SkillPlans`, `SkillInstall`, `SkillUninstall` | installing and removing agent skill packages: staging, backups, commits, a rollback that can itself fail, truthful partial reports, the ownership receipt |
| `SkillLocks` | any number of those runs interleaved step by step, with processes that may stop anywhere |
| `PackageFingerprint`, `TextOrder` | the fingerprint of a package tree, and sorted lists of byte strings |
| `ProjectForest`, `ProjectActions` | moving and creating projects in a hierarchy that other people change too |
| `ByteText`, `CapabilityMap`, `CapabilityPage` | splicing totals and a data snapshot into a page that must otherwise stay byte-identical |
| `SchemaPaging`, `SearchPages`, `OwnerPaging` | three pagers that must agree with the simple list |
| `DatasourceBindings`, `DatasourceRejection` | resolving data source bindings, and the remap commands that a rejected publish suggests |
| `LabelUpdate`, `WorkbookPublish` | check-then-write protocols against a remote that may answer anything at any time |
| `CacheScopes`, `CacheReceipts` | scope planning, counting and receipts of the inventory cache |
| `LineageWarnings` | bounding warnings without breaking UTF-8 |

## How it is modelled

Files follow the form of the code. Objects whose methods change their fields are
classes (the disk, the installer, the site, the remotes, the store's writer);
loops are methods with invariants. Each method is proved against a function or a
predicate, and the lemmas are about that function.

A step that can fail returns a nondeterministic answer, so a contract that covers
both answers holds for every pattern of failures. Remotes are adversaries: every
call may get any reply of the right shape. The two write protocols are state
machines (`After`, `Advance`); the methods are proved to follow them, and the
lemmas are about all runs. The pagers are proved over all walks, where the remote
may change between calls if the code allows for it.

Texts and pages are byte strings (plain strings in the project hierarchy). SHA-256 is taken to have no
collision among the contents at hand (for the package fingerprint this is a
hypothesis of the theorem that names exactly those contents), and JSON with
base64url to be an injective encoding, so a cursor is its content. Library sorts
may order equal keys as they like.

## Where the code does less than it says

Each of these is a property one would expect that fails on some inputs. The model
keeps the code as it is, and the exact condition under which it holds is proved.

* An uninstall that finds none of its packages returns "unchanged" before it looks
  at the receipt, so a registration without packages survives. It survives exactly
  in that case (`SkillUninstall.Uninstall`, `OrphanReceiptSurvives`).
* A continuation cursor of a search (no longer printed, still accepted) is checked
  once against the terms as they were typed and once against the trimmed terms. It is
  accepted exactly if it was made for these arguments, is at most 16384 bytes long
  and the terms have no white space around them (`SearchPages.CursorAcceptedIff`).
* Repeating a label update that was pinned to create its attachment is a conflict,
  and one that filled a listing of ten thousand labels can no longer be read
  (`LabelUpdate.RepeatIsUnchanged`).
* The refresh error for an incomplete inventory says that nothing was published. A
  published generation is reported that way exactly if the store's part of its receipt
  is unsound or the collector was denied something nobody requested
  (`CacheReceipts.Refresh`, `ReceiptPasses`); a store that counts more records than
  were hydrated gets there (`OverreportRefused`).
* A lineage warning is cut to an empty one exactly if it is longer than 512 bytes and
  no character starts between its second byte and the limit (`LineageWarnings.VanishesIff`,
  `LetterVanishes`); in valid UTF-8 one always does.

Three properties do not follow from the code they are about, but hold because of what
its callers let through:

* The loop of a search with a bound above one hundred does not remember the cursor it
  starts from (`SearchPages.CallsDistinctIff`). The check of the arguments refuses a
  cursor with such a bound, so no search asks for the same continuation twice
  (`LargeSearchStarts`, `CallsAskedOnce`, `Search`).
* A remap command reads back only if every source and target can be written
  (`DatasourceBindings.RemapCommand`). Commands are suggested only after a preparation
  and a lookup that refuse the sources which cannot, so every one of them works as long
  as the site's identifiers hold no equals sign (`DatasourceRejection.SuggestionWorks`,
  `RejectedPublish`).
* Refreshing a capability map twice is a fixpoint exactly if the data holds neither the
  marker nor a closing script tag (`CapabilityPage.RefreshFixpoint`). The generator's
  data is JSON with every opening bracket escaped, so it always is (`EscapedFixpoint`).

## Model

| member | source | states |
|---|---|---|
| `SkillInstall.Installer.Install` | internal/agent/install.go:212-448 | A whole install against a disk where every step may fail: success leaves both package paths holding the bundle and the receipt naming exactly it; an error that is not "partial" leaves every package path, legacy ones included, and the receipt as they were under the locks; "partial" reports truthfully; a preview changes nothing. The preview and the final report list exactly the packages that count and say of each what was found: unchanged, new, upgraded (registered by the receipt) or replaced, and for legacy packages removed exactly if the tree is the bundle's or of a known release and kept as a backup otherwise. A settled root sees no rename and "unchanged". Where no step fails, nobody interferes and the receipts can be read, it does succeed. |
| `SkillInstall.Installer.InstallTwice` | internal/agent/install.go:212-448 | Installing again after a finished install reports nothing to do, renames nothing and leaves the root settled; where no step fails both runs succeed. |
| `SkillInstall.Installer.Transact` | internal/agent/install.go:293-448 | From the moment the locks are held: all or nothing for every pattern of failures, the receipt written only on success, a report that says of each package what was found under the locks, "unchanged" exactly if every plan was idle, a refusal without a rename when a legacy removal meets a portable receipt, and success if no step fails and nothing changed since planning. |
| `SkillInstall.Installer.LockAndTransact` | internal/agent/install.go:286-303 | What an install guarantees relative to the disk found when the locks were taken. |
| `SkillInstall.Installer.PlanInstall` | internal/agent/install.go:235-271 | One plan for each package that is looked at: unchanged exactly if the tree is the bundle's, install exactly if there is none, upgrade exactly if another tree is the registered one, replace otherwise; then the legacy packages, to be removed exactly if bundled or known. |
| `SkillInstall.Installer.PlanLegacy` | internal/agent/legacy.go:41-80 | Legacy packages are planned only while the portable root registers none: absent, removable if bundled or known, divergent otherwise. |
| `SkillInstall.Installer.RemoveAbandonedStages` | internal/agent/install.go:512-540 | Cleaning up abandoned stages touches no directory but stages of this root. |
| `SkillInstall.Installer.LegacyOwnershipUnchanged` | internal/agent/legacy.go:94-107 | Passes only if no plan removes a legacy package or the portable root registers none. |
| `SkillInstall.Installer.ReceiptUnchanged` | internal/agent/receipt.go:54-60 | Passes only if the receipt is what planning read. |
| `SkillInstall.Installer.StageAll` | internal/agent/install.go:304-334 | Every plan that needs one gets a stage of its own holding exactly its files; nothing outside this root's stages changes, even when a step fails midway. |
| `SkillInstall.Installer.ValidateAll` | internal/agent/install.go:335-341 | Passes only if every destination still holds what was planned for it. |
| `SkillInstall.Installer.RemovalDestination` | internal/agent/legacy.go:152-165 | A removed package goes to a fresh place outside discovery: a backup if it was edited, a staging directory otherwise. |
| `SkillInstall.Installer.RemoveOne` | internal/agent/install.go:366-386 | One legacy removal keeps the transaction invariant whatever fails, and on success the old tree is at its backup. |
| `SkillInstall.Installer.ReplaceOne` | internal/agent/install.go:387-416 | One replacement (backup, then commit) keeps the transaction invariant whatever fails, and on success the new tree is live and the old one backed up. |
| `SkillInstall.Installer.CommitAll` | internal/agent/install.go:362-417 | The commit loop keeps the transaction invariant; when it completes every plan has landed. |
| `SkillInstall.Installer.Rollback` | internal/agent/install.go:342-361 | The reverse-order rollback, which may itself stop, keeps the transaction invariant; if it completes, every directory but this root's stages is as it was under the locks. |
| `SkillInstall.Installer.RollbackStates` | internal/agent/install.go:457-480 | When a rollback stops, the reported states are true of the disk for every visible package. |
| `SkillInstall.Installer.CleanStages` | internal/agent/install.go:304-310 | The deferred cleanup deletes only stages that this run built. |
| `SkillInstall.Installer.Finish` | internal/agent/install.go:430-447 | After the receipt only legacy packages planned for removal are deleted, divergent ones are kept, and every visible package gets a true line. |
| `SkillInstall.Installer.CleanupRemoval` | internal/agent/legacy.go:167-177 | Deletes at most the staged tree of this plan, and changes nothing of the plans except to name where that tree was kept. |
| `SkillInstall.Installer.Digests` | internal/agent/install.go:418-423 | The receipt to be written names each installed package with its bundle and nothing else. |
| `SkillInstall.Installer.PublishReceipt` | internal/agent/receipt.go:62-93 | The receipt changes to the new one if and only if the write succeeds. |
| `SkillDisk.Disk.WriteReceipt` | internal/agent/receipt.go:62-93 | Staging and the atomic commit: the receipt is replaced whole on success and stands untouched on every failure. |
| `SkillPlans.StepFollows` | internal/agent/install.go:362-417 | The transaction invariant survives any single change of one plan that touches only directories it owns before or after. |
| `SkillPlans.UntouchedRestores` | internal/agent/install.go:342-361 | Plans without a commit or a backup left mean that every directory but this root's stages is as it was. |
| `SkillPlans.NothingLost` | internal/agent/install.go:342-426 | At every point of a transaction each earlier tree still exists at its path, at a backup or at a staging path. |
| `SkillPlans.RollbackStateTruthful` | internal/agent/install.go:460-480 | Each line of an install rollback report is true of the disk: installed and replaced mean live, backed-up means empty with the old tree at the named backup, unchanged and absent mean as before. |
| `SkillPlans.UninstallRollbackStateTruthful` | internal/agent/install.go:482-503 | Each line of an uninstall rollback report is true of the disk. |
| `SkillInstall.FinalKept` | internal/agent/install.go:430-442 | After a finished install every earlier tree still exists, unless it was an unedited legacy package. |
| `SkillInstall.CompleteReport` | internal/agent/install.go:427-447 | A finished install: bundles live, legacy paths empty, a true report, nothing edited lost, bystanders untouched. |
| `SkillInstall.InstallTells` | internal/agent/install.go:430-447 | The final report lists the target's packages and the legacy ones that were there; each line says what was made of the tree found under the locks. |
| `SkillPlans.InstallPlansMean` | internal/agent/install.go:235-271 | The plans of an install tell absent, bundled, registered and other trees apart, without reference to how they are computed. |
| `SkillPlans.UninstallPlansMean` | internal/agent/install.go:77-110 | The plans of an uninstall remove exactly the trees that are the bundle's, the receipt's own or, for legacy packages, of a known release, and keep all others. |
| `SkillPlans.PreviewedInstall` | internal/agent/install.go:272-281 | What the preview of an install shows of each package. |
| `SkillPlans.PreviewedRemovals` | internal/agent/install.go:111-119 | What the preview of an uninstall shows of each package. |
| `SkillPlans.VisibleListed` | internal/agent/install.go:111-119 | A report lists the target's two packages and, for Codex with an unregistered portable root, the packages that are in it. |
| `SkillInstall.SettledIdle` | internal/agent/install.go:282-285 | A root is settled exactly if every plan of an install is idle. |
| `SkillInstall.CompleteSettles` | internal/agent/install.go:282-285 | A finished install leaves the root settled. |
| `SkillUninstall.Uninstall` | internal/agent/install.go:57-208 | A whole uninstall: all or nothing under step failures; a full success empties every planned path and clears an existing receipt. A package that is present is reported removed exactly if its tree is the bundle's, the one registered when the uninstall was planned or, in the portable root, of a known release; it is kept as a backup exactly if it is none of these; the preview says the same of what it sees. The receipt stays registered after success exactly if it was registered and no planned package was present. Where no step fails, nobody interferes and the receipts can be read, it does succeed. |
| `SkillUninstall.TransactRemoval` | internal/agent/install.go:137-208 | The uninstall transaction under the locks, with the same all-or-nothing statement as an install, a report judged by the trees found under the locks, and success if no step fails and nothing changed since planning. |
| `SkillUninstall.PlanUninstall` | internal/agent/install.go:77-110 | One plan for each package that is looked at: absent exactly if there is none, remove exactly if the tree is the bundle's, registered or (legacy) known, divergent otherwise. |
| `SkillUninstall.RestoreAll` | internal/agent/install.go:150-161 | The uninstall rollback keeps the transaction invariant and, if it completes, restores every path. |
| `SkillUninstall.RestoreStates` | internal/agent/install.go:482-503 | A stopped uninstall rollback reports truthfully. |
| `SkillUninstall.FinishRemovals` | internal/agent/install.go:187-205 | After the receipt phase only packages planned for removal are deleted; divergent ones are kept as backups, and each visible package gets its final line. |
| `SkillUninstall.CompleteRemoval` | internal/agent/install.go:182-207 | A finished uninstall: planned paths empty, a true report, no edited tree lost, bystanders untouched. |
| `SkillUninstall.UninstallTells` | internal/agent/install.go:187-205 | The final report of an uninstall says of each package whether the tree found under the locks was deleted or kept, and it was deleted exactly if it was the bundle's, registered or known. |
| `SkillUninstall.BeforeLocks` | internal/agent/install.go:77-131 | The answers that need no lock: a preview, nothing to do exactly if no planned package is present, or a failed read. |
| `SkillUninstall.OrphanReceiptSurvives` | internal/agent/install.go:120-131 | A concrete disk where both packages are gone but the receipt registers one: the uninstall has nothing to do and the registration stays. |
| `SkillUninstall.NothingPlanned` | internal/agent/install.go:120-131 | The early return is taken exactly if no package the uninstall would remove is present. |
| `SkillLocks.EveryScheduleSafe` | internal/agent/legacy.go:110-149 | Under every interleaving of any number of installs and uninstalls, with processes stopping anywhere: a package of a root is moved only by the holder of its lock while no other run operates there, stage cleanup never deletes a live run's stage, and a Codex run never moves a package out of the portable root while that root registers one. |
| `SkillLocks.StepInv` | internal/agent/install.go:286-310 | Every step of every run keeps the locking invariant. |
| `SkillLocks.RunInv` | internal/agent/install.go:286-310 | The locking invariant holds after every schedule. |
| `SkillLocks.InvSafe` | internal/agent/legacy.go:94-107 | Under the invariant every enabled step is safe. |
| `SkillLocks.CleanupAlone` | internal/agent/install.go:508-540 | A stage listed for cleanup belongs to no other live run. |
| `SkillLocks.OperatesHolds` | internal/agent/legacy.go:113-149 | A run that may move packages of a root holds the root's lock. |
| `SkillLocks.AcquireInv` | internal/agent/legacy.go:130-147 | Taking a lock, or giving up and releasing those already held, keeps the invariant. |
| `SkillLocks.LookInv` | internal/agent/legacy.go:130-135 | Skipping a root that does not exist keeps the invariant: nothing planned lies in it. |
| `SkillLocks.StopFreesLocks` | internal/agent/legacy.go:136-137 | A run that stops anywhere leaves no lock behind. |
| `SkillLocks.AloneInstallMoves` | internal/agent/legacy.go:110-149 | From every state without runs there is a schedule in which an install takes its locks, for Codex that of the portable root too if there is one, and gets to move packages. |
| `PackageFingerprint.FingerprintIdentifies` | internal/agent/install.go:599-607 | Two trees without NUL in a name have the same fingerprint exactly if they are the same tree, whatever order the files are visited in, given a hash without collisions among the contents and texts at hand. |
| `PackageFingerprint.JoinInjective` | internal/agent/install.go:599-607 | The newline-joined records parse back uniquely, even when names contain newlines. |
| `PackageFingerprint.CanonicalUnique` | internal/agent/install.go:604-605 | The sorted record list does not depend on the visiting order. |
| `PackageFingerprint.BundleFingerprint` | internal/agent/install.go:599-607 | The computed fingerprint is the hash of the one sorted record list of the tree. |
| `TextOrder.SortedUnique` | internal/agent/install.go:605 | Sorting has one answer: sorted lists with the same members are equal. |
| `ProjectForest.MoveKeepsForest` | actions/project/move.go:114-141 | Moving a project keeps the hierarchy a forest exactly if the new parent is the top level or an existing project outside the moved subtree. |
| `ProjectForest.MoveKeepsSlots` | actions/project/move.go:142-153 | Moving a project keeps folded sibling names unique exactly if its name is free under the new parent. |
| `ProjectForest.CreateKeepsForest` | actions/project/create.go:79-93 | Creating a project at top level or under an existing parent keeps the hierarchy a forest. |
| `ProjectForest.CreateKeepsSlots` | actions/project/create.go:127-136 | Creating a project keeps folded sibling names unique exactly if its name is free there. |
| `ProjectForest.OrphanNotForest` | actions/project/create.go:113-125 | A project under a missing parent leaves the hierarchy no forest. |
| `ProjectForest.WriteKeepsSite` | actions/project/move.go:66-94 | A move or create keeps the site well formed exactly if its guard held just before it. |
| `ProjectForest.RunKeepsSite` | actions/project/move.go:66-94 | Every run of allowed creates and moves keeps the hierarchy a forest with unique sibling names. |
| `ProjectForest.AncestorDepth` | actions/project/move.go:121-141 | An ancestor k steps up is k steps closer to the top level. |
| `ProjectForest.RepeatNeverRoots` | actions/project/move.go:126-128 | A chain that repeats an identity never reaches the top level. |
| `ProjectForest.MissingNeverRoots` | actions/project/move.go:133-139 | A chain with a missing parent never reaches the top level. |
| `ProjectActions.CheckAncestry` | actions/project/move.go:121-141 | The ancestry walk ends on every observed parent map, cyclic ones included; it accepts only a complete chain that leaves out the source, each rejection is true of the site, and it is "unavailable" exactly if a read failed. |
| `ProjectActions.ValidateMove` | actions/project/move.go:114-155 | Validation accepts exactly what the guard of a move demands, except when a read fails, and names the true reason when it refuses. |
| `ProjectActions.PlanMove` | actions/project/move.go:43-65 | Planning gives the selected project and parent, and refuses a move only for what it would do to the site. |
| `ProjectActions.RevalidateMove` | actions/project/move.go:66-94 | Revalidation passes only the same project, unchanged, with the same parent and a move that is still allowed. |
| `ProjectActions.Move` | actions/project/move.go:43-94 | A move action keeps the site well formed even when others write between its phases; a preview or a no-op writes nothing; a success moved exactly the project that the caller's selector names, before planning and at revalidation, to exactly the parent that the other selector named, with the guard true right before the write; a failed write did that or nothing. Every refusal has its reason: a read that failed, the top level as source, or a cycle, broken ancestry, collision or change that was there when it was planned or revalidated. |
| `ProjectActions.Create` | actions/project/create.go:53-111 | A create action keeps the site well formed; a preview writes nothing; a success added exactly one project of that name under the parent that the selector names at planning and at revalidation, and a failed write did that or nothing. It is refused only if a read failed, the name was taken under that parent, or the selector names another parent than it did. |
| `ProjectActions.ResolveParent` | actions/project/create.go:113-125 | The parent is absent exactly for the top level, and otherwise the project of the site that the selector names. |
| `CapabilityMap.ReplaceCounts` | cmd/gencapdocs/main.go:121-139 | The loop computes the rewrite that the lemmas below are about. |
| `CapabilityMap.ReplaceOneSets` | cmd/gencapdocs/main.go:126-136 | One step succeeds exactly if the slot occurs once and holds digits, and then sets that slot. |
| `CapabilityMap.ReplacedIffFillable` | cmd/gencapdocs/main.go:123-139 | For distinct, clean names the whole rewrite succeeds exactly if every named slot of the head was fillable to begin with. |
| `CapabilityMap.ReplacedSetsSlot` | cmd/gencapdocs/main.go:123-139 | On success every named slot reads its value: no later splice disturbs an earlier slot. |
| `CapabilityMap.ReplacedKeepsRest` | cmd/gencapdocs/main.go:123-139 | On success no byte outside the named slots differs: the pages are equal once the slots are emptied. |
| `CapabilityMap.ReplacedKeepsOthers` | cmd/gencapdocs/main.go:123-139 | Slots that are not named keep reading what they read, and none appears or disappears. |
| `CapabilityMap.PageDetermined` | cmd/gencapdocs/main.go:123-139 | A page is determined by its named slots and by what is left when they are emptied. |
| `CapabilityMap.OrderIrrelevant` | cmd/gencapdocs/main.go:123-139 | The order of the totals makes no difference, neither to success nor to the page. |
| `CapabilityMap.SetKeepsOther` | cmd/gencapdocs/main.go:126-136 | Setting one slot leaves every other slot in place, reading what it read. |
| `CapabilityMap.SetsCommute` | cmd/gencapdocs/main.go:126-136 | Two slots can be set in either order. |
| `CapabilityMap.SlotsApart` | cmd/gencapdocs/main.go:126-131 | The numbers of two differently named slots do not touch. |
| `CapabilityMap.SpliceKeepsOnce` | cmd/gencapdocs/main.go:126-136 | Splicing a number over a number neither makes nor breaks a tag; it only moves it. |
| `CapabilityMap.DecimalReadsBack` | cmd/gencapdocs/main.go:135 | A formatted total reads back as its value. |
| `ByteText.CountOnce` | cmd/gencapdocs/main.go:102-105 | A count of one means that the pattern occurs exactly once, where the search finds it. |
| `CapabilityPage.CommandTotals` | cmd/gencapdocs/main.go:67-92 | The counting loop gives the tallies of CLI-owned definitions. |
| `CapabilityPage.CommandCounts` | cmd/gencapdocs/main.go:87-91 | Each of the seven slots is given the number of CLI-owned definitions of its own kind. |
| `CapabilityPage.CountsMean` | cmd/gencapdocs/main.go:67-92 | The same of the tallies: the total three times, then implemented, planned, blocked and remotely mutating commands, each counted as a set. |
| `CapabilityPage.NamesCleanDistinct` | cmd/gencapdocs/main.go:87-91 | The seven slot names are distinct and cannot break out of an opening tag. |
| `CapabilityPage.PageMarksSound` | cmd/gencapdocs/main.go:101-106 | The marker and the closing tag cannot overlap themselves, start inside a number or span a line break. |
| `CapabilityPage.UpdateMap` | cmd/gencapdocs/main.go:96-119 | The steps compute the refreshed page that the lemmas below are about. |
| `CapabilityPage.RefreshedIff` | cmd/gencapdocs/main.go:96-119 | A refresh keeps every byte of the page but the slots before the only marker and the data between it and the first closing tag after it; it is refused exactly if there is no such data or a slot cannot be filled. |
| `CapabilityPage.IslandIff` | cmd/gencapdocs/main.go:101-109 | The data is found exactly between the only marker and the first closing tag after it; which of the two errors is given says what is missing. |
| `CapabilityPage.RefreshFixpoint` | cmd/gencapdocs/main.go:94-119 | Refreshing a refreshed page again changes nothing exactly if no total is negative and the trimmed data holds neither the marker nor the closing tag. |
| `CapabilityPage.GeneratorFixpoint` | cmd/gencapdocs/main.go:96-119 | For the generator's own marker, names and totals only the data matters. |
| `CapabilityPage.EscapedFixpoint` | internal/capability/json.go:7-16 | Data without an opening bracket, as the generator's JSON always is, makes the refresh a fixpoint. |
| `CapabilityPage.ReplacedKeepsHead` | cmd/gencapdocs/main.go:105-110 | Rewriting totals leaves the marker at the end of the head, and the only one there. |
| `CapabilityPage.MarkerFoundAgain` | cmd/gencapdocs/main.go:102-105 | Reading a refreshed page finds the same head unless the data holds a marker. |
| `CapabilityPage.CloseFoundAgain` | cmd/gencapdocs/main.go:106-109 | The closing tag found again is the one after the data exactly if the data holds none. |
| `SchemaPaging.Schema` | actions/workbook/schema.go:121-261 | The whole call: refusals in the code's order, then the window of some sorting, with any order of equal keys, of exactly the fields that are asked for: every field of a datasource that the request names, as often as it is listed, if the filter and the identifiers let it through, and no other. |
| `SchemaPaging.Select` | actions/workbook/schema.go:139-175 | The nested loops select every field that is asked for exactly as often as its datasource lists it, and no other; they count the matching datasources and the hits per field identifier, and say whether the matching datasources are complete. |
| `SchemaPaging.Check` | actions/workbook/schema.go:90-183 | The checks before sorting refuse exactly for an invalid input, an incomplete identity, an ambiguous or missing datasource, or an ambiguous or missing field. |
| `SchemaPaging.SelectedExactly` | actions/workbook/schema.go:148-175 | How often a field is selected, in terms of the request and the observed schema alone. |
| `SchemaPaging.RefusedIff` | actions/workbook/schema.go:90-183 | A call is refused before sorting exactly if its input is invalid, the workbook is another one or not grouped, the named datasource is not exactly one (or none in an incomplete inventory), or an asked identifier does not select exactly one field (or none in an incomplete inventory); each refusal names its reason. |
| `SchemaPaging.WindowRefusedIff` | actions/workbook/schema.go:196-227 | A cursor is refused exactly if it is tied to another request, other datasources or another selection, or starts beyond the end; all fields at once exactly if there are more than ten thousand. |
| `SchemaPaging.PageSize` | actions/workbook/schema.go:217-234 | A page starts where its cursor says and shows as many fields as were asked for, or are left; it returns a cursor exactly if some are left, tied to what was seen. |
| `SchemaPaging.Respond` | actions/workbook/schema.go:196-260 | The cursor check, the window, the next cursor and the partial marking. |
| `SchemaPaging.WalkTiles` | actions/workbook/schema.go:206-245 | Following cursors with any limits over a schema that may change between calls, the accepted windows tile one sorted selection once, in order; they are the whole of it exactly when no cursor is left, and then they hold every field that was asked for as often as the first call saw it, and never any more often. |
| `SchemaPaging.WalkSame` | actions/workbook/schema.go:196-216 | Every accepted step of a walk saw the same datasources and the same sorted selection. |
| `SchemaPaging.WalkEnds` | actions/workbook/schema.go:228-234 | Every step makes progress: a walk has no more steps than there are fields. |
| `SchemaPaging.QuietFollowAccepted` | actions/workbook/schema.go:206-216 | While the remote shows the same, a returned cursor is accepted with any limit. |
| `SchemaPaging.PageShowsWindow` | actions/workbook/schema.go:235-245 | Flattening a page's groups gives back its window, and with distinct metadata identifiers no datasource has two groups on a page. |
| `SchemaPaging.AnswerComplete` | actions/workbook/schema.go:141-145 | An answer without an error comes from a complete inventory if selectors were used; a complete one saw every matching datasource completely. |
| `SchemaPaging.RegroupOnce` | actions/workbook/schema.go:184-245 | Regrouping a sorted window splits no datasource when metadata identifiers are distinct. |
| `SchemaPaging.FlattenRegroup` | actions/workbook/schema.go:235-245 | Regrouping loses, adds and reorders nothing. |
| `SchemaPaging.GroupWindow` | actions/workbook/schema.go:235-245 | The regrouping loop computes the regrouping that the lemmas are about. |
| `SchemaPaging.SortEntries` | actions/workbook/schema.go:184-195 | A sorted rearrangement of the selection by metadata identifier, table, caption and field identifier. |
| `SchemaPaging.KeyMeans` | actions/workbook/schema.go:184-195 | The order spelled out: metadata identifier, then table, caption and field identifier. |
| `SearchPages.SearchMany` | actions/search/action.go:136-200 | Over an arbitrary source: at most one hundred calls, each the one the pages so far determine, every result or error explained by the pages received, and cancelled only if the caller gave up. |
| `SearchPages.SearchOnce` | actions/search/action.go:137-143 | A small bound makes one call and refuses a blank or repeated continuation. |
| `SearchPages.DoneItems` | actions/search/action.go:181-196 | The items are exactly the first min(limit, total) of the chain; "no more" is said exactly if they are the whole chain and every page said so. |
| `SearchPages.BudgetPositive` | actions/search/action.go:152 | Every call asks for at least one item and at most a page. |
| `SearchPages.CallsDistinctIff` | actions/search/action.go:144-199 | Of the paging loop alone, whatever cursor it is started with: its cursors are distinct for every source exactly if it starts without one. |
| `SearchPages.CallsDistinctUnlessReturned` | actions/search/action.go:160-162 | Of the paging loop alone: calls carry distinct cursors unless the source hands the starting cursor back. |
| `SearchPages.CursorReturned` | actions/search/action.go:147-162 | Of the paging loop alone: it does not rule out that a source hands back a starting cursor; the arguments that would start it with one are refused before. |
| `SearchPages.LargeSearchStarts` | actions/search/validation.go:9-20 | Arguments that are accepted with a bound above one hundred carry no cursor, so the loop starts without one and all its cursors are distinct, whatever the source does. |
| `SearchPages.CallsAskedOnce` | actions/search/action.go:144-200 | A paged search that starts without a cursor asks for no continuation twice in all its calls, however it ends, and makes at most one hundred. |
| `SearchPages.LargeSearchEnds` | actions/search/action.go:181-196 | A search above one hundred items hands out no cursor, so none that is handed out is refused for its bound. |
| `SearchPages.NextsDistinct` | actions/search/action.go:160-162 | No continuation of a running search is blank or repeats. |
| `SearchPages.GenerationShared` | actions/search/action.go:163-175 | A generation is reported exactly if every page shares it, and it is stale exactly if some page is. |
| `SearchPages.SourceNamed` | actions/search/action.go:163-178 | The source is the first page's unless a later page names another, then it is mixed. |
| `SearchPages.TakePage` | actions/search/action.go:157-196 | One page is refused, completes the search or lets it go on, as the checks demand. |
| `SearchPages.CursorRoundTrip` | actions/search/action.go:209-245 | A cursor handed out is read back exactly if the query is the same, the source's cursor is not empty and the encoding is not oversized; nothing else is ever read. |
| `SearchPages.CursorAcceptedIff` | actions/search/validation.go:22-31 | A cursor gets through the ownership check and the search's own check exactly if it was made for these arguments, is not oversized, and the terms have no white space around them. |
| `SearchPages.PresentedContinues` | actions/search/action.go:94-101 | The cursor shown with a page leads the same query to the source's continuation, and a page that shows one says that there is more. |
| `SearchPages.CheckItems` | actions/search/action.go:86-93 | Accepts exactly lists of allowed, identified, named and distinct items. |
| `SearchPages.Execute` | actions/search/action.go:55-116 | Every call asks for what follows the pages before it, and the answer is what these pages say: the first items of their concatenation, as many as were asked for (all of the reply's own with a small bound), their number, whether more is missing, the cursor, source, generation and warnings; every error is explained by the calls as well. A bad cursor makes no call; without a cursor or with a small bound no continuation is asked for twice. |
| `SearchPages.Search` | internal/app/search.go:48-108 | The command: invalid arguments, foreign cursors and kinds that the place does not have make no call, each with its own error; every accepted search asks for each continuation at most once, in at most one hundred calls, and is answered as by the pages that those calls brought. |
| `SearchPages.AccountedMeans` | internal/app/search.go:48-108 | What a search shows are at most as many items as were asked for, of the selected types, none twice, and no cursor above one hundred. |
| `SearchPages.AfterMeans` | actions/search/action.go:144-199 | A paged search goes on, ends or stops exactly by the sizes and continuations of its pages. |
| `SearchPages.LargeShows` | actions/search/action.go:157-196 | What a paged search shows, in terms of its pages alone. |
| `SearchPages.WithoutKeeps` | actions/search/action.go:183-192 | Leaving one warning out keeps exactly the others, in their order. |
| `DatasourceBindings.MatchDatasourceBindings` | actions/workbook/publish_datasources.go:21-49 | The loops compute the resolution that the lemmas below are about. |
| `DatasourceBindings.ResolveMeaning` | actions/workbook/publish_datasources.go:24-40 | A source resolves to itself if it is a content URL of the workbook, and otherwise to the only content URL its caption stands for. |
| `DatasourceBindings.ResolveErrors` | actions/workbook/publish_datasources.go:24-40 | A source names nothing exactly if it is neither a content URL nor a caption, and is ambiguous exactly if its caption stands for two content URLs. |
| `DatasourceBindings.MatchedIff` | actions/workbook/publish_datasources.go:21-49 | A list resolves exactly if every binding resolves and no content URL gets two targets, and the result says of each content URL what the bindings say. |
| `DatasourceBindings.MatchedErrors` | actions/workbook/publish_datasources.go:21-49 | A list is refused for its first binding that does not fit, with the error of its source or a conflict of targets. |
| `DatasourceBindings.MatchedCanonical` | actions/workbook/publish_datasources.go:17-49 | Resolved lists have distinct sources drawn from the workbook's content URLs. |
| `DatasourceBindings.CanonicalFixed` | actions/workbook/publish_datasources.go:17-49 | Resolving a resolved list gives it back. |
| `DatasourceBindings.UnmappedDatasourceReferences` | actions/workbook/publish_datasources.go:98-110 | The loop gives the first reference to each content URL that no binding covers. |
| `DatasourceBindings.UnmappedPartition` | actions/workbook/publish_datasources.go:98-110 | A content URL is listed as unmapped at most once, and exactly if the workbook refers to it and no binding covers it. |
| `DatasourceBindings.UnmappedInOrder` | actions/workbook/publish_datasources.go:98-110 | The references listed are exactly the first ones to each uncovered content URL, in the workbook's order. |
| `DatasourceBindings.BoundAndUnmapped` | actions/workbook/publish_datasources.go:98-110 | Bound and unmapped content URLs partition the workbook's distinct content URLs, also by number. |
| `DatasourceBindings.RemapAddsOne` | actions/workbook/publish_datasources.go:112-123 | The old list with one unmapped URL bound resolves to itself and leaves exactly that URL no longer unmapped. |
| `DatasourceBindings.RemappingEnds` | actions/workbook/publish_datasources.go:112-123 | Remapping again and again, with any targets in any order, ends with nothing unmapped after as many runs as there were unmapped URLs. |
| `DatasourceBindings.ArgumentRoundTrip` | internal/cli/content/command.go:287-300 | A binding written as an argument is read back exactly if neither part is empty and the target holds no equals sign; captions may hold any number of them. |
| `DatasourceBindings.ParseIff` | internal/cli/content/command.go:287-300 | The parser accepts exactly the arguments that can be written, and reads them back. |
| `DatasourceBindings.ArgumentsRoundTrip` | internal/cli/content/command.go:287-300 | The same for a whole list of arguments. |
| `DatasourceBindings.RemapCommand` | actions/workbook/publish_datasources.go:112-123 | The remap command, parsed and resolved again, gives the planned bindings and the added one exactly if every one of them can be written. |
| `DatasourceBindings.ReadDatasourceBindings` | actions/workbook/publish_datasources.go:66-96 | Succeeds exactly if every target reads with a content URL; then the rewrite covers exactly the bound sources and each reference is shown as bound exactly if it is rewritten, with the target read for it. |
| `DatasourceRejection.ListExact` | internal/tableau/datasource/client.go:380-403 | A value that is empty after trimming, or holds a comma, refuses the lookup before anything is sent; otherwise exactly the trimmed values are sent once. |
| `DatasourceRejection.SortedDistinct` | internal/resources/datasource/adapter.go:229 | The values of a lookup are sorted, each once, and none is lost. |
| `DatasourceRejection.FindExact` | internal/resources/datasource/adapter.go:223-257 | A lookup asks in batches of at most twenty-five for these values and nothing else; it succeeds exactly if every value can be sent and every reply is a whole list with complete identities that agrees with the others, and then it gives exactly the data sources that the replies listed, each once. |
| `DatasourceRejection.Choose` | actions/workbook/publish_datasources.go:195-210 | The candidates shown are the first five, by content URL and identifier, of all those with the reference's name, and the others are counted. |
| `DatasourceRejection.Explain` | actions/workbook/publish_datasources.go:144-181 | Nothing is looked up unless the rejection has that code and a reference is unmapped. Otherwise exactly the unmapped references whose content URL no reply listed are reported, in order, each with the candidates that a lookup of exactly the searchable names brought, or why there are none; a rejection is left unchecked exactly if the first lookup was not answered. |
| `DatasourceRejection.LackingInOrder` | actions/workbook/publish_datasources.go:156-166 | The missing references are those of the unmapped ones whose content URL was not found, each once, in their order. |
| `DatasourceRejection.MatchingCounts` | actions/workbook/publish_datasources.go:195-201 | A candidate matches exactly if the caption is not empty and the names fold alike, as often as it was found. |
| `DatasourceRejection.ParsedWritable` | internal/cli/content/command.go:287-300 | Every binding the parser accepts can be written as an argument again. |
| `DatasourceRejection.TargetsGiven` | actions/workbook/publish_datasources.go:21-49 | Resolved bindings have only targets that were given, so they can be written too. |
| `DatasourceRejection.SuggestionWorks` | actions/workbook/publish_datasources.go:112-123 | A suggested command parses, resolves to the planned bindings plus one and leaves one content URL less unmapped, exactly if the suggested identifier holds no equals sign. |
| `DatasourceRejection.RejectedPublish` | actions/workbook/publish_datasources.go:144-223 | From the arguments to the suggestions: a publish ends at its arguments, its bindings, its targets or its preparation exactly if that is where it fails; one that is rejected suggests, for each missing reference, at most five commands that its lookups brought, and each of them works exactly if its identifier holds no equals sign. |
| `LabelUpdate.Update` | actions/contentlabel/update.go:105-221 | Against a remote that may answer anything, the calls of the update explain its outcome: "submission, unknown" exactly if the last call is a write that failed without acknowledgement; "verification, confirmed" exactly if a write was acknowledged or returned a label, and that label or the one read back is not the one written or could not be read; "updated" exactly if both are. A label is written at most once, where the first read found it, after a second read found the same, and only if the definitions of its value and of the value it gives up were read, have those names and are not managed by the system. |
| `LabelUpdate.RunTells` | actions/contentlabel/update.go:105-221 | The same of every run of the protocol, for every outcome by its last calls. |
| `LabelUpdate.RunVetsWrites` | actions/contentlabel/update.go:125-199 | In every run a write follows two reads that agree and readable, public definitions of the new and the old value, and goes to the attachment or target that was read. |
| `LabelUpdate.RunKeepsShape` | actions/contentlabel/update.go:105-221 | Every run writes at most once, never in a preview, and only after two baseline reads that agree; not-attempted outcomes mean no write; "updated" means that the label read back has the planned state and identity. |
| `LabelUpdate.StepKeepsShape` | actions/contentlabel/update.go:105-221 | Every single reply keeps that shape. |
| `LabelUpdate.UpdatedAsAsked` | actions/contentlabel/update.go:134-164 | An updated label has every property asked for and keeps the others of the baseline, or the defaults of a new label. |
| `LabelUpdate.PinnedWrite` | actions/contentlabel/update.go:114-124 | A pinned update writes only to the pinned attachment, or creates one only if it was pinned absent. |
| `LabelUpdate.RepeatIsUnchanged` | actions/contentlabel/update.go:105-221 | Repeating a successful update on a quiet remote, by identifier or by value, reports exactly the label read back as unchanged and writes nothing, unless the first was pinned absent or the listing would be too long. |
| `LabelUpdate.RepeatBaseline` | actions/contentlabel/update.go:222-256 | The baseline of the repeated update is the label that was read back. |
| `LabelUpdate.RepeatPlan` | actions/contentlabel/update.go:125-169 | Asking again for what a label already is plans no change. |
| `LabelUpdate.UpdateBaseline` | actions/contentlabel/update.go:222-256 | A baseline is the identified attachment, or the only one of that value among attachments of the target, or none. |
| `LabelUpdate.BaselineIff` | actions/contentlabel/update.go:222-256 | Exactly when a reply establishes an attachment, or that there is none: by identity, supported kind and target, or as the only label of the value in a listing of the target. |
| `LabelUpdate.PinnedPreview` | actions/contentlabel/update.go:26-48 | A preview can be pinned; the pinned input asks for the same state and its pin holds while the remote shows the same label. |
| `WorkbookPublish.Execute` | actions/workbook/publish.go:260-281 | Against a site that may change between any two calls, the calls of a publication explain its outcome. After a commit it is a failed one exactly if the reply failed, with the effect that the reply gives; otherwise submitted, confirmed or misplaced exactly by whether it succeeded and where it went. The plan carries the artifact that was read, the project that the caller's selector resolved to, what the lookup of its name found, and the content URLs that the targets of its bindings answered; each refusal is explained by the last call. |
| `WorkbookPublish.RunKeepsShape` | actions/workbook/publish.go:60-295 | Every run commits at most once and never in a preview; only a plan that names its project and its workbook is carried out; an overwrite is committed only right after a lookup that is empty as planned or exactly the planned workbook; a plan that does not overwrite has no existing workbook; a pinned input plans only the pinned destination; "confirmed" means the requested name and project. |
| `WorkbookPublish.RunTells` | actions/workbook/publish.go:60-295 | The same of every run of the protocol. |
| `WorkbookPublish.RunKeepsOrigin` | actions/workbook/publish.go:60-165 | Whatever a plan of any run carries was answered by the calls before: artifact, project, existing workbook and the rewrite of every binding, and nothing else. |
| `WorkbookPublish.Locate` | actions/workbook/publish.go:60-148 | The first reads of a plan, refused in the code's order. |
| `WorkbookPublish.ReadTargets` | actions/workbook/publish_datasources.go:68-88 | Each binding's target is read in turn; an unreadable one or one without content URL refuses. |
| `WorkbookPublish.VerifyOverwriteTarget` | actions/workbook/publish.go:243-258 | Passes exactly if nothing is there and nothing was expected, or exactly the planned workbook is there. |
| `WorkbookPublish.VerifyAndPrepare` | actions/workbook/publish.go:179-199 | A plan without project or name is refused; then verification of an overwrite, then preparation. |
| `WorkbookPublish.VerifyAndCommit` | actions/workbook/publish.go:200-241 | Verification of an overwrite again, then the commit; the outcome is told by the reply to the commit: failed with its effect, submitted, confirmed, or misplaced. |
| `WorkbookPublish.PinnedDestination` | actions/workbook/publish_preparation.go:12-33 | A pinned input fails or yields the pinned destination, over every history. |
| `WorkbookPublish.PreviewIn` | actions/workbook/publish.go:60-170 | A preview of a site that does not change is determined by that site. |
| `WorkbookPublish.PinnedReplan` | actions/workbook/publish_preparation.go:12-33 | While nothing changes, planning a pinned input gives the same plan again, provided the project has an identifier and is found by it. |
| `CacheScopes.NormalizeScopes` | actions/cache/refresh.go:229-258 | Succeeds exactly on supported scopes without repetition, and gives the requested and implicit lists that the lemmas below are about. |
| `CacheScopes.NormalIsLeastClosure` | actions/cache/refresh.go:229-268 | The two lists are in canonical order and disjoint, and their union is the least superset of the request that is closed under dependencies. |
| `CacheScopes.NormalUnordered` | actions/cache/refresh.go:229-258 | The order of the values changes neither success nor the lists. |
| `CacheScopes.OrderedUnique` | actions/cache/refresh.go:260-268 | There is one canonical listing of a set of scopes. |
| `CacheScopes.PlanScopes` | internal/tableau/cache/engine.go:499-537 | The collector's depth-first walk plans the closure of the request in canonical order, whatever order its maps are visited in. |
| `CacheScopes.Add` | internal/tableau/cache/engine.go:515-524 | The walk adds exactly what a scope reaches over direct dependencies. |
| `CacheScopes.ReachIsNeeds` | internal/tableau/cache/engine.go:539-550 | The action's flat dependency table lists exactly what the collector's direct dependencies reach. |
| `CacheScopes.PlansAgree` | internal/app/cache_group2.go:41-51 | Action and collector never plan differently, and permissions are collected only if they were requested. |
| `CacheReceipts.CacheScopeCounts` | internal/app/cache_group2.go:130-142 | Succeeds exactly if no count is negative and the true total fits a machine word; then the total is that sum and never overflowed. |
| `CacheReceipts.SumParts` | internal/app/cache_group2.go:130-142 | The total counts every line once. |
| `CacheReceipts.Hydrate` | internal/app/cache_group2.go:40-112 | The generation is published exactly if a receipt is returned; each refusal has its exact condition (plans that differ, no or another collection, a step of the store that failed, numbers that are negative or too large). Exactly the readable scopes are marked complete, and the receipt holds a line with the collected number for every planned scope, and the store's own identifier, path and records. |
| `CacheReceipts.ValidateResult` | actions/cache/refresh.go:270-315 | Accepts exactly receipts that are complete with nothing denied, or partial because requested permissions were denied, with sound provenance, counts and total. |
| `CacheReceipts.ValidateCounts` | actions/cache/refresh.go:298-313 | Counts must name selected scopes in strictly canonical order; the machine-word sum is computed. |
| `CacheReceipts.RelativePathIff` | actions/cache/refresh.go:317-321 | A store path is accepted exactly if it is not blank, starts at no root, has no backslash, and none of its elements before the last leads upwards. |
| `CacheReceipts.ReceiptPasses` | actions/cache/refresh.go:270-315 | A hydrator's receipt passes validation exactly if the store's part of it is sound and nothing was denied but requested permissions; a collector that denies permissions only where it collects them denies nothing else. |
| `CacheReceipts.OverreportRefused` | actions/cache/refresh.go:287-289 | A concrete full refresh whose store counts more records than were hydrated: what the hydrator returns for it is refused. |
| `CacheReceipts.Judge` | actions/cache/refresh.go:190-226 | Decides between the two for a published receipt, and shows each count with its coverage. |
| `CacheReceipts.Refresh` | actions/cache/refresh.go:176-227 | A refresh never fails because the two plans differ, and fails exactly when its hydration does; previews publish nothing; a refreshed generation is partial exactly if permissions were denied; a published generation is reported as incomplete exactly if the store's part of its receipt is unsound or something not requested was denied, and the receipt is determined by what the store and the collector answered. |
| `OwnerPaging.Collect` | internal/paging/collect.go:21-75 | The inventory is given exactly if the pages that were read are complete: pages 1, 2, … of the one total that they declare, all full but the last, with distinct nonempty identifiers and no repeated token, and as many projects as declared. Then it is their concatenation. Reading stops with the first page that fails, does not fit or ends the inventory, at the latest after one hundred. |
| `OwnerPaging.StartIsMin` | actions/project/list.go:142-146 | The guarded start equals min((page-1)*size, n) for every page number, and the product is computed only when it is at most n. |
| `OwnerPaging.PageShowsWindow` | actions/project/list.go:142-153 | A page shows the projects from (page-1)*size up to page*size, their total number, and a cursor for the next page exactly if some are left. |
| `OwnerPaging.OwnedInOrder` | actions/project/list.go:133-138 | The owner's projects are exactly those of the inventory with that owner, each as often as it is there and in its order. |
| `OwnerPaging.SelectionIs` | actions/project/list.go:156-184 | Exactly which page is selected: the first with the limit asked for, or a cursor's own. |
| `OwnerPaging.WalkShowsAll` | actions/project/list.go:142-153 | Walking cursors from the first page shows the owner's projects once, in order; the cursor is empty exactly when all were shown; the walk has no more pages than projects. |
| `OwnerPaging.CursorRoundTrip` | actions/project/list.go:156-190 | A cursor is accepted exactly with the filter it was made for and with its own size or none. |
| `OwnerPaging.SelectionBounded` | actions/project/list.go:156-184 | Whatever is selected is a positive page of a bounded size. |
| `OwnerPaging.ListByOwner` | actions/project/list.go:118-154 | The cache is refused; otherwise the answer is the asked window of the owner's projects in a complete inventory, or all of them, and fails exactly if the inventory is not complete. |
| `OwnerPaging.CutWindow` | actions/project/list.go:142-153 | The window and its cursor, computed without overflow. |
| `OwnerPaging.Execute` | actions/project/list.go:73-112 | The owner inventory is used exactly if the selector looks like an identifier and the cursor came from it or the name filter finds nothing, and then answers with the window of that page; otherwise the name filter's answer is passed on. A call is refused before any read exactly for its arguments. |
| `LineageWarnings.BoundedLineageWarnings` | actions/workbook/pull.go:316-342 | The result is the first twenty, in dictionary order, of the one sorted list of distinct bounded warnings. |
| `LineageWarnings.WarningsBounded` | actions/workbook/pull.go:316-342 | Each warning is at most 512 bytes and a prefix of a trimmed input; of valid UTF-8 inputs it is valid UTF-8 and not empty. |
| `LineageWarnings.BoundedValid` | actions/workbook/pull.go:324-330 | The back-off gives up at most three bytes below the limit and never splits a character. |
| `LineageWarnings.BoundedExact` | actions/workbook/pull.go:324-330 | A warning within the limit is kept whole; a longer one up to the last byte at or below the limit that starts a character. |
| `LineageWarnings.ListingUnique` | actions/workbook/pull.go:331-337 | The sorted list without repetition is determined by its members. |
| `LineageWarnings.ValidSplits` | actions/workbook/pull.go:325-329 | Valid text splits into valid texts at every byte that starts a character. |
| `LineageWarnings.TrimValid` | actions/workbook/pull.go:320 | Trimming keeps valid text valid. |
| `LineageWarnings.VanishesIff` | actions/workbook/pull.go:324-330 | A warning is cut to nothing exactly if it is empty, or longer than the limit with no character starting between its second byte and the limit. |
| `LineageWarnings.LetterVanishes` | actions/workbook/pull.go:324-334 | A letter followed by at least 512 continuation bytes is kept as an empty warning. |

## Left out

- Error texts, retry advice, command hints, warnings as text, and compact and full projections.
- HTTP, Tableau adapters, sign-in, credential stores, prompts, Cobra wiring and rendering.
- Real file systems: symbolic links, permissions, the inspection bounds of 2048 entries and 16 MiB, and reading the embedded bundles; a package tree is a finite map from names to contents.
- Crashes inside one install: a process that stops matters only in the interleaving model, where it frees its locks.
- Edits of packages by other programs while a run holds its locks; between planning and locking the disk may change in any way.
- Installing for every detected agent at once (`installAuto`), which repeats single installs.
- Receipts as bytes: a readable receipt is what it registers, and one that cannot be read is refused.
- Plans as separate objects: the installer holds its plans in a sequence and replaces the one it changes, so aliasing between plans is not modelled.
- The page head as a shared buffer: byte slices are values here, so that the input head is not written to holds by construction.
- Progress of interleaved runs against each other (a lock that is always taken first by others); that a run without rivals gets through is stated.
- SkillLocks.EveryScheduleSafe: stage names are never drawn twice, and validation reads between taking the locks and moving packages are steps without effect.
- ProjectActions.Move: nothing else writes between revalidation and the write; between planning and revalidation others may do anything that keeps the site well formed.
- Updating and deleting projects: an update checks no sibling names here and a delete cascades remotely.
- SearchPages.Execute: item keys are pairs of kind and identifier instead of joined text, which is the same for the supported kinds; the unavailable-scope recovery text and the bounding of the warnings for output are not modelled.
- SchemaPaging.Schema: folding of role names and matching of a field against the query are a parameter.
- SchemaPaging.WalkTiles: a cursor that is edited by hand can start anywhere inside the selection; walks start without one.
- LabelUpdate.Update: foldings of type names are a parameter, and a label that comes with a failed write is not reported.
- WorkbookPublish.Execute: the read-only lookups after a rejected commit are not calls of this protocol (`DatasourceRejection` models them by themselves); the publication of flows and data sources is not modelled.
- DatasourceRejection.RejectedPublish: case folding and reading a target are parameters, the upload is prepared or refused by its bindings alone, and quoting of the suggested command line is not modelled.
- SearchPages.Search: capability checks, sign-in and the choice between remote, cache and list sources are not modelled.
- CacheScopes.NormalUnordered: which of two errors is reported first may depend on the order.
- CacheReceipts.Hydrate: transport, capability checks and the SQL store are answers that may fail; counting runes is a parameter.
- OwnerPaging.Execute: the page that the name filter returns is passed through; its own cursor depends on how the reader honours page sizes.
- OwnerPaging.WalkShowsAll: the inventory stays the same while its cursors are followed, as these cursors carry no fingerprint of it.
- Cursors of the workbook, data source and flow lists, and actions that repeat the revalidate-then-write shape with less state.
- Validation of lineage captures and joining the pulled bundle.
