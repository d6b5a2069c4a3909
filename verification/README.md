# What the browser manager promises, proved

This project models the parts of the fp-browser manager in which a mistake would cost the
user something - a browser profile, a configuration, an activity log - and proves what
those parts are there to guarantee. Five things are modelled.

**Copying browser data.** A profile's directory is replaced by a copy built beside it, put
in place by two renames, under an ownership record, and cleared up or put back by a
recovery. `Trees` is a link-free file system as a value; `Disks.Disk` changes it one
system call at a time and remembers every state it has been through, so that a crash is
being left in one of them and "at every moment" is a statement about a sequence. Any call
may fail; `failures` counts those that have since the machine came up, so that "unless a
call fails" is a statement too. `Copying`, `Swap`, `Plans`, `Transfers` and `Histories` are
the program's own operations over that disk. The centre is `Swap.Held`: the data a
destination *stands for*, under its own name or, between the two renames, under `.old` with
a valid record. No step of anything changes it, except the one rename that completes a copy,
through any history of runs, failures, crashes and recoveries (`Histories.History`); and in
a history without them every event does all it is for.

**Leases.** `Leases` holds the two mutex-guarded objects as classes; `Workers` interleaves
any number of workers, one critical section at a time, and shows what every reachable
state keeps.

**Configuration.** `Configuration` is the three services over a store with foreign keys and
an atomic replacement; `Imports` and `Restores` are the planner and the writer of each
verb; `ImportLaws` and `RestoreLaws` say what they come to for every document, however
malformed, and every store. The rules a form applies to a name, a host or an appearance
are arbitrary deterministic predicates, and so is which directories exist; the other rules
for cores and proxies are written out, because what survives an export depends on them.

**Dates and the activity log.** `Calendar` proves the closed-form date arithmetic against a
calendar that turns one page at a time and a clock that ticks; `Stamps` proves what the two
spellings of an instant are used for; `LogFiles` follows the two log files through any
sessions, failed calls and torn writes, and accounts for each line logged.

**The icon.** `Icons` writes an icon file with a running offset and reads it back.

Some results are exact conditions rather than promises kept:

- Startup names a profile exactly when its original had to be put back and nothing is left
  beside it afterwards. One that was renamed back before the clearing up failed has its data
  and is never named, not at that startup nor at the next (`Histories.PutBackYetNeverNamed`).
- Startup passes a profile over exactly when one of its four names is near another profile's
  directory. The profile keeps its own directory, but another of its names stays as it was
  exactly when no profile that is recovered lives at or below it: that one may come back
  (`Histories.PassedOverNamesStay`).
- A profile is copied when its directory can be *reached* as it is spelled. Without `..` in
  the spelling that is the same as there being a directory where it resolves to
  (`Plans.DataIsWhereItResolves`); with it, it is not (`Plans.ResolvedButNotReached`).
- A stray release of a lease is harmless exactly when the holder's operation is another
  (`Workers.StrayFree`); `Workers.LateReleaseGivesAway` is a run where it is not.
- Timestamps up to an instant sort as text in time order exactly when that instant is before
  the year 10000 (`Stamps.TextOrderEndsWithFourDigits`).
- An icon reads back as written exactly when every side is from 1 to 256 (`Icons.IconReads`).

Where an operation answers with a list, the answer is tied to its input by `Lists.Selects`:
which records, what is said of each, in their order. There is only one such list
(`Lists.SelectionIsUnique`).

Where the code and its comments differ, the code is followed. The comment on
`Operations::free` says a late release cannot give away somebody else's lease; by the code
it can, when both are for the same operation.

## Model

| member | source | states |
|---|---|---|
| Trees.SizeTakingAny | crates/application/src/browser_data.rs:457-470 | the byte count of a copy does not depend on the order a directory is read in |
| Trees.SizeOfOneEntryMore | crates/application/src/browser_data.rs:457-470 | an empty directory counts nothing and one entry more counts exactly what is in it |
| Trees.DirectoryIsItsChildren | crates/application/src/browser_data.rs:457-470 | a directory holding a copy of each entry, and no other, is a copy of the directory |
| Disks.Disk.Crash | crates/application/src/browser_data.rs:105-117 | a crash leaves one of the states the disk was in since, and nothing else |
| Disks.Disk.Rename | crates/application/src/browser_data.rs:556-562 | a rename moves a whole tree in one step or changes nothing, and touches no third path |
| Copying.CreateDirAll | crates/application/src/browser_data.rs:592-594 | only directories on the way to the path are made, and none that exists is disturbed, at every step |
| Copying.CopyTree | crates/application/src/browser_data.rs:457-470 | on success the target equals the source and the count is its size; at every step, failed or not, nothing outside the target is different |
| Copying.RemoveAny | crates/application/src/browser_data.rs:612-619 | on success nothing is there; nothing else is different at any step; it fails only when a call does |
| Paths.Normalize | crates/application/src/browser_data.rs:438-450 | the loop computes the folding whose laws follow |
| Paths.NormalizeLaws | crates/application/src/browser_data.rs:438-450 | normalizing leaves no `.` or `..`, is idempotent, and may be applied to a prefix first |
| Paths.WalkIsResolved | crates/application/src/browser_data.rs:401-430 | without links, taking `..` through the directories and folding it out by name lead to the same place |
| Paths.Resolve | crates/application/src/browser_data.rs:401-430 | whatever exists along the way, resolving terminates and gives the normalized absolute path |
| Paths.FootprintApart | crates/application/src/browser_data.rs:225-238 | the four names a copy may use are siblings, pairwise apart, for every destination |
| Paths.SuffixUnique | crates/application/src/browser_data.rs:627-632 | a suffixed name determines the name and the suffix |
| Paths.FootprintsStayApart | crates/application/src/browser_data.rs:575-584 | destinations clear of each other's four names have eight names pairwise apart: suffixes alone cannot collide |
| Paths.OverlapsIsCommonDescendant | crates/application/src/browser_data.rs:356-358 | two paths overlap exactly when something could lie at or below both |
| Swap.Recover | crates/application/src/browser_data.rs:511-553 | without a valid record nothing is touched and leftovers are refused; with one, every step keeps the data and stays recoverable, success leaves exactly the data and no sibling, failure needs a failed call, and the flag is true exactly when the original was renamed back |
| Swap.RecordsCountByPlace | crates/application/src/browser_data.rs:511-531 | a record that was written counts for a destination exactly when it has the format and its path resolves there, however it is spelled |
| Swap.StillRecovering | crates/application/src/browser_data.rs:545-551 | clearing `.old` or `.partial` away by many small steps never changes what the destination stands for |
| Swap.RecordRemoved | crates/application/src/browser_data.rs:545-551 | the record, removed last, leaves the data under its own name and nothing beside it |
| Swap.Claim | crates/application/src/browser_data.rs:586-610 | at every step only the record differs, besides directories made for it; on success it is a valid record where there was none |
| Swap.Commit | crates/application/src/browser_data.rs:479-507 | at every step the destination stands for the old data or the whole staged copy under the record; failure - of the put-back too - keeps the old data |
| Swap.CopyOnto | crates/application/src/browser_data.rs:182-212 | one destination of a run: old or new at every moment, all of the source and its exact size on success; leftovers that are not ours stop it untouched; with none, and a clear way, it fails only when a call does |
| Plans.CheckAlone | crates/application/src/browser_data.rs:295-323 | a copy passes exactly when its source is off its four names and these are off every other profile's directory, and a refusal names two paths that do overlap |
| Plans.CheckPairs | crates/application/src/browser_data.rs:324-348 | no two copies' paths overlap exactly when nothing is refused |
| Plans.Plan | crates/application/src/browser_data.rs:254-351 | a run is accepted exactly when all its paths are apart; it then copies, in order, each profile that has what is to be read, from its directory to its place in the backup or the other way about, and names the others; every refusal is witnessed by a real overlap |
| Plans.RunsAreAsAsked | crates/application/src/browser_data.rs:269-293 | said of the profiles alone: backing up reads the directory each profile resolves to and writes `profiles/<id>` below the backup, a restore the reverse; copied are exactly those whose source can be reached and is a directory, in order |
| Plans.DataIsWhereItResolves | crates/application/src/browser_data.rs:269-293 | for a spelling without `..`, being reached is the same as there being a directory where it resolves to |
| Plans.ResolvedButNotReached | crates/application/src/browser_data.rs:269-293 | and with `..` it is not: a profile is skipped though there is a directory where its path resolves to |
| Plans.AcceptedExactlyWhenApart | crates/application/src/browser_data.rs:295-348 | a run is accepted exactly when, for the profiles that go, the four names of each target are apart from its source, from every other profile's directory and from both ends of every other copy |
| Plans.OrdinaryRunsAreAccepted | crates/application/src/browser_data.rs:295-348 | profiles side by side under names that are no suffixed form of each other, and a backup elsewhere, are accepted in either direction |
| Plans.EveryProfileIsConsidered | crates/application/src/browser_data.rs:269-293 | each profile is copied or named as skipped |
| Plans.AcceptedRunsKeepApart | crates/application/src/browser_data.rs:295-348 | in an accepted run no source and no other profile's directory is near anything written, suffixes included |
| Transfers.Transfer | crates/application/src/browser_data.rs:152-215 | it is refused as running exactly when some profile is, naming exactly those, in order; refusals precede the first write; at every moment the earlier copies are whole, at most one is under way and the later ones untouched; on success each profile's place in the backup holds what its directory held, or its directory what the backup held, with the exact total; failure names where it stopped, and an accepted run fails only over leftovers not ours, a file on the way to a destination, or a failed call |
| Transfers.OneCopyFurther | crates/application/src/browser_data.rs:182-212 | what one copy does at any step leaves every other copy's paths as they were |
| Transfers.ThroughIsDelivered | crates/application/src/browser_data.rs:152-215 | every copy made is every profile delivered, backup or restore, with nothing read disturbed |
| Transfers.WaysStayClear | crates/application/src/browser_data.rs:182-212 | a copy made leaves the way to every later destination as clear as it was, sharing directories or not |
| Transfers.NothingElseIsWritten | crates/application/src/browser_data.rs:152-215 | a run leaves every source and every other profile's directory unchanged |
| Transfers.EveryDestinationIsOldOrNew | crates/application/src/browser_data.rs:152-215 | at any moment of a run every destination stands for its original or its whole source, and leftovers that are not ours are as they were |
| Histories.RecoverUserDataDirs | crates/application/src/browser_data.rs:118-149 | passed over are exactly the profiles one of whose four names overlaps another's directory, and their own directories are untouched; of the others it names, in order, exactly those whose original had to be put back and that have nothing left beside it; whatever it leaves unfinished a failed call over that very profile accounts for, and without one everything of ours is dealt with and all put back are named; no step loses any data |
| Histories.NeighboursAreRecovered | crates/application/src/browser_data.rs:130-147 | profiles in one directory under names that are no suffixed form of each other are all recovered, and with no failed call all put back are named |
| Histories.PassedOverNamesStay | crates/application/src/browser_data.rs:133-141 | a name of a profile that was passed over never changes exactly when no recovered profile's directory is at or below it |
| Histories.PutBackYetNeverNamed | crates/application/src/browser_data.rs:533-553 | wherever an original is aside there is a state, reached by the rename alone, in which it is back under its own name and yet neither this startup nor the next names the profile |
| Histories.SomethingToPutBack | crates/application/src/browser_data.rs:533-543 | an original can be aside, wherever it belongs: such a state exists for any codec that reads what it wrote |
| Histories.RecoverAtLast | crates/application/src/browser_data.rs:511-553 | a recovery cut short any number of times ends where an undisturbed one does; the last attempt succeeds unless a call in it fails, says whether the original was still aside when it began, and leaves the next nothing to do |
| Histories.History | crates/application/src/browser_data.rs:118-215 | over any history of runs and startups, each cut short anywhere or not, the destination stands for its original or for all that the source of a run begun by then held as it began; leftovers not ours are never touched; with nothing cut short and no failed call every event does what it is for |
| Histories.RunStandsFor | crates/application/src/browser_data.rs:152-215 | any moment of any run is a step of that history, for a destination in the run or not |
| Histories.StartupStandsFor | crates/application/src/browser_data.rs:118-149 | any moment of the recoveries at startup is one too |
| Leases.Operations.Lease | crates/application/src/operations.rs:105-127 | all or none: refused exactly when one is held or asked for twice, naming the first such, with the registry as it was |
| Leases.Operations.GiveBack | crates/application/src/operations.rs:187-193 | a drop returns the registry to what it was before the lease |
| Workers.EveryRunKeepsBoth | crates/application/src/operations.rs:64-127 | both invariants hold in every state any interleaving reaches |
| Workers.RegistryIsTheHolders | crates/application/src/operations.rs:64-127 | the registry that take, free and lease step through is exactly the union of the live holders, each profile with one of them and for its operation |
| Workers.NobodyElseLosesAnything | crates/application/src/operations.rs:105-127 | no worker's step - a rollback or a drop included - changes what another holds |
| Workers.AllOrNothing | crates/application/src/operations.rs:105-127 | a worker back from a refused lease holds nothing, a granted lease holds all it asked for, without repeats |
| Workers.NobodyIsStuck | crates/application/src/coordination.rs:54-67 | a lease, a rollback or a drop can always go on, and the count never runs under |
| Workers.GrantedWheneverItCanBe | crates/application/src/coordination.rs:24-43 | in every reachable state a shared lease is granted exactly when nobody has the exclusive one, and the exclusive one exactly when nobody has any; a refusal changes nothing |
| Workers.TakenWheneverItIsFree | crates/application/src/operations.rs:105-127 | in every reachable state the next profile of a lease is taken exactly when no worker has it, and a refusal names it and what its holder is doing |
| Workers.TakenAloneWheneverItIsFree | crates/application/src/operations.rs:65-81 | a single take succeeds exactly when no worker has the profile, and otherwise changes nothing |
| Workers.LeasedInSteps | crates/application/src/operations.rs:105-127 | critical section by critical section a lease comes to what it does in one piece: all held exactly when all were free and none asked for twice |
| Workers.MutationsAndMaintenanceExclude | crates/application/src/coordination.rs:69-80 | no mutation is under way while the installation is held alone; the counter is the number of shared leases |
| Workers.NothingLeaks | crates/application/src/operations.rs:187-193 | when all workers are idle nothing is held and nothing is counted |
| Workers.StrayFree | crates/application/src/operations.rs:87-97 | a release by someone else breaks the registry exactly when it is for the holder's operation |
| Workers.LateReleaseGivesAway | crates/application/src/operations.rs:87-97 | and such a run exists: one worker takes and frees, another takes for the same operation, the first frees again, and the second holds a profile the registry calls free |
| Configuration.StrippingAndCarryingAgree | crates/domain/src/proxy.rs:94-152 | stripping changes something exactly when there are credentials to report, and leaves none |
| Configuration.StrippingTakesTheSecretsOnly | crates/domain/src/proxy.rs:94-123 | stripping keeps the protocol, host, port and every setting that is not a secret, down to the REALITY block; putting the secrets back gives the outbound |
| Configuration.StrippedIsTheOnlyOne | crates/domain/src/proxy.rs:94-123 | one outbound has the same settings and no secrets, and it is the stripped one |
| Configuration.StrippedIsUsable | crates/domain/src/validation.rs:52-203 | a valid proxy stays valid without its credentials exactly when it is SOCKS5 or HTTP |
| Configuration.ProxiesThatPass | crates/domain/src/validation.rs:52-91 | a proxy passes exactly when it is named and placed, its credentials are both there or both not, the fields its protocol requires are not blank and its stream passes |
| Configuration.StreamsThatPass | crates/domain/src/validation.rs:102-195 | of the nine combinations of network and security seven pass, each with no block that it would not read |
| Configuration.ChangesKeepReferences | crates/storage/src/sqlite.rs:503-564 | no insert, update or deletion through the services, refused or not, leaves a reference leading nowhere |
| Configuration.GuardsAreExact | crates/application/src/core_service.rs:211-224 | a deletion is refused as in use precisely when the references would not survive it |
| Configuration.RefusalsAreExact | crates/application/src/profile_service.rs:136-146 | each of the nine changes is refused exactly when its record breaks a rule, is not where it has to be, or would leave a reference leading nowhere, and is told which |
| Configuration.EachChangeIsOneRecord | crates/application/src/proxy_service.rs:91-122 | a change that is not refused puts what was asked in its place, or takes it away, and every other record is as it was; a refused one changes nothing |
| Configuration.OneRowMore | crates/storage/src/sqlite.rs:385-415 | a row is refused exactly when the lists so far stop being replaceable |
| Configuration.Services.DeleteCore | crates/application/src/core_service.rs:211-224 | the guard answers before the database could: its restriction is never what is reported |
| Configuration.Services.DeleteProxy | crates/application/src/proxy_service.rs:106-122 | the same for a proxy |
| Configuration.Services.Replace | crates/storage/src/sqlite.rs:385-415 | everything is replaced or nothing is, and it is refused exactly when a profile repeats or a reference is not in the lists |
| Imports.PlanImport | crates/application/src/import.rs:179-297 | the loops compute the plan the laws below are about |
| Imports.ApplyImport | crates/application/src/import.rs:314-364 | the writes leave the store, and the report says the outcome, that the laws below are about |
| ImportLaws.ImportKeepsReferences | crates/application/src/import.rs:314-364 | for any plan and any sound store the result is sound, and no profile is ever offered to the database with a dangling reference |
| ImportLaws.ImportChangesNothingStored | crates/application/src/import.rs:212-290 | no record stored before an import is different after it |
| ImportLaws.PlannedProfilesAreTheFiles | crates/application/src/import.rs:249-287 | what is planned is a profile of the file, unchanged but for a directory that is not here and a proxy that is nowhere, with references that will lead somewhere |
| ImportLaws.PlanIsWhatIsNew | crates/application/src/import.rs:212-290 | list by list and in the file's order, the plan is all of the file that is new here, each profile in the form it arrives in |
| ImportLaws.NotesAreExact | crates/application/src/import.rs:212-290 | the notes name, in order, exactly the kept cores, proxies and profiles whose stored record is another, the profiles left out for their core, those that lose their proxy and those that move, from where to where; and what the document says of credentials |
| ImportLaws.DifferingIsDisagreement | crates/application/src/import.rs:212-247 | for one record: to be named as differing is to be stored as another, a profile's directory aside |
| ImportLaws.LeftOut | crates/application/src/import.rs:343-361 | a planned profile is missing afterwards only if it is invalid or its core is not stored |
| ImportLaws.StoredRowsArePlanned | crates/application/src/import.rs:325-361 | every row after an import was there before or is a valid record of the plan, a proxy that was refused cleared |
| ImportLaws.AllCameOut | crates/application/src/import.rs:342-361 | of the plan's profiles it is said, in order, which lost their core or their proxy on the way and which were refused and why; of several with one identifier the first that can be written is stored |
| ImportLaws.OnlyRefusedRecordsComeBack | crates/application/src/import.rs:212-232 | what a second look at a list finds arriving was refused the first time |
| ImportLaws.OnlyRefusedProfilesComeBack | crates/application/src/import.rs:234-290 | a profile that arrives again is one that still cannot be stored |
| ImportLaws.ImportTwiceIsOnce | crates/application/src/import.rs:179-364 | importing any document again adds nothing and leaves the store identical, whichever directories are here by then |
| ImportLaws.PlanAccountsForTheDocument | crates/application/src/import.rs:212-290 | each record of the document is planned, kept, or a profile without its core: once |
| ImportLaws.ReportAccountsForThePlan | crates/application/src/import.rs:325-361 | each planned record of each kind is added, refused by name, or a profile whose core was refused: once |
| ImportLaws.ReportIsExact | crates/application/src/import.rs:314-364 | the report names exactly the records that could not be written, kind by kind in order and with the reason, adds the late losses to the notes, and changes no other note |
| Restores.Repeats | crates/application/src/restore.rs:297-300 | true exactly when two places hold the same identifier |
| Restores.CheckRecords | crates/application/src/restore.rs:193-230 | passes exactly when every core and proxy is valid; otherwise names the first at fault, or counts all unusable proxies of a file without credentials |
| Restores.PlanRestore | crates/application/src/restore.rs:167-274 | accepts exactly the documents nothing is wrong with, and the error is the first thing wrong in the order of the checks |
| Restores.ApplyRestore | crates/application/src/restore.rs:281-294 | the installation becomes the plan, or stays what it was |
| RestoreLaws.AcceptedPlansCommit | crates/application/src/restore.rs:167-294 | the transaction never refuses a plan that was accepted |
| RestoreLaws.RefusalsAreTrue | crates/application/src/restore.rs:167-230 | a refusal as not empty gives the counts and is made exactly when something is there; a repeated kind repeats and no earlier kind does; a count of unusable proxies is of exactly those |
| RestoreLaws.ProfileFaultIsTheFirst | crates/application/src/restore.rs:228-250 | a refusal over a profile names the first that is invalid or names a record the document does not hold, and says which |
| RestoreLaws.RestoreIsImportOntoNothing | crates/application/src/restore.rs:167-294 | what restore accepts, import onto nothing takes with no refusal, the same notes and the same resulting configuration |
| RestoreLaws.RestoreAcceptsWhatImportsWhole | crates/application/src/restore.rs:167-274 | restore accepts exactly the documents import onto nothing takes whole and in which no core or proxy repeats |
| RestoreLaws.ExportThenRestore | crates/application/src/config_backup.rs:125-147 | an export restores, on any machine, to the configuration it was taken of: cores the same, proxies the same in all but the secrets that were left out, profiles the same in all but a directory that is not here; one without credentials is accepted exactly when every proxy can do without |
| RestoreLaws.ExportHoldsWhatItSays | crates/application/src/config_backup.rs:125-147 | the document holds every record in order, and either every secret or none, as it states |
| RestoreLaws.ExcludedIsRefusedByCount | crates/application/src/restore.rs:203-230 | otherwise the refusal is of the credentials and counts exactly the proxies that need them |
| RestoreLaws.EverySessionKeepsReferences | crates/application/src/import.rs:314-364 | every sequence of service calls, imports of any plans and replacements keeps every reference resolved |
| Calendar.YearIsFound | crates/app/src/log_file.rs:183-187 | the year formula gives the year of every day of the 400-year cycle |
| Calendar.OneDayLater | crates/app/src/log_file.rs:172-193 | the fields of the next day are the next page of the calendar, for every day, before 1970 too |
| Calendar.ClosedFormIsTheCalendar | crates/app/src/log_file.rs:172-193 | the closed form is the calendar counted from 1 January 1970, with fields in range |
| Calendar.DayNumberInverts | crates/app/src/log_file.rs:172-193 | counting days by years and months gives the day back |
| Calendar.CivilFromUnixTicks | crates/app/src/log_file.rs:172-193 | the whole conversion is a clock ticking from the epoch, second by second |
| Calendar.FieldsGiveTheSecondsBack | crates/app/src/log_file.rs:172-193 | the six fields rebuild the seconds |
| Calendar.LaterIsLater | crates/app/src/log_file.rs:172-193 | later instants have lexicographically later fields |
| Calendar.NothingOverflows | crates/app/src/log_file.rs:172-193 | for every 64-bit count of seconds each step stays within the widths it is computed in |
| Stamps.PaddedReads | crates/app/src/log_file.rs:146-149 | a zero-padded number reads back as the number, whatever its width |
| Stamps.TimestampsSort | crates/app/src/log_file.rs:140-150 | until the year 9999 is over, timestamps sort as text in time order, to the millisecond |
| Stamps.FiveDigitsDoNotSort | crates/app/src/log_file.rs:140-150 | the first millisecond of the year 10000 sorts before the last of 9999 |
| Stamps.TextOrderEndsWithFourDigits | crates/app/src/log_file.rs:140-150 | the timestamps up to a horizon sort as text in time order exactly when the horizon is below 253402300800000 milliseconds, the first of the year 10000 |
| Stamps.TimestampReads | crates/app/src/log_file.rs:140-150 | read from its end a timestamp gives its seven fields back, in order and between their separators |
| Stamps.FileStampsNeverRepeat | crates/app/src/log_file.rs:159-166 | two instants with the same file stamp are in the same second, in whatever year |
| Stamps.FileStampReads | crates/app/src/log_file.rs:159-166 | read from its end the stamp gives year, month, day, hour, minute and second back, in that order, in whatever year |
| LogFiles.LogDir.KeepsTheEnd | crates/app/src/log_file.rs:91-104 | what the two files hold is the end of all that was written, and at least the limit of it |
| LogFiles.LogDir.Write | crates/app/src/log_file.rs:100-101 | a line goes at the end of the current file, whole or - in error - torn, and never across the two files |
| LogFiles.Rotate | crates/app/src/log_file.rs:125-133 | rotation loses only the file rotated before, and only when the current one holds the limit, failed halfway or not |
| LogFiles.LogFile.Append | crates/app/src/log_file.rs:91-104 | rotates exactly when the file is full; the line ends the current file, whole or - a call having failed - in part or not at all; the size bound is kept |
| LogFiles.AppendAll | crates/app/src/log_file.rs:91-104 | a session's lines reach the log in order, each whole where the append answered well and otherwise a prefix or nothing, with a failed call of its own |
| LogFiles.Open | crates/app/src/log_file.rs:51-73 | opening loses no history within the limit, leaves a file below it, and fails only when a call does |
| LogFiles.Sessions | crates/app/src/log_file.rs:51-104 | over any sessions and failures: the log gains the sessions' lines in order but for those that failed calls account for, each line answered well being there whole, and all of them with no failure; the two files are a suffix of it all, at least the smaller of it and the limit, each file below the limit and one line |
| LogFiles.NothingMissed | crates/app/src/log_file.rs:51-104 | fates that miss no line and no session leave all the lines, in their order, and no other text |
| Icons.Entry | scripts/make-icon.py:204-206 | an entry packs exactly when its numbers fit their widths |
| Icons.Ico | scripts/make-icon.py:195-210 | the file is written exactly when everything fits, with each entry's offset where its image lies |
| Icons.EntriesTileTheFile | scripts/make-icon.py:201-209 | images lie end to end from the directory to the end of the file |
| Icons.SmallestIcon | scripts/make-icon.py:195-210 | the icon of one image of 16 pixels, byte for byte |
| Icons.IconReads | scripts/make-icon.py:195-210 | a reader of the directory recovers every image, and every size exactly when all are from 1 to 256 |

## Left out

- Symbolic links, Windows prefixes, permissions and case-insensitive names: the file system is a link-free tree, and `std::fs::canonicalize` on it is a walk.
- A failing `stat`: whether a path exists is answered truly; reading the record, and every call that changes something, may fail.
- Rename onto a taken name: the protocol never does it, so what a platform makes of it is not modelled.
- Durability: a crash leaves a state that was reached, as if each call were on the disk when it returns.
- The record's text: a reader that reads what was written and may make anything of anything else. A torn record may therefore pass as valid; the statements hold either way.
- Histories.RecoverUserDataDirs: profiles with distinct identifiers (the primary key) and none of whose own directories is the root.
- Histories.History: one destination at a time, and events whose other destinations are it or apart from it in all four names; `Plans.Plan` refuses anything nearer within one run.
- Transfers.Transfer: takes the profiles already in name order, since sorting by lower-cased name decides no path; a `Copy` error and a `Replace` error are one constructor.
- Errors of the record that cannot be read have a constructor of their own, `Unreadable`, which the code reports in the words of `Unowned`.
- `any`, `held` and `overdue`, and the age of a lease: they release nothing. Panics are drops.
- Assumed of a direct `take`: its caller frees what it took, once. `Workers.StrayFree` says what happens otherwise.
- The three lists of a snapshot are read one after another; the laws that need the snapshot to describe the store say so, and the others hold for any snapshot.
- Writers beside an import: the core and proxy lists are read back once, and a deletion by another worker between that and a profile's insert would be refused by the foreign key, not modelled here.
- Naming and probing of a core in `add`, `update` and `redetect`: for references they are a validated insert or other text under an identifier that is there.
- Identifiers are any text, compared as text; a fresh one is whatever the caller passes. JSON, the header check of a document and files of other versions.
- Settings, labels, release lists, downloads, PNG framing, the runtime supervisor, and everything drawn.
- LogFiles.Sessions: a second writer of the same log is not modelled; after a torn write or an unreadable size the size bound is no longer claimed, the rest is.
