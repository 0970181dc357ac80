# Verification model of the Tailscale plugin for KoolShare

This project models the parts of the plugin in which a mistake costs a router its connection: the
journalled core switch, the shared backend of the shell scripts, the ownership and validation of
advertised routes, the page that follows jobs in the browser, the release publisher and the log
rotation. Everything here is a model in Dafny; the plugin itself is not executed.

Programs that change things step by step appear twice. A machine over values has one step per durable
write or callback, and any process may be killed, refused or interleaved between two steps; the
statements over every run are lemmas about it. Beside it a class or a method changes the same state in
place, branch by branch and loop by loop, and its contract says that it performs exactly those steps.

| module | models |
|---|---|
| `CoreMachine`, `CoreSafety`, `CoreRollback`, `CoreScripts`, `CoreOffer` | `plugin/scripts/tailscale_core_lib.sh`: switch, recovery, rollback, cleanup of space, the offered version |
| `WatchdogMachine`, `WatchdogSafety`, `WatchdogBudget`, `Watchdog` | `plugin/scripts/tailscale_lib.sh`: automatic recovery, its counters and its ledger |
| `Config`, `RouteMerge` | the same file: a settings submission and its undoing, the route list handed to the planner |
| `Firewall`, `FirewallPackets`, `Netfilter` | the same file: the rebuilding and the removal of the rules, and what they do to packets |
| `NatEvents`, `JobLookup` | the same file and `plugin/scripts/tailscale_job`: what passes between processes around the busy lock |
| `Text`, `Netip`, `NetipText`, `Spelling`, `LetterCase`, `Routes`, `LongLists`, `StatusRoutes`, `Wire` | `cmd/tsks-helper/routes.go`, with the parts of Go's `net/netip`, `encoding/base64` and `unicode/utf8` it relies on |
| `Plan`, `PlanText` | `cmd/tsks-helper/appconnector.go`: the route plan and its printed form |
| `PageMachine`, `PageSafety`, `PageIds`, `PageFairness`, `PageDues`, `PageRuns`, `Page` | `plugin/res/tailscale3.js`: the owner of the busy flag, requests, polling, stop, resume and reload |
| `Publishing`, `Publisher` | `tools/publish_core.py`: immutable releases and the stable feed |
| `LogStream` | `cmd/tsks-helper/files.go`: lines from buffers, redaction, rotation |

Clocks, samples, health verdicts, network replies and the outcomes of writes are parameters or
arbitrary choices. Signatures and digests are taken to identify what they sign. Redaction is an
arbitrary function on lines. `atomic-link` and `mv` are single steps.

## Where the code keeps less than its comments say

Each is shown by a lemma; where a promise fails for some run, another lemma says exactly when it holds.

- A refused `rm -f` of the journal is not noticed; a later update that is short of space can then
  delete the core the journal still names, and that journal can never be settled again
  (`CoreSafety.RefusedDropCanWedge`, `CoreSafety.CleanupExactly`, `CoreSafety.SettleableExactlyWhenRecoverable`).
- A kill between the two removals at the head of `ts_firewall_apply` loses a refused NAT event, and an
  event that did get the lock is lost when its operation ends before its apply begins
  (`NatEvents.KillBetweenRemovalsLoses`, `NatEvents.AdmittedEventCanBeLost`, `NatEvents.LosesExactly`).
- A sample taken while automatic recovery is off, in the grace period, or whose counters could not be
  saved does not reset the failure count, so a healthy sample may lie between the three failures
  (`WatchdogSafety.SwitchedOffHealthIsForgotten`, `WatchdogSafety.UnsavedHealthIsForgotten`,
  `WatchdogSafety.InARowExactly`).
- The appends that build the new ledger are not checked, so a full disk can put a ledger in place that
  lacks the recovery it was written for, or the one before it (`WatchdogSafety.LostStampIsNotCounted`,
  `WatchdogBudget.GapKeptExactly`, `WatchdogBudget.BudgetKeptExactly`).
- Removing the rules can leave an empty chain of the plugin behind when a later chain of the plugin
  still led to it, which the next removal, or an apply before it, would have cleared
  (`Firewall.StragglersExist`, `Firewall.RemoveAfterApply`, `Firewall.RemoveTwice`).
- `gh release upload --clobber` deletes the feed before it uploads; an interruption in between leaves
  none to compare with, and a lower version is then accepted (`Publishing.LowerFeedCanFollow`,
  `Publishing.LowersExactly`).
- A reply that says no operation is busy is about the past: one may start between the moment a lookup
  found none and the moment its reply is sent (`JobLookup.OperationMayFollow`, `JobLookup.FreeReplyIsStillTrue`).
- Two actions can be written under one request id: after 99999999 draws within a load, and across loads
  whenever the random starts and the draws make it so, in the simplest case at once after a reload
  (`PageIds.OneIdTwice`, `PageIds.WritesRepeatExactly`).

## Model

| member | source | states |
|---|---|---|
| CoreSafety.SwitchIsAtomic | plugin/scripts/tailscale_core_lib.sh:199-244 | over every run with kills, power losses, refused writes and a daemon that rewrites the identity: without a journal `current` is what an atomic switch would show, and that moves from old to new only at the landing of `committed` |
| CoreSafety.InterruptedSwitchSettles | plugin/scripts/tailscale_core_lib.sh:43-71 | whatever crashed and however often recovery did, the step that removes the journal leaves new and old as current and previous exactly when `committed` was written, else the old core, no daemon but its own and, if an identity existed as the switch was entered and its copy was recorded, the identity copied at stop or what the old daemon wrote since |
| CoreSafety.JournalTellsTheTruth | plugin/scripts/tailscale_core_lib.sh:206-215 | in every reachable state a journal says truly whether an identity existed and whether the service was enabled as its switch was entered |
| CoreSafety.WhatIsFound | plugin/scripts/tailscale_core_lib.sh:206-215 | what counts as found there is the identity file and the setting at the entry, and it counts once the first record lands |
| CoreSafety.WhoRemovesTheJournal | plugin/scripts/tailscale_core_lib.sh:51-69 | the journal disappears at the two removals only |
| CoreSafety.WhoWritesTheIdentity | plugin/scripts/tailscale_core_lib.sh:59-65 | scripts write the identity only from the snapshot of the open transaction: never after the commit, never when none existed as the switch was entered |
| CoreSafety.RestoredSnapshotIsCurrent | plugin/scripts/tailscale_core_lib.sh:56-68 | a snapshot left by an earlier transaction is never restored |
| CoreSafety.RecoverySucceeds | plugin/scripts/tailscale_core_lib.sh:43-71 | recovery of a recoverable disk that meets no further fault removes the journal in a bounded number of steps |
| CoreSafety.SettleableExactlyWhenRecoverable | plugin/scripts/tailscale_core_lib.sh:54-60 | a crashed transaction can be settled by some run if and only if its old core is there and its snapshot, when needed, is not empty |
| CoreSafety.CleanupIsSafe | plugin/scripts/tailscale_core_lib.sh:110-118 | making space never removes the current core; if no removal of a journal was refused, every crashed transaction stays recoverable |
| CoreSafety.CleanupExactly | plugin/scripts/tailscale_core_lib.sh:100-120 | whenever a core is about to be removed for space, a journal is live exactly when the recovery of the same script failed to remove it, and names that core exactly when it is committed or `previous` was its new core |
| CoreSafety.WhoLeavesTheJournal | plugin/scripts/tailscale_core_lib.sh:51-53 | what marks a script as having left a journal is the one ignored removal of its own recovery |
| CoreSafety.RefusedDropCanWedge | plugin/scripts/tailscale_core_lib.sh:51-53 | a run with two refused removals after which no run settles the journal |
| CoreSafety.RunKeeps | plugin/scripts/tailscale_core_lib.sh:43-282 | the invariant behind these statements holds in every reachable state |
| CoreRollback.RollbackExchanges | plugin/scripts/tailscale_core_lib.sh:276-282 | a rollback that ends with status 0 has exchanged current and previous |
| CoreRollback.TwoRollbacksReturn | plugin/scripts/tailscale_core_lib.sh:276-282 | two successful rollbacks bring both links back |
| CoreScripts.CoreStore.RecoverCore | plugin/scripts/tailscale_core_lib.sh:43-71 | the recovery script, in place, is a run of the machine; on status 0 the links are those of a finished or of an undone switch as the journal says, and after an undone one the old core runs if the service was enabled, with the identity of the snapshot; it succeeds when its commands meet no fault and the disk is recoverable |
| CoreScripts.CoreStore.SwitchCore | plugin/scripts/tailscale_core_lib.sh:199-244 | the switch script, in place, is a run of the machine; on status 0 the new core is current and running if enabled, and the old one previous; it succeeds when its commands meet no fault and both cores are there; when only the health check fails, the old core is current and running again with the identity from before the stop, whatever the new daemon wrote |
| CoreScripts.CoreStore.RollbackCore | plugin/scripts/tailscale_core_lib.sh:276-282 | recovery and rollback exchange the links the journal, if any, stands for; they succeed when their commands meet no fault and both cores are there |
| CoreOffer.CheckOffer | plugin/scripts/tailscale_core_lib.sh:80-95 | for any two labels, an offer passes exactly when its version is above the installed one, or equal and the installed label is not `r` and a number, or both are numbers and the offered one is not lower |
| CoreOffer.AllowedExactly | plugin/scripts/tailscale_core_lib.sh:79-95 | on verified labels an offer passes exactly when its version comes later, or is the same with a build number not lower or over a core taken over |
| CoreOffer.BelowIsTupleOrder | cmd/tsks-helper/security.go:64-91 | versions are compared as triples of numbers, the first difference deciding |
| CoreOffer.UpdatesNeverFall | plugin/scripts/tailscale_core_lib.sh:80-95 | no sequence of updates leads below a version installed on the way, nor below one of its builds as long as their labels are of the published form |
| CoreOffer.VerifiedUpdatesNeverFall | plugin/scripts/tailscale_core_lib.sh:79-95 | over any sequence of updates to cores that `verify` let pass, from a core with such a label or the label `legacy`, neither the version nor within a version the build number falls |
| CoreOffer.VerificationIsNeeded | plugin/scripts/tailscale_core_lib.sh:79-94 | why that rests on the verification before it: on unverified labels the comparison alone would let a numbered build be followed by a lower one, exactly if its label did not begin with `r` and a digit from 1 to 9 |
| WatchdogSafety.RunKeepsGap | plugin/scripts/tailscale_lib.sh:663-683 | over every run with clock jumps, power losses and kills, recorded recoveries stay at least 1800 s apart while each ledger put in place holds the line of its own recovery |
| WatchdogSafety.RunKeepsBudget | plugin/scripts/tailscale_lib.sh:796-809 | and every second one at least 86400 s apart while each holds all its lines, despite pruning and entries a set-back clock hides |
| WatchdogBudget.GapKeptExactly | plugin/scripts/tailscale_lib.sh:796-809 | after any recovery of any such run, recoveries stay 1800 s apart however things go on if and only if the line of this one is written |
| WatchdogBudget.BudgetKeptExactly | plugin/scripts/tailscale_lib.sh:796-809 | and the whole budget is kept if and only if that line is written, and so is the line carried over unless the recovery it records will be a day old before another can follow |
| WatchdogBudget.AgainSpends | plugin/scripts/tailscale_lib.sh:749-816 | whenever the ledger can afford it, five events lead to a recovery at that time |
| WatchdogSafety.RestartsAreRecorded | plugin/scripts/tailscale_lib.sh:806-815 | no restart happens that the ledger was not replaced for first |
| WatchdogSafety.StampIffAppended | plugin/scripts/tailscale_lib.sh:806-809 | the ledger put in place holds the recovery exactly when its own append succeeded |
| WatchdogSafety.LostStampIsNotCounted | plugin/scripts/tailscale_lib.sh:806-809 | two recoveries within one second after failed appends |
| WatchdogSafety.RecoveryIsEarned | plugin/scripts/tailscale_lib.sh:749-805 | every recovery of every run has two counted failures before this one with nothing else counted between, or counted unhealthy control samples over 600 s; the last sample was not exempt, and nothing was pending or stopped by hand |
| WatchdogSafety.SpendsExactly | plugin/scripts/tailscale_lib.sh:749-809 | budget is spent exactly when nothing is pending, unreadable, disabled or stopped, the service is three minutes old, every recorded recovery is half an hour past with at most one of the last day, and either the service is down in this sample, in two counted ones before and in the confirming one, or the control connection is down in them for 600 s and in the confirming one while the WAN works |
| WatchdogSafety.NotesExactly | plugin/scripts/tailscale_lib.sh:764-791 | what the counters count: each sample is noted as failing, control failure or deliberate state exactly by the fields of its report |
| WatchdogSafety.ConfirmExactly | plugin/scripts/tailscale_lib.sh:704-734 | the confirming sample lets a service recovery go on exactly when the service is still down, a control recovery exactly when the connection still is and the WAN works, and clears the counters exactly when the failure is gone |
| WatchdogSafety.ControlRecovers | plugin/scripts/tailscale_lib.sh:727-816 | two ticks ten minutes apart that find the control connection down lead to a recovery, if the confirming sample does too, the WAN works and the ledger can afford it |
| WatchdogBudget.ControlSpendsAgain | plugin/scripts/tailscale_lib.sh:727-816 | so whenever the ledger can afford one, four events lead to a recovery from a lost control connection |
| WatchdogSafety.AffordableExactly | plugin/scripts/tailscale_lib.sh:796-799 | the ledger can afford a recovery exactly when every recorded one is half an hour past and no two are of the last day |
| WatchdogSafety.SpendingRestarts | plugin/scripts/tailscale_lib.sh:806-816 | after the ledger is replaced the service is restarted and the counters are cleared, unless the script dies first |
| WatchdogSafety.RunFollows | plugin/scripts/tailscale_lib.sh:778-794 | the saved counters are a function of the samples that were evaluated and saved |
| WatchdogSafety.InARowExactly | plugin/scripts/tailscale_lib.sh:752-777 | no healthy or exempt sample lay in between exactly when every sample left unevaluated or unsaved since was failing too |
| WatchdogSafety.SwitchedOffHealthIsForgotten | plugin/scripts/tailscale_lib.sh:755-761 | a run in which a healthy sample between the failures is not evaluated |
| WatchdogSafety.UnsavedHealthIsForgotten | plugin/scripts/tailscale_lib.sh:685-688 | a run in which a healthy sample between the failures is not saved |
| Watchdog.WatchdogScript.WatchRead | plugin/scripts/tailscale_lib.sh:663-683 | the ledger loop yields the times of the last day, their number, and the latest time even when it lies in the future |
| Watchdog.WatchdogScript.WatchConfirm | plugin/scripts/tailscale_lib.sh:704-734 | in place: the recovery goes on exactly when the service is still down, or the control connection still is and the WAN works; the counters are cleared exactly when the failure is gone |
| Watchdog.WatchdogScript.RunTick | plugin/scripts/tailscale_lib.sh:749-816 | the tick script, in place, is one tick of the machine |
| NatEvents.LosesExactly | plugin/scripts/tailscale_lib.sh:386-395 | after a step some continuation without further losing steps leaves an owed event without a record exactly when the step is one of five losing ones |
| NatEvents.StepLosesExactly | plugin/scripts/tailscale_lib.sh:386-395 | those five are also exactly the steps that break the invariant behind it |
| NatEvents.RunKeepsRecord | plugin/scripts/tailscale_lib.sh:736-747 | over every interleaving without a losing step each refused event stays recorded until an apply that began after it ends |
| NatEvents.TickIsDue | plugin/scripts/tailscale_lib.sh:736-745 | a maintenance tick with any addresses then starts an apply |
| NatEvents.MaintenanceCovers | plugin/scripts/tailscale_lib.sh:736-747 | when the steps of that apply work no event is owed afterwards, and a tick with the same addresses starts none |
| NatEvents.ApplyCovers | plugin/scripts/tailscale_lib.sh:386-440 | an apply that ends with its addresses stored covers every event refused before it began and none refused later; one that ends without them, because the LAN or the status cannot be read, covers none |
| NatEvents.KillBetweenRemovalsLoses | plugin/scripts/tailscale_lib.sh:390-395 | a run in which a refused event is lost |
| NatEvents.AdmittedEventCanBeLost | plugin/scripts/tailscale_lib.sh:917-935 | a run in which an admitted event is lost |
| JobLookup.FreeRepliesAreTrue | plugin/scripts/tailscale_job:6-25 | for every interleaving of lookups and operations, operation_busy=false was true at the second lookup: no operation held the lock, the job had no record, and had not been accepted unless its record was gone |
| JobLookup.LockedLookupIsAlone | plugin/scripts/tailscale_job:12-24 | while a lookup holds the lock no record appears, so its finding still holds when it lets go |
| JobLookup.OperationMayFollow | plugin/scripts/tailscale_job:22-25 | an operation for the same job can start before the reply is sent |
| JobLookup.FreeReplyIsStillTrue | plugin/scripts/tailscale_job:12-25 | from the release of the lock on, through any steps of any processes, what a free reply says stays true exactly as long as no operation takes the lock |
| JobLookup.LookupAnswers | plugin/scripts/tailscale_job:6-25 | an undisturbed lookup answers with the record if there is one, with operation_busy=true while an operation holds the lock, and with operation_busy=false otherwise |
| JobLookup.LateRecordIsFound | plugin/scripts/tailscale_job:12-21 | a record published between the first look and the lock is what the lookup answers with |
| JobLookup.RunKeeps | plugin/scripts/tailscale_lib.sh:71-126 | the lock has one holder, and an accepted job keeps its record until it is pruned or lost |
| Config.ConfigStore.Snapshot | plugin/scripts/tailscale_lib.sh:207-228 | succeeds exactly when the submitted switches read as empty, 0 or 1, and then holds them and the route list byte for byte |
| Config.ConfigStore.BitsApply | plugin/scripts/tailscale_lib.sh:229-243 | succeeds exactly when every write does, with the submission in the store; never touches a key outside the submitted width |
| Config.ConfigStore.Restore | plugin/scripts/tailscale_lib.sh:245-273 | if every write takes effect, even one that reports a failure, the old settings are back: empty as absent, readable routes in canonical form, unreadable ones as they were |
| Config.ConfigStore.Start | plugin/scripts/tailscale_lib.sh:530-615 | succeeds exactly when the steps it meets do, and then an enabled daemon runs with the connector setting of the store; writes one key at most, an absent connector setting, with the choice of the daemon, and captures that choice before anything changes it |
| Config.ConfigStore.RollBack | plugin/scripts/tailscale_lib.sh:967-977 | after a failed service step it succeeds exactly when the saved list can be read and the writes land; if the writes take effect, even unreported, settings and connector setting are those of before, and a working restart hands the connector setting to the daemon |
| Config.ConfigStore.WebSubmit | plugin/scripts/tailscale_lib.sh:899-983 | for 7, 9 and 10 switches, every failing write and every failing service step, the verdict is determined by what the steps meet; rejected or unsaved changes nothing, success is the submission with an enabled daemon running with the submitted connector setting, and a failure whose restore writes take effect leaves the old store with the connector setting old, absent or the daemon's own |
| RouteMerge.MentionsExactly | plugin/scripts/tailscale_lib.sh:574 | looking for a route between commas finds exactly the entries of the list |
| RouteMerge.MergeRoutes | plugin/scripts/tailscale_lib.sh:565-578 | LAN and custom routes in order, each once |
| RouteMerge.MergeReadsBack | plugin/scripts/tailscale_lib.sh:565-578 | split again, the text names exactly the routes of both lists |
| Firewall.ApplyTwice | plugin/scripts/tailscale_lib.sh:386-440 | apply after apply equals apply |
| Firewall.OthersKeepOrder | plugin/scripts/tailscale_lib.sh:347-384 | rules of others that are not legacy are all kept, in their order |
| Firewall.PostroutingLast | plugin/scripts/tailscale_lib.sh:376-380 | with LAN settings the POSTROUTING jump occurs once and last |
| Firewall.RemoveAfterApply | plugin/scripts/tailscale_lib.sh:442-454 | remove after apply equals remove exactly when no rebuilt chain was reached only from a later chain of the plugin |
| Firewall.RemoveTwice | plugin/scripts/tailscale_lib.sh:442-454 | removing twice equals removing once exactly when no chain at all was |
| Firewall.StragglersExist | plugin/scripts/tailscale_lib.sh:447-452 | two rules for which they differ |
| Firewall.ApplyLeavesNoLegacy | plugin/scripts/tailscale_lib.sh:347-370 | where the listing tool exists, no plain legacy rule is left in any chain after an apply |
| Firewall.RemoveLeavesNothing | plugin/scripts/tailscale_lib.sh:442-454 | after a removal no hook leads to the plugin, its chains are empty, and one is left only where another rule led to it |
| FirewallPackets.PacketsMeetTheSetup | plugin/scripts/tailscale_lib.sh:404-431 | after an apply, whatever the rules were, a packet that no rule of others decides on is dropped, accepted, masqueraded or sent to the LAN address exactly as the setup asks at each hook |
| FirewallPackets.NewHooksComeFirst | plugin/scripts/tailscale_lib.sh:372-384 | and where the hook is new, other than in POSTROUTING, before any rule of others |
| Netfilter.Tables.DeleteJumps | plugin/scripts/tailscale_lib.sh:379 | the delete loop ends, since the rules left fall, with every jump gone and the rest in order |
| Netfilter.Tables.LegacyCleanup | plugin/scripts/tailscale_lib.sh:347-370 | one deletion a listed line removes exactly the plain legacy rules of every chain |
| Netfilter.Tables.TsChain | plugin/scripts/tailscale_lib.sh:372-384 | succeeds exactly when its commands do, with the chain emptied and hooked once; wherever it fails, a later apply comes to the same |
| Netfilter.Tables.FirewallApply | plugin/scripts/tailscale_lib.sh:386-440 | succeeds exactly when its commands do, leaving the rules of the specification; a failure at any command is repaired by the next apply |
| Netfilter.Tables.FirewallRemove | plugin/scripts/tailscale_lib.sh:442-454 | the removal loop leaves the rules of the specification |
| Netip.OverlapIsIntersection | cmd/tsks-helper/routes.go:121-125 | the overlap test holds exactly when the two address sets meet, for every pair of lengths and families |
| Netip.ContainsExactly | cmd/tsks-helper/routes.go:115-121 | a prefix stands for the addresses of its family that share its first bits, and masking it gives the least of them |
| NetipText.AddrRoundTrip | cmd/tsks-helper/routes.go:126-129 | printed addresses, in the form of section 4 of RFC 5952, are read back as themselves |
| NetipText.PrefixRoundTrip | cmd/tsks-helper/routes.go:112-129 | printed prefixes are read back as themselves |
| Spelling.ParsesExactly | cmd/tsks-helper/routes.go:111 | the texts that are read, and what each denotes, said without the parser as in section 2.2 of RFC 4291: digits in either case, groups of one to four digits, one `::` for any run of zero groups, a dotted tail; no leading zeros in octets or lengths |
| LetterCase.PrefixCase | cmd/tsks-helper/routes.go:111 | a prefix in capitals is read as the one in small letters |
| LetterCase.ListCase | cmd/tsks-helper/routes.go:106-132 | if a list or its form in small letters is accepted, both are, with one canonical form |
| NetipText.ShortenedRun | cmd/tsks-helper/routes.go:126-129 | the run of zero groups that is shortened is the first of the longest, and never a single group |
| NetipText.PrefixLength | cmd/tsks-helper/routes.go:126-129 | a printed prefix has at most 43 characters |
| Routes.CustomRoutes | cmd/tsks-helper/routes.go:79-132 | the loop over the entries computes the specification, with the same first error, its index and its entry |
| Routes.ValidateEntry | cmd/tsks-helper/routes.go:101-125 | the checks of one entry, in their order, with the scan of the prohibited ranges |
| Routes.AcceptedExactly | cmd/tsks-helper/routes.go:101-125 | an entry is accepted exactly when it denotes a masked prefix other than the default that meets no prohibited range |
| Routes.AcceptedSpellings | cmd/tsks-helper/routes.go:101-125 | without the parser: accepted are exactly the spellings of such prefixes |
| LongLists.LengthErrorExactly | cmd/tsks-helper/routes.go:82-92 | a list that is too long is blamed on the first entry with which it exceeds 2048 bytes, by its number and text |
| Routes.AcceptedRoutesAvoidProhibited | cmd/tsks-helper/routes.go:62-77 | no address of any route of an accepted list lies in a prohibited range |
| Routes.CustomRoutesCanonicalise | cmd/tsks-helper/routes.go:79-132 | an accepted list becomes its distinct prefixes in first-occurrence order, in at most 1407 bytes, and a second application returns it unchanged |
| StatusRoutes.ListRoutes | cmd/tsks-helper/routes.go:141-161 | the display loop keeps each readable masked non-default route once |
| StatusRoutes.KeptExactly | cmd/tsks-helper/routes.go:141-161 | shown are exactly the masked prefixes other than the defaults that some entry spells |
| StatusRoutes.StatusRoutesAreStable | cmd/tsks-helper/routes.go:141-161 | what is displayed is read back as itself |
| Wire.TransportIsExact | cmd/tsks-helper/routes.go:19-38 | for every text of the page the helper validates exactly its UTF-8 form, lone surrogates replaced, or refuses it as too long exactly above 2048 bytes |
| Wire.OneEncodingPerList | cmd/tsks-helper/routes.go:34-37 | each list has one accepted encoding |
| Wire.GateIsExact | cmd/tsks-helper/routes.go:25-28 | the payload gate of 2731 characters holds exactly when the list has at most 2048 bytes |
| Wire.DecodeEncode | plugin/res/tailscale3.js:93-100 | strict decoding inverts the encoding of the page |
| Wire.EncodeDecode | cmd/tsks-helper/routes.go:34-35 | what strict decoding accepts is the encoding of what it yields, as in section 3.5 of RFC 4648 |
| Wire.PointsOfUtf8 | plugin/res/tailscale3.js:93-100 | UTF-8 as in section 3 of RFC 3629 keeps every scalar value |
| Wire.Utf8OfPoints | cmd/tsks-helper/routes.go:35 | well-formed bytes are the encoding of the scalar values they denote |
| Plan.NormalizedPrefixes | cmd/tsks-helper/appconnector.go:73-88 | invalid routes are dropped, the others masked and kept once in order |
| Plan.NormalExactly | cmd/tsks-helper/appconnector.go:73-88 | the result holds exactly the masked forms of the valid routes, each once |
| Plan.BeforeIsTupleOrder | cmd/tsks-helper/appconnector.go:106-112 | the sort compares family, value and length, the first difference deciding |
| Plan.RetainLearned | cmd/tsks-helper/appconnector.go:99-105 | the learned routes in force that are not managed, each once, and the target they make with the managed ones |
| Plan.SameRoutes | cmd/tsks-helper/appconnector.go:115-121 | comparing sizes and looking up every key decides whether the two sets of routes are equal |
| Plan.PlanRoutes | cmd/tsks-helper/appconnector.go:90-122 | `keep` exactly when the current routes equal D with the retained part of P and L, and the list otherwise is the planned one |
| Plan.PlannedIsTarget | cmd/tsks-helper/appconnector.go:90-122 | the planned list denotes exactly that target, without duplicates |
| Plan.PlanIgnoresOrder | cmd/tsks-helper/appconnector.go:90-122 | order and repetition of the current and the learned routes do not matter |
| Plan.IncreasingIsUnique | cmd/tsks-helper/appconnector.go:104-113 | sorting the retained routes gives one list for each set |
| PlanText.RouteInfoPrefixes | cmd/tsks-helper/appconnector.go:124-142 | the learned routes: control routes that are not default routes, and single addresses of domains |
| PlanText.LearnedExactly | cmd/tsks-helper/appconnector.go:124-142 | learned are exactly the control routes other than the defaults and one prefix for every valid address of a domain |
| PlanText.SingleIsOne | cmd/tsks-helper/appconnector.go:136-138 | such a prefix stands for that address alone, for an IPv4 address carried by an IPv6 one for the former |
| PlanText.ReadManaged | cmd/tsks-helper/appconnector.go:144-165 | the managed list is read entry by entry, and the first bad one stops the plan |
| PlanText.RoutesPlan | cmd/tsks-helper/appconnector.go:144-190 | the printed line is `keep` or the planned list without default routes |
| PlanText.PrintedPlanIsTarget | cmd/tsks-helper/appconnector.go:144-190 | the printed list with the exit flag installs exactly the target, each route once, and planning again keeps it |
| PageSafety.ReachableIsOwned | plugin/res/tailscale3.js:200-218 | in every reachable state, across stop, resume and reload: busy has exactly one owner among pending, submitted and job, at most one request of the epoch is open, and no user action was written twice |
| PageSafety.WhoFreesTheControls | plugin/res/tailscale3.js:401-488 | controls are freed only by a rejection, a terminal record of the followed job, or word that no operation owns its missing record; a reload frees them only if nothing was stored |
| PageSafety.FreesExactly | plugin/res/tailscale3.js:401-488 | and each such reply to the open request does free them |
| PageSafety.StaysAwake | plugin/res/tailscale3.js:195-218 | a started page always has a timer or an open request |
| PageIds.WritesRepeatExactly | plugin/res/tailscale3.js:44-47 | for any two writes of any run: within one load they carry the same id exactly when the ids drawn between them are a multiple of 99999999, across loads exactly when the starts and the draws of both make up a multiple of it |
| PageIds.OneIdTwice | plugin/res/tailscale3.js:563-605 | a run of two loads that writes two actions under one id |
| PageIds.RunChained | plugin/res/tailscale3.js:401-434 | in every reachable state each write carries the id its load had reached, and later writes belong to later draws or loads |
| PageFairness.PollingIsFair | plugin/res/tailscale3.js:505-524 | whatever the replies, at most eleven other requests complete while a due read waits |
| PageFairness.ReachableIsReady | plugin/res/tailscale3.js:505-550 | every reachable state meets the premise of that bound |
| PageDues.NothingIsForgotten | plugin/res/tailscale3.js:435-504 | in every reachable state of a loaded page the job, status and interface reads have a time, the settings too unless they are there, and the log while the log of a job is followed; none is more than 11 s after the latest callback, and that of a job not more than 3 s |
| PageDues.JobIsAskedAgain | plugin/res/tailscale3.js:435-524 | whatever happened before, from 3 s after the latest callback on at most eleven other requests complete before a followed job that is not paused is asked about |
| PageDues.TimerSends | plugin/res/tailscale3.js:505-524 | while a read is due, a timer that fires with no request open sends one |
| PageDues.WaitingFollows | plugin/res/tailscale3.js:590 | a paused job can be followed again for a full window |
| PageRuns.LoadBecomesQuiet | plugin/res/tailscale3.js:563-605 | a page loaded without a stored task reads its settings first and can be used once they are there |
| PageRuns.ActionRunsThrough | plugin/res/tailscale3.js:401-550 | from any such state a click, its acceptance and a terminal record take an action through the page: written once under its own id, then the controls are free and its log is due |
| Page.TaskPage.Action | plugin/res/tailscale3.js:525-550 | a click is refused exactly when the page is busy, not ready or stopped, and is otherwise one step of the machine |
| Page.TaskPage.PumpOnce | plugin/res/tailscale3.js:505-524 | the pump, in place, submits first and otherwise issues the oldest due read |
| Page.TaskPage.FindOldest | plugin/res/tailscale3.js:517-522 | the scan of the list finds the oldest due read, the first of equals |
| Page.TaskPage.JobAnswered | plugin/res/tailscale3.js:435-488 | the callback of the job read is one step of the machine |
| Page.TaskPage.WriteAnswered | plugin/res/tailscale3.js:401-434 | the callback of a submission is one step of the machine |
| Page.TaskPage.Answered | plugin/res/tailscale3.js:200-218 | a reply of an earlier epoch or to a stopped page changes nothing; any other runs its callback once |
| Page.TaskPage.StopNow | plugin/res/tailscale3.js:606-614 | stop turns a submission under way into a job to follow |
| Page.TaskPage.ResumeNow | plugin/res/tailscale3.js:615-623 | resume re-arms the polling |
| Page.TaskPage.Init | plugin/res/tailscale3.js:563-605 | a load takes over the stored job, uncertain |
| Publishing.RunKeeps | tools/publish_core.py:114-200 | whatever is interrupted, the feed carries only the manifest of a public release whose archives match it, and a public release never changes |
| Publishing.FeedNeverFalls | tools/publish_core.py:174-181 | a feed that is up is never replaced by one whose tuple of version and build comes before, nor by other artifacts of the same one |
| Publishing.LessIsTupleOrder | tools/publish_core.py:52-53 | the order of the identities is that of the tuple of version numbers and build |
| Publishing.AllowedExactly | tools/publish_core.py:172-181 | the check passes exactly when the tuple of the candidate does not come before that of the feed that is up, and is equal only for the same artifacts |
| Publishing.RerunReusesEnvelope | tools/publish_core.py:135-160 | a rerun of a public release publishes its envelope, not the local one, and leaves the release alone |
| Publishing.FinishedRunAdvances | tools/publish_core.py:163-200 | an unbroken run whose candidate passes that check brings it to the feed |
| Publishing.LowersExactly | tools/publish_core.py:172-181 | what clients were shown is lowered exactly when no feed is up after an interrupted upload, and a lower candidate gets past the check, its versioned release and the upload |
| Publishing.LowerFeedCanFollow | tools/publish_core.py:196-200 | such a run |
| Publisher.Session.ReadOneBack | tools/publish_core.py:114-132 | an archive passes exactly when one of three attempts answers, only transient errors came before it, and it is the signed one |
| Publisher.Session.ExistingManifest | tools/publish_core.py:135-160 | a public release is matched and read back, a complete draft is matched and published; where it breaks off is determined by the site and the calls that work |
| Publisher.Session.PublishCore | tools/publish_core.py:163-200 | each run of the program is the job that breaks off where its calls do, and returns normally exactly when nothing breaks off, the candidate is allowed and its release holds its artifacts |
| Publisher.WorkingRunFinishes | tools/publish_core.py:163-200 | when every call works, an allowed candidate without a conflicting or unfinished release reaches the feed |
| LogStream.LogFiles.Stream | cmd/tsks-helper/files.go:61-106 | however the input is cut, the output is the per-line map up to the first line at which a file fault bites, and a file failure is reported exactly then; the backup followed by the live file is always a suffix of all output |
| LogStream.LogFiles.AppendEntry | cmd/tsks-helper/files.go:82-98 | rotate and append; fails exactly when a failing rename is tried, or the open or the write fails |
| LogStream.StreamStaysWithin | cmd/tsks-helper/files.go:82-87 | both files stay within the larger of the limit and the longest entry after any number of lines, faults or not |
| LogStream.NothingMovesWhileItFits | cmd/tsks-helper/files.go:82-98 | while the live file and all that is written after it fit the limit, the backup stays and the live file grows by just those entries, whatever the faults nothing is moved or dropped |
| LogStream.MovesWhenItDoesNotFit | cmd/tsks-helper/files.go:82-87 | an entry that does not fit starts a new live file, and the whole old one is the backup |
| LogStream.LinesJoin | cmd/tsks-helper/files.go:65-75 | the lines of a text cut at a line start are those of its parts |

## Left out

- HTTP, LocalAPI, DNS, downloads, `gh` and `curl` are steps with arbitrary outcomes; JSON parsing is not modelled.
- Ed25519, SHA-256, archives and ELF files: a signed or hashed thing is identified with its contents.
- Durability order: a completed rename or removal is taken to survive a power loss, so `sync` is no step.
- Process control: scanning for the daemon, signals, the FIFO and cron are reduced to whether a daemon runs and what a stop reports.
- `ts_core_space`, the download and the installation of `ts_core_update` are steps of the core machine but not methods of `CoreScripts`.
- Publishing into an existing core directory, and `ts_core_health` beyond an arbitrary verdict.
- The statements on the core speak of runs that begin without a journal.
- WatchdogSafety.RunKeepsGap: assumes that each ledger holds the line of its own recovery; `WatchdogBudget.GapKeptExactly` says what the first loss of one does.
- WatchdogSafety.RunKeepsBudget: assumes the same of all lines; `WatchdogBudget.BudgetKeptExactly` says what the first loss does.
- A truncation of `watchdog-ledger.new` that fails.
- NatEvents.RunKeepsRecord: excludes the losing steps; `NatEvents.LosesExactly` says what one of them does; the gates of a tick, such as a manual stop, are outside this machine.
- The page machine has one browser tab; reading storage back is exact, writing it may fail.
- PageFairness.PollingIsFair: counts while the clock of every callback has passed the due time of the waiting read; a clock set back can delay any read.
- iptables commands fail only by finding no rule or no chain, or as whole commands of an apply; waiting for the xtables lock is not modelled. The two binaries are modelled one at a time.
- `tailscale_job` and the NAT protocol are modelled as interleaved steps, not as methods, because what they promise is about other processes.
- `routeError.Error` and the texts of the page; the page shows a reason, the model names it.
- Redaction rules, DOM rendering, `install.sh`, packaging, build and smoke scripts.
- A failing `Stat` in `logStream`, which skips a rotation.
- Connector status, DNS priming and domain assignment in `appconnector.go`.
