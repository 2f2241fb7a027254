# Vynil: models and proofs

Vynil is a Kubernetes package operator. Jukeboxes list packages found by scan jobs; instances ask for a
package and get an install job; an agent inside the job reports into the instance's status. This project
models the parts of Vynil that decide something, and proves what they keep over whole runs. Every API
call, clock and script is an answer of the environment, and every theorem is for all answers.

| module | what it models |
|---|---|
| `Anonymize` | the secret scrubber: successive leftmost replacement inside one buffer |
| `Redactions` | the header that reports the scrub counts, and the client's reader of it |
| `ScanProtocol` | the jukebox controller as API-call steps, interleaved with job progress and other users |
| `ScanRound` | one undisturbed scan reconcile: its steps against the code read from top to bottom; the protocol's logs |
| `JobClient` | the command-line client that annotates, polls for another uid, then for an outcome |
| `Semver` | versions: parsing, printing, the derived order, the bumps |
| `Packages` | package selection, the upgrade chain, partial scans |
| `Reconcile` | the gates of an instance reconcile, the first-restoration version, cleanup |
| `Promises` | what a reconcile and a cleanup promise, on the answers, the cached packages' fields and the status |
| `InstanceStatus` | the status machine of the three instance kinds |
| `PackageCache` | the operator's per-jukebox cache |
| `TtlCache` | the double-checked time-to-live cache under concurrent callers |
| `FileJukeBox` | the file-backed jukebox index |
| `MockStore` | the mock object store with recursive merge |
| `Lint` | lint directives in comments |
| `Strings` | decimal numbers, splitting, trimming |

Objects that the source changes in place are classes whose methods are proved against a function of the
old state; concurrent parts are state machines whose theorems quantify over every sequence of steps.

## Where the code does less than its words

* **Scrubber.** A secret is gone from every final text exactly when the marker `<anonymized>` cannot be
  laid over it so that the two agree wherever they overlap (`Anonymize.ScrubbedIffNoClash`). Secrets
  without `<` and `>` that are no part of `anonymized` always meet this. The word `anonymized` itself
  passes the domain check `is_scrubbable` and survives its own scrubbing.
* **Force-scan.** The comment says the annotation goes only after the job was created. That holds for *a*
  job with the filter; it is this reconcile's own job when the job read was answered and the delete of
  the old job was not refused. The request a reconcile began with can be lost exactly when a job with the
  asked filter is there already (`ScanProtocol.LossIffSameFilter`); a request written over another one
  can be removed with it (`ScanProtocol.RewrittenRequestIsDropped`); and the client can take another scan
  for its own (`ScanProtocol.ClientSeesItsScanIff`). A forced reinstall has the same gap over a job with
  the wanted template (`Reconcile.ReinstallLossIffSameTemplate`).
* **Notes.** The operator builds the condition list of a note from the object its reconcile was handed, and
  the patch replaces the list. What the agent wrote since is dropped, and a first success reported in
  between leaves the tag without Ready and Installed (`Reconcile.SoundThroughoutIff`).
* **Minimum previous version.** The requirement check always says yes and relies on the selection, which
  looks at the first such requirement only; that is sound exactly for packages none of whose readable
  minimums is above the first (`Packages.MinimumsMetIffSound`).
* **Cluster version.** The check renders the members of the API server's version as JSON and parses the
  rendering as a number. For text members, which is how Kubernetes reports them, the rendering keeps its
  quotes and the check errs whatever the versions are (`Reconcile.ClusterCheckMeaning`).
* **First restoration.** `initFrom.version` can be used once more after the first success, by a reconcile
  that was in flight (`Reconcile.InFlightOverride`). Such a job installs `initFrom.version`, while the
  requirements checked, and the image, are those of the selected package.
* **Bumps.** The release build has no overflow checks: `beta.4294967295` is bumped to `beta.0`.
* **Version order.** The derived order compares the `v` prefix last: `1.0.0 < v1.0.0`.
* **File jukebox.** Keys that share a file, such as `a_b`/`c` and `a`/`b_c`, or `./b`/`c` and `b`/`c`,
  overwrite each other's packages; a history is read back faithfully exactly when no two of its keys do
  and none falls on the index (`FileJukeBox.FaithfulIffNoClash`). A write that breaks the index is not
  healed by writing again; an index cut between two entries loses keys without an error.
* **Mock store.** A write of anything but a map of the handle's kind ends up twice in `created`, or there
  as no map.
* **Cleanup.** With the jukebox missing from the cache a cleanup finishes at once, children or not.
* **Services.** `set_services` sends no `conditions`; on an instance without a status the schema refuses it.

## Model

| member | source | states |
|---|---|---|
| Anonymize.ScrubSecrets | server/src/anonymize.rs:114-135 | the in-place loop yields the successive replacement and its two counts, and no clash-free secret of the list occurs in the result |
| Anonymize.ReplacedAtLeftmostMatches | server/src/anonymize.rs:119-129 | the text is cut into pieces at its leftmost non-overlapping occurrences; putting the secret back between them gives the text, putting the marker there gives the result, and the count is the number of cuts |
| Anonymize.CountAtItsTurn | server/src/anonymize.rs:119-129 | the count of a secret is taken in what the secrets before it left |
| Anonymize.PositivesAreFound | server/src/anonymize.rs:124-134 | the reported distinct number is the number of list positions whose secret was found |
| Anonymize.SumOfParts | server/src/anonymize.rs:124-134 | the reported occurrences are the counts added up |
| Anonymize.ScrubbedIffNoClash | server/src/anonymize.rs:112-135 | a scrubbable secret is absent from the final text, for every text and every list of distinct scrubbable secrets that names it, in any order, if and only if the marker cannot be laid over it (the witness text for the failing direction needs one character outside the secret) |
| Anonymize.ReplaceCreatesNothing | server/src/anonymize.rs:125 | replacing one secret leaves no occurrence of a clash-free secret that was not there before, and none of itself |
| Anonymize.NoSecretSurvives | server/src/anonymize.rs:119-129 | once replaced, a clash-free secret stays absent through every later replacement |
| Anonymize.PlainSecretsNeverClash | server/src/anonymize.rs:9 | secrets with neither angle bracket that are no part of the marker's word are in the good domain |
| Anonymize.ClashLeaks | server/src/anonymize.rs:54-70 | every clash has a text and a list the program can collect for which the secret is still in the output |
| Anonymize.PartsOfTheMarkerSurvive | server/src/anonymize.rs:119-129 | a secret that is part of the marker survives its own scrubbing in every text holding it |
| Anonymize.ScrubbableMarkerPart | server/src/anonymize.rs:73-78 | the domain check lets such a secret in |
| Anonymize.ScrubbableIff | server/src/anonymize.rs:73-78 | an ASCII text is scrubbable iff it has eight characters and is no common word in any mixture of cases; four two-byte characters are long enough, two three-byte ones are not |
| Anonymize.Utf8LenByRange | server/src/anonymize.rs:73-78 | the length is in bytes: one to four a character, by its range, and additive |
| Anonymize.MatchesIffOccurs | server/src/anonymize.rs:123 | the leftmost non-overlapping count is positive exactly when the secret occurs |
| Anonymize.LengthAccounting | server/src/anonymize.rs:114-135 | final length is initial length plus, per secret, its count times the marker's length minus its own |
| Anonymize.NothingReportedIffNothingFound | server/src/anonymize.rs:124-134 | zero counts exactly when no secret occurs, and then the text is untouched |
| Redactions.ParseRedactions | kubectl-vynil/src/transport.rs:180-197 | the loop over header parts computes the specified reading: unknown parts skipped, a bad number rejects, both numbers needed |
| Redactions.HeaderRoundTrip | server/src/server.rs:383-386 | whatever the scrubber counted, the client reads the same two numbers from the header |
| Redactions.LenientRead | kubectl-vynil/src/transport.rs:180-197 | space around the parts, a plus sign, an unknown part and an earlier value make no difference, in either order of the numbers; a number past 64 bits is refused |
| ScanProtocol.RemovedOnlyAfterCreation | operator/src/jukebox.rs:112-184 | in every interleaving with failing calls, a removed force-scan annotation had a scan job created before with the filter it stands for, and the removed value is the one the reconcile started from unless rewritten meanwhile |
| ScanProtocol.OperatorScansAsAsked | operator/src/jukebox.rs:221-228 | in every run, a job the operator makes has no filter if the annotation its reconcile began with was absent, empty or `true`, and that annotation as its filter otherwise |
| ScanRound.RoundIsSequential | operator/src/jukebox.rs:45-188 | for all replies of the API server, the steps of a reconcile that nobody interferes with end with the job and the annotation that the code read from top to bottom gives |
| ScanRound.UndisturbedIsSequential | operator/src/jukebox.rs:45-188 | and every such run of the protocol, to its end, is one of these |
| ScanRound.NothingIsUnlogged | operator/src/jukebox.rs:118-184 | in every run of the operator alone a changed annotation is a logged removal, and a changed job a logged deletion or creation |
| ScanRound.DeletionIsAsItWas | operator/src/jukebox.rs:118-160 | a deletion is logged with its round and with whether the deleted job was over |
| ScanRound.MarksAreTrue | operator/src/jukebox.rs:45-188 | in every run, a removal is marked rewritten, foreign, refused or unanswered only if that happened |
| ScanProtocol.CleanRoundsScanAfresh | operator/src/jukebox.rs:112-184 | if the job read was answered and the delete not refused, that job's uid is new in this reconcile and, unless somebody else created it, the operator made it |
| ScanProtocol.LostOnlyOverTheSameFilter | operator/src/jukebox.rs:62-184 | in every run, a removal whose job is older than its reconcile had a failed read or a refused delete, and the job it began with carried the asked filter |
| ScanProtocol.RequestCanBeLost | operator/src/jukebox.rs:64-78 | over such a job each of the two failures has a run that removes the annotation and creates nothing |
| ScanProtocol.LossIffSameFilter | operator/src/jukebox.rs:62-184 | for every state before a reconcile: some run of it loses the request it began with if and only if a job with the asked filter is there |
| ScanProtocol.FirstNewJobIsTheClients | kubectl-vynil/src/actions.rs:150-166 | if the reconciles in flight agree and no job of the same partial filter is there, the first job with a new uid after the client's annotation carries its filter, in every run without other annotators and creators |
| ScanProtocol.ClientSeesItsScanIff | kubectl-vynil/src/actions.rs:150-166 | wherever the operator is when the client annotates, that holds in all such runs if and only if the reconcile in flight asks for the same scan, can create no job any more, or has only a full scan's annotation to remove, and no job of the same partial filter is there |
| ScanProtocol.VerdictIsOfTheClientsScan | kubectl-vynil/src/actions.rs:150-173 | on the history of such a run, a verdict's job not seen at the read carries the client's filter, if nobody created a job before the annotation and one job was created since |
| ScanProtocol.RewrittenRequestIsDropped | operator/src/jukebox.rs:169-181 | a request written between the creation and the removal for another one is removed with it, without a scan |
| ScanProtocol.OnlyTerminalJobsAreDeleted | operator/src/jukebox.rs:62-78 | with an answered read and no foreign creation, reconcile deletes only a terminal job, and only for a force-scan |
| ScanProtocol.ForcedScanRuns | operator/src/jukebox.rs:112-184 | a forced reconcile over an absent or finished job with all calls answered leaves one new job with the filter the annotation stands for (none if it is empty or `true`) and no annotation |
| ScanProtocol.StepKeepsInv | operator/src/jukebox.rs:45-188 | every step of operator, job controller, users and foreigners keeps the protocol invariant |
| ScanProtocol.RunsNeverReuse | operator/src/jukebox.rs:45-188 | every run of the protocol is a job history in which a vanished uid never returns |
| JobClient.TriggerAndWait | kubectl-vynil/src/actions.rs:138-173 | on every such history the verdict is the outcome of a job that existed at no instant up to the read of the old uid, although the second wait looks up by name; the error outcomes say what was seen |
| JobClient.WaitJobRecreated | kubectl-vynil/src/actions.rs:71-93 | stops at the first poll that fails or shows another uid, or at the deadline |
| JobClient.WaitJobTerminal | kubectl-vynil/src/actions.rs:96-125 | stops at the first poll that fails or shows an ended job, with that job's first ending condition, or at the deadline |
| JobClient.TerminalIffOutcome | operator/src/jukebox.rs:230-238 | operator and client agree on which jobs are over |
| JobClient.FirstEndIsOutcome | kubectl-vynil/src/actions.rs:96-125 | the first condition of status True that says Complete or Failed is the outcome, and without one the job is not over |
| Semver.ParsePrint | core/src/semver.rs:86-94 | every valid version prints to a text that parses back to it, `v` included |
| Semver.PrintParse | core/src/semver.rs:12-22 | every text that parses is the print of a valid version |
| Semver.TotalOrder | core/src/semver.rs:5-10 | the derived order, precedence then build metadata then prefix, is total, transitive, and equal only on equal values |
| Semver.PrefixBreaksTies | core/src/semver.rs:5-10 | a leading `v` raises an otherwise equal version |
| Semver.NumericIdentsCompareAsNumbers | core/src/semver.rs:5-10 | length-then-text comparison of numeric identifiers is numeric, as section 11 of Semantic Versioning 2.0.0 asks |
| Semver.NumbersDecide | core/src/semver.rs:5-10 | major, minor and patch decide in this order, then a release is above its pre-releases, and build metadata does not count (section 11) |
| Semver.PreReleasesDecide | core/src/semver.rs:5-10 | of two pre-releases of one version the first different identifier decides, and if there is none the longer list is above (section 11) |
| Semver.WordsAreAboveNumbers | core/src/semver.rs:5-10 | a numeric identifier is below a word (section 11) |
| Semver.TextDecides | core/src/semver.rs:5-10 | words compare character by character, a proper prefix being below (section 11) |
| Semver.BuildIdentsDecide | core/src/semver.rs:5-10 | build identifiers: numbers before words, by value, and equal values by their leading zeros |
| Semver.OrderDecides | core/src/semver.rs:5-10 | the derived order: precedence, then build metadata, then no prefix before `v` |
| Semver.SemverCell.IncMajor | core/src/semver.rs:32-37 | raises major, wrapping as the release build does, clears minor, patch and pre-release |
| Semver.SemverCell.IncMinor | core/src/semver.rs:39-43 | raises minor, wrapping, clears patch and pre-release |
| Semver.SemverCell.IncPatch | core/src/semver.rs:45-51 | clears a pre-release, or raises patch, wrapping, when there is none |
| Semver.SemverCell.IncStage | core/src/semver.rs:53-79 | on another pre-release or none, raises patch, wrapping, and starts the stage's counter at 1; on its own stage keeps patch and raises the counter, wrapping, or reports the panic on a counter that is not read; major, minor and build stay |
| Semver.BumpStep | core/src/semver.rs:32-82 | one bump of a release, `alpha.n` or `beta.n` without overflow stays among them, keeps the build, and strictly raises section 11 precedence |
| Semver.BumpRun | core/src/semver.rs:32-82 | every bump sequence none of whose steps overflows never panics, raises precedence at each step, and ends on a version that prints and parses back |
| Semver.BumpRaisesIff | core/src/semver.rs:32-82 | in the release build a bump of these versions raises section 11 precedence if and only if it does not overflow; otherwise it panics or goes down |
| Semver.StagePanicsIff | core/src/semver.rs:53-79 | a stage bump of any valid version panics exactly on a pre-release of that stage that is not the stage and a printed 32-bit counter |
| Packages.SemverIsLawful | core/src/semver.rs:5-22 | the repository's reading and order are an instance of everything proved in this module |
| Packages.SelectedIsFirstThatSuits | operator/src/instance_common.rs:373-383 | the selected package has the wanted name, category and usage, and its first stated vynil version and first stated minimum, where they can be read, are at most the operator's and the installed version; every earlier package fails one of the five |
| Packages.SuitsIffEligible | common/src/vynilpackage.rs:454-484 | for each package, those five are what the checks of the selection decide |
| Packages.MinVersionIsFirst | common/src/vynilpackage.rs:427-434 | the minimum is the first requirement of its kind |
| Packages.MinimumsMetIffSound | common/src/vynilpackage.rs:191-194 | the always-true check is sound for a package, whatever is installed, if and only if no readable minimum of it is above the first (or below every version) |
| Packages.UnsoundIsSelected | common/src/vynilpackage.rs:454-468 | every other candidate is selected, from some version, with a minimum missed |
| Packages.OneMinimumIsSound | common/src/vynilpackage.rs:427-434 | a package with at most one minimum is sound |
| Packages.SelectedIsHighest | operator/src/instance_common.rs:373-383 | in a descending catalogue the first eligible package, the one that meets the five conditions of `SuitsIffEligible`, has the highest tag of all that do |
| Packages.InstallsNeverGoDown | operator/src/instance_common.rs:373-383 | from a candidate's tag, no number of installs ends lower |
| Packages.SettlesWithinCandidates | operator/src/instance_common.rs:373-383 | from any tag, repeated installs reach a fixed point within as many steps as there are candidates |
| Packages.GreedyIsOptimal | operator/src/instance_common.rs:373-383 | no other sequence of eligible installs from the same tag ends above that fixed point |
| Packages.GoesDownIffLeftBehind | operator/src/instance_common.rs:373-383 | in every descending list, the install after a package goes down if and only if neither it nor anything above it is eligible from its tag and something below it is |
| Packages.CatalogueLeavesNothingBehind | operator/src/instance_common.rs:373-383 | minimums at most their own tag leave no package behind |
| Packages.FilterPackages | common/src/jukebox.rs:427-440 | retain-then-extend yields the packages outside the filter followed by the new ones, and if every new one matches, selection from it is selection from the new list inside the filter and from the old list outside |
| Packages.MergePackages | common/src/jukebox.rs:377-388 | the merge for the text of a filter, with the same consequence for the keys that text stands for |
| Packages.SplitFilterMeaning | common/src/jukebox.rs:377-381 | the split at the first slash covers a key exactly when the text is its category, or its category and name |
| Packages.PartialScanLooksLikeRescan | common/src/jukebox.rs:377-440 | for every filter text, reading of versions, key, usage and installed tag, the merged list selects what a rescan would |
| Reconcile.Instance.DoReconcile | operator/src/instance_common.rs:318-463 | for the object handed over and the object as it is, the early-return code gives the outcome, note, annotation and job of the gate specification; notes are built from the object handed over |
| Reconcile.Instance.Install | operator/src/instance_common.rs:465-490 | past the gates: the annotation, then the forced delete, then the upsert |
| Reconcile.Instance.CheckRequirements | operator/src/instancesystem.rs:75-88 | the first requirement whose check does not pass decides: an error stops, a failure is noted and requeues; what passes and fails is `Promises.CheckMeaning` |
| Reconcile.Instance.UpsertJob | operator/src/instance_common.rs:253-286 | patch, else delete, wait and create, with every failing call |
| Reconcile.Instance.DeleteJobAndWait | operator/src/instance_common.rs:234-249 | a refused delete is no error, a wait that times out is |
| Reconcile.Instance.DoCleanup | operator/src/instance_common.rs:497-625 | the outcome and job a cleanup leaves |
| Reconcile.ReconcileConverges | operator/src/instance_common.rs:253-490 | with open gates and answered calls a reconcile installs over any job there is, a forced one with a new uid, and the next one over the same answers keeps that very job |
| Reconcile.ReinstallLossIffSameTemplate | operator/src/instance_common.rs:465-490 | some answers of the job calls let a forced reinstall report success without a new job if and only if the job there has the wanted template: tag, registry, image, options digest, pull secret, recommendations and values |
| Promises.CheckMeaning | common/src/vynilpackage.rs:117-391 | a check passes iff the requirement is satisfied by the answers and fails iff it is refuted by them: a CRD, preflight script, system package or system service (for tenants also the two tenant ones) by the probe's yes or no, a vynil or cluster version by the order; an unanswered probe is an error, and storage, minimum, CPU, memory and disk requirements always pass |
| Promises.SelectedIsFirstFor | operator/src/instance_common.rs:373-383 | an instance's package is the first of its jukebox's cached list with its name, category, the usage of its kind, and first stated versions that are met or unreadable; none is selected iff there is none |
| Promises.OpenIffWarranted | operator/src/instance_common.rs:318-463 | all gates are open iff the instance is not suspended, such a package is there, the version to restore, if any, is cached or in the registry, every requirement is satisfied, and recommendations and values are answered |
| Promises.UpsertIsWarranted | operator/src/instance_common.rs:318-490 | a reported upsert had that warrant, and the job there has action `install`, the restored or the package's tag, its registry and image, the digest of the options, the jukebox's pull secret, the answered recommendations and values |
| Promises.WarrantIsServed | operator/src/instance_common.rs:318-490 | with a warrant and all calls answered the upsert is made, over any job, a forced one with a new uid |
| Promises.ForceGoesFirst | operator/src/instance_common.rs:465-490 | a forced reinstall takes the annotation out first, failing if it is gone already, then the old job; a job that was seen and deleted is replaced by a new one or none, and one that does not go stops the reconcile |
| Promises.EarlyGates | operator/src/instance_common.rs:326-395 | suspended: nothing; jukebox not cached or no package: exactly one condition becomes false with its message, the others are those of the object handed over, and fields stay |
| Promises.RestorationGate | operator/src/instance_common.rs:184-229 | a version to restore that is neither cached nor in the registry is noted, an unanswered registry stops |
| Promises.RequirementGate | operator/src/instancesystem.rs:75-88 | the first requirement that is not satisfied: refuted, it blocks and is noted; not refuted, the reconcile stops and changes nothing |
| Promises.OutcomeNamesTheGate | operator/src/instance_common.rs:326-429 | what each outcome says of the answers, the cached list and the object; `Blocked(i)` on a probed requirement means the probe said no, all before were satisfied, and an ignored requirement never blocks |
| Promises.JobPassedEveryGate | operator/src/instance_common.rs:318-490 | in every run, a job that is there was upserted by a reconcile with a warrant for the first package for its instance, and carries exactly that reconcile's template |
| Promises.UpsertMeaning | operator/src/instance_common.rs:253-286 | for all calls: when an upsert succeeds, when it keeps the job, and that it replaces one only after it was deleted and gone |
| Promises.DeleteMeaning | operator/src/instance_common.rs:234-249 | a delete leaves the job iff it is refused or the job does not go; only the second is an error |
| Promises.CleanupWithPackage | operator/src/instance_common.rs:553-625 | a cleanup that finishes made a new delete job, with action `delete`, the selected package's own tag and no recommendations, and ran it to its end; it takes it away iff the delete is answered; nothing but the job changes |
| Promises.CleanupWithoutPackage | operator/src/instance_common.rs:497-551 | without a package it changes nothing, and finishes unless children are recorded and the jukebox is cached |
| Promises.FieldsAreReports | common/src/instance_macros.rs:433-882 | after every run of the whole system the tofu and rhai states, the tag and the digest are those the agent last reported, whatever the operator noted |
| Reconcile.FieldsOfARun | operator/src/instance_common.rs:318-493 | after every run of reconciles, agent calls and edits the fields of the status are those that the setter calls of the run make, whichever objects they held |
| Reconcile.ConditionsOfARun | common/src/instance_macros.rs:352-402 | and the conditions are those of the shown calls: a patched note forgets what was called since its object was handed over |
| InstanceStatus.ListedAfterGuarded | common/src/instance_macros.rs:596-609 | a note lists its own condition and what its object lists of the other types: it drops what was written since and brings back what was cleared since |
| Reconcile.SystemRunHasNoDuplicates | common/src/instance_macros.rs:365-378 | no run of the whole system lists a condition type twice |
| Reconcile.SystemStatusSoundIff | common/src/instance_macros.rs:352-402 | after every run Ready, Installed, tag and digest belong together if and only if the conditions show a success or none was reported |
| Reconcile.SoundThroughoutIff | operator/src/instance_common.rs:362-395 | they belong together throughout a run if and only if no first success is reported between the hand-over and the patch of a note |
| Reconcile.FirstSuccessCanBeHidden | operator/src/instance_common.rs:362-369 | such a run exists for every fresh object whose jukebox is not cached |
| Reconcile.AnnotationGoesBeforeTheJob | operator/src/instance_common.rs:465-485 | in every run of operator and agent, as long as the force-reinstall annotation stands the job and its uid are untouched |
| Reconcile.UpsertedMeetsVersions | common/src/vynilpackage.rs:117-205 | an upserted package meets every vynil version it states, and every minimum when its minimums are sound |
| Reconcile.InitFromOnlyBeforeFirstSuccess | operator/src/instance_common.rs:184-229 | in every run in which agent and user act between the hand-over and the upsert, once a tag is reported at most one more job has a tag other than the selected one, and none unless a reconcile was in flight without a tag |
| Reconcile.InFlightOverride | operator/src/instance_common.rs:201-204 | that one does occur: a report between the hand-over and the upsert |
| Reconcile.ClusterCheckMeaning | common/src/vynilpackage.rs:130-148 | the cluster-version check errs exactly when a member of the reported version is no 64-bit number, as with texts, and otherwise compares major and minor lexicographically |
| Reconcile.CleanupSparesChildren | operator/src/instance_common.rs:518-551 | after every run, with the jukebox cached and nothing eligible, cleanup finishes exactly if the agent reported no children up to the hand-over, and changes nothing |
| Reconcile.OrphansIffUncached | operator/src/instance_common.rs:497-625 | after every run that reported children, cleanup finishes without a delete job if and only if the jukebox is not cached; any other finishing one ran the selected package's delete job to its end |
| InstanceStatus.Instance.GetConditionsExcluding | common/src/instance_macros.rs:365-378 | keeps, in order, the conditions of all other types |
| InstanceStatus.Instance.SetGuarded | common/src/instance_macros.rs:575-694 | guarded setters patch only when their condition is not there yet |
| InstanceStatus.Instance.SetStageOk | common/src/instance_macros.rs:433-458 | tofu, rhai and stage setters replace their stage's condition and record their field; which condition and which field, `StageOkEffect` and `FieldsAreLastCalls` say |
| InstanceStatus.Instance.SetStageFailed | common/src/instance_macros.rs:460-502 | a failure writes its stage and Installed false, and Ready false only if Ready is absent |
| InstanceStatus.Instance.SetStatusReady | common/src/instance_macros.rs:850-882 | writes Ready and Installed true, tag and digest, and clears the failures of its kind |
| InstanceStatus.Instance.SetServicesList | common/src/instance_macros.rs:906-915 | records services, refused without a status |
| InstanceStatus.StageOkEffect | common/src/instance_macros.rs:433-529 | each of these makes its own type true with its own message at the object's generation and leaves all other types as they are |
| InstanceStatus.GuardedEffect | common/src/instance_macros.rs:575-694 | a guarded setter that patches makes its own type true or false with its message and leaves all others |
| InstanceStatus.StageFailedEffect | common/src/instance_macros.rs:460-573 | a failure makes its stage and Installed false for its reason, takes AgentStarted out, makes Ready false only where it was not listed, and leaves all others |
| InstanceStatus.ReadyEffect | common/src/instance_macros.rs:850-882 | a success makes Ready and Installed true, takes AgentStarted out, for services and tenants also BeforeApplied, InitFrom and ScheduleBackup, and leaves all others |
| InstanceStatus.FieldsAreLastCalls | common/src/instance_macros.rs:433-915 | after every run of setters tfstate and rhaistate are the texts of the last answered setter of each, tag and digest those of the last success, services those of the last accepted list |
| InstanceStatus.EveryListCounts | common/src/instanceservice.rs:137-177 | `have_child` looks at exactly the child lists that the kind has setters for |
| InstanceStatus.FailuresMatchLists | common/src/instance_macros.rs:917-1320 | a kind can report the failure of exactly the stages it can report applied and, but for the system kind, of the restoration and the backup schedule |
| InstanceStatus.ConditionsAreSurvivors | common/src/instance_macros.rs:365-402 | after every run of setters the condition list is, in order, exactly the writes nothing has cleared |
| InstanceStatus.RunHasNoDuplicates | common/src/instance_macros.rs:433-694 | no condition type is listed twice |
| InstanceStatus.ListedIsLatest | common/src/instance_macros.rs:433-694 | a listed condition is the latest write of its type |
| InstanceStatus.LastEntryIsLastWrite | common/src/instancesystem.rs:25-27 | the last entry, shown as the stage, is the last write of the run |
| InstanceStatus.GuardedTwice | common/src/instance_macros.rs:575-694 | a guarded setter repeated on its own result changes nothing |
| InstanceStatus.ReachableReady | common/src/instance_macros.rs:850-882 | in every reachable status Ready is there iff Installed is, Installed true comes with Ready true, and Ready is true iff tag and digest are set |
| InstanceStatus.ReadyStaysTrue | common/src/instance_macros.rs:460-502 | no run brings Ready back from true |
| InstanceStatus.FailureShownIffUnresolved | common/src/instance_macros.rs:1247-1320 | for services and tenants, an init-from or schedule-backup condition stands exactly while its failure has not been followed by a success |
| InstanceStatus.HaveChildIffRecorded | common/src/instanceservice.rs:137-177 | for all three kinds, `have_child` is true iff a tofu or rhai state was ever recorded or the latest list of some child kind is not empty |
| InstanceStatus.FieldsFollowCalls | common/src/instancesystem.rs:120-140 | some state is recorded iff a state setter was answered, each child list is that of its last answered setter, and only lists the kind has are there |
| PackageCache.Context.OnReconcile | operator/src/manager.rs:50-71 | the guarded upsert of a reconcile is the unguarded one |
| PackageCache.Context.OnCleanup | operator/src/manager.rs:64-66 | drops the jukebox's entry |
| PackageCache.Context.Rebuild | operator/src/manager.rs:148-165 | the start-up loop caches every jukebox that has a status |
| PackageCache.CacheIsLastSnapshots | operator/src/jukebox.rs:55-60 | from the rebuild at the start, after every history of reconciles and cleanups the cache is the last status-bearing snapshot of each jukebox, reconciled since its last cleanup or listed at the start |
| PackageCache.CacheEqualsRebuild | operator/src/manager.rs:148-165 | the running cache equals the rebuild iff those snapshots are the listed objects' |
| PackageCache.SettledCacheIsRebuild | operator/src/manager.rs:148-165 | so it does when every object has a status and was seen as it is now, and all others were cleaned up or never seen |
| TtlCache.StepKeepsInv | common/src/ttl_cache.rs:17-39 | every step of every caller, including a dropped future, keeps the cache invariant |
| TtlCache.AtMostOneRefresh | common/src/ttl_cache.rs:26-36 | never two refreshes in flight |
| TtlCache.CachedAnswersAreYoung | common/src/ttl_cache.rs:18-34 | the time of a cached answer is that of a successful refresh, less than the ttl before its check |
| TtlCache.StoredIsLastRefresh | common/src/ttl_cache.rs:36-38 | after every run the stored pair is the time and the value of the last successful refresh |
| TtlCache.AnswersComeFromRefreshes | common/src/ttl_cache.rs:17-39 | every cached answer is the pair of the last successful refresh before the caller's own check, still young then; every fresh answer is the value of the caller's own refresh |
| TtlCache.RefreshesInWindow | common/src/ttl_cache.rs:17-39 | a window of length T holds at most T/ttl + 1 successful refreshes |
| TtlCache.PairStaysWithoutSuccess | common/src/ttl_cache.rs:36-38 | in every run segment, failed and dropped refreshes leave the stored pair as it was |
| TtlCache.SomeoneCanMove | common/src/ttl_cache.rs:17-39 | an unanswered caller is never stuck behind a lock that nobody can give up |
| FileJukeBox.FileJukeBox.WriteToCache | common/src/jukebox_file.rs:72-113 | groups by key, appends new keys to the index, overwrites the keys' files; a broken index changes nothing; a file write that fails leaves the files before it and the old index |
| FileJukeBox.RetryHealsIff | common/src/jukebox_file.rs:81-110 | writing the same packages again after a failed write gives what the write would have given if the index was spared; over an index that is cut but still read it succeeds, the same exactly if the entries come out the same, with a key indexed exactly if the cut index or the packages name it; over a broken one every later read and write fails |
| FileJukeBox.FileJukeBox.ReadAllFromCache | common/src/jukebox_file.rs:51-70 | concatenates the indexed files in index order, skips those that are missing, and reports one that cannot be read |
| FileJukeBox.ReadsInOrder | common/src/jukebox_file.rs:51-70 | reading is entry by entry: an absent file adds nothing, a package file its packages, and one file that is none spoils the read |
| FileJukeBox.GroupedIsPartition | common/src/jukebox_file.rs:72-90 | the grouping holds each key once, with exactly its packages in order |
| FileJukeBox.GroupedInKeyOrder | common/src/jukebox_file.rs:72-90 | the groups stand in strictly ascending order of their keys |
| FileJukeBox.KeyLessOrder | common/src/jukebox_file.rs:72-75 | that order is strict and total, by the category and for equal ones by the name |
| FileJukeBox.TextLessMeaning | common/src/jukebox_file.rs:72-75 | texts are ordered by the first different character, a proper prefix being below |
| FileJukeBox.ReadIsLastWrites | common/src/jukebox_file.rs:51-113 | wherever file names end up, after any clash-free history a read gives, key by key in first-write order, the packages of the last write naming the key |
| FileJukeBox.FaithfulIffNoClash | common/src/jukebox_file.rs:51-113 | wherever file names end up, a history is read back faithfully if and only if no two of its keys share a file and none has the index for its file |
| FileJukeBox.PlainHistoriesAreFaithful | common/src/jukebox_file.rs:51-113 | where names without slashes are told apart, keys without slashes and categories without underscores are enough |
| FileJukeBox.UnderscoresLoseAKey | common/src/jukebox_file.rs:91-94 | everywhere, two keys that differ by the place of an underscore are not both read back |
| FileJukeBox.KeysAreTheKeysWritten | common/src/jukebox_file.rs:92-104 | the index holds each written key once and no other |
| FileJukeBox.OneWriteIsPermutation | common/src/jukebox_file.rs:51-113 | one write then read is a permutation of the input |
| MockStore.MergeTwice | core/src/k8s_mock.rs:187-202 | applying a patch twice is applying it once |
| MockStore.MergeAbsorbs | core/src/k8s_mock.rs:187-202 | merging the merged value again changes nothing |
| MockStore.MergeByPath | core/src/k8s_mock.rs:187-202 | path by path: what the patch sets reads as in the patch, merged where both have a map; what it leaves alone reads as in the base; what lies below a value it sets is gone |
| MockStore.MergeWithExisting | core/src/k8s_mock.rs:204-247 | merges with the first entry of the same kind, name and namespace |
| MockStore.UpsertInList | core/src/k8s_mock.rs:249-294 | replaces that entry or appends |
| MockStore.PreparedByPath | core/src/k8s_mock.rs:507-571 | a writer fills in the kind where there is none, `apply` also the namespace into metadata that has none, and changes no other member |
| MockStore.Store.RhaiApply | core/src/k8s_mock.rs:507-534 | both lists after an apply |
| MockStore.Store.RhaiReplace | core/src/k8s_mock.rs:536-547 | both lists after a replace |
| MockStore.Store.RhaiCreate | core/src/k8s_mock.rs:560-571 | both lists after a create |
| MockStore.CreatedMirrorsLive | core/src/k8s_mock.rs:507-571 | over every sequence of writes of the handle's own kind, `created` has one entry per key and it equals the first live one |
| MockStore.WrittenIsCreated | core/src/k8s_mock.rs:507-571 | the object just written is in `created` as the live object it now is |
| MockStore.MirrorKeptIffOwnKind | core/src/k8s_mock.rs:507-571 | a write keeps every mirror if and only if it is of a map whose kind is absent or the handle's own, whatever its verb, namespace and data |
| Lint.ParseInlineDisables | agent/src/linting/config.rs:128-191 | the one-pass scan lists rule r for line n iff n is no block directive and the last earlier directive naming r is a disable, or the first inline form with a rule list names r; no listed set is empty, lines count from 1 |
| Lint.ParseRules | agent/src/linting/config.rs:198-216 | a rule is listed iff it is a part's first word and only rules or nothing come before |
| Lint.TokenIsTheWord | agent/src/linting/config.rs:200-205 | the token of a part is its first word without the closers of block and Handlebars comments |
| Lint.WrittenRulesAreRead | agent/src/linting/config.rs:198-216 | a written list reads back as its rules, and nothing from the first word without a slash on |
| Lint.DirectivesByForm | agent/src/linting/config.rs:136-150 | the trimmed line is a directive iff it begins with one of the three comment styles and the word, and it disables or enables the rules of what follows |
| Lint.BlockedStep | agent/src/linting/config.rs:136-150 | one more line changes the blocked rules by its own directive only |
| Lint.FindIsFirst | agent/src/linting/config.rs:163-166 | the marker used is the first on the line |
| Lint.LinesReadBack | agent/src/linting/config.rs:132 | lines ended by either line ending are read back as they were |
| Lint.ResolveLevel | agent/src/linting/config.rs:57-95 | inline, then global, then the first matching file rule decide; later file rules never count |

## Left out

- Kubernetes, OCI, HTTP and shell calls, Rhai and Handlebars: answers of the environment, one parameter a call.
- Regex redaction, header transport, gzip, YAML and JSON texts: foreign code; records stand for the parsed values.
- Metrics, timestamps, log lines and requeue delays: they decide nothing. An event is one answer: an error of its sending that is no API error fails the setter after its patch.
- Texts are sequences of characters; byte offsets only matter for `is_scrubbable`, which counts UTF-8 bytes.
- Semver.TotalOrder: the version crate is not part of the repository; build metadata follows the order that crate documents (identifier by identifier, numbers before words, by value and then by leading zeros).
- Semver.SemverCell.IncStage: a build with overflow checks panics where the release build wraps.
- Packages.GreedyIsOptimal: takes descending candidate tags and minimums at most their own tag as given, because the scan script that orders the lists is not part of this model.
- ScanProtocol.RemovedOnlyAfterCreation: a reconcile starts from the annotation the object carries at that moment, because the staleness of the controller's watch is not modelled.
- Reconcile.SoundThroughoutIff: likewise the object handed over is the object at that moment; the agent's own setters hold the latest object.
- ScanProtocol.ForcedScanRuns: a job is its filter; other differences of its template are patches that the API server refuses.
- The CronJob of a jukebox and the deletions of its cleanup: one fallible call each, with no decision behind it; the deletion of the job by others is in the protocol.
- Reconcile.Instance.DoReconcile: the calls of one reconcile happen together once it acts, so job calls of two reconciles do not interleave; the call-by-call protocol is done for the jukebox controller.
- Reconcile.InitFromOnlyBeforeFirstSuccess: takes it that the agent never reports an empty tag.
- InstanceStatus.ConditionsAreSurvivors: setters work on the latest object here; the operator's notes from an older one are in `Reconcile`, several agents at once are not modelled.
- Promises.JobPassedEveryGate: the operator's own settings in the template, such as the agent image, are constant.
- The ready-made `created` list after `rhai_patch` and `rhai_delete`, and reads through `rhai_get`: they promise nothing about it.
- The directories of a file name with slashes are taken to exist; a failing one is a failing write.
- The watch mode of an upgrade and the linter's template walk: display and foreign syntax trees.
