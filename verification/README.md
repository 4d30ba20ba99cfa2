# LightsOut: a model of hold and release

LightsOut turns workloads off on a schedule and on again. Whatever it takes over, replica
counts, CronJobs, autoscalers, Flux resources, arbitrary fields of custom resources, it
remembers inside the object and has to give back exactly: across requeues, batches, wave
boundaries, refused writes, crashes and stale reads. This project models that machinery and
proves what it keeps.

`dafny verify dfyconfig.toml` checks all of it.

## How the model is built

| files | what they model |
|---|---|
| `PointerText`, `Decimal`, `Json`, `Ordering` | pointer text (RFC 6901), decimal text, JSON values, key order |
| `Document`, `LiveDocument` | reading, writing, removing and expanding paths: on values, and by a cursor that walks the document token by token |
| `Restoration`, `CustomResource`, `Overwriting`, `ResourceLifecycle`, `ResourceTurns`, `Overlap` | capture, overwriting and restore of configured fields, a resource's whole life, and where the round trip ends |
| `Patch` | merge patches (RFC 7386) and the patches the controller builds |
| `Scaler`, `ScalerRuns`, `HpaRuns`, `CronJobRuns`, `Flux` | the hold and release protocol as steps of many schedules |
| `Effects`, `Ownership`, `FluxTurns` | what a fresh, accepted step brings about: off, on again, taken over, released in time |
| `SyncWave`, `Batcher`, `PassCounts`, `BatchRefinement`, `WorkloadScaling` | one scaling pass, and runs of passes cut up by rate limits and waves |
| `WaveSafety`, `WaveWaiting`, `WaveCarry`, `LostStatus` | wave order and waiting over the reconciles of a window, and what starts one |
| `DownscaleWaves`, `UpscaleWaves`, `RestoredEarlier` | what wave order means on the way down and on the way up |
| `Readiness`, `Integrations`, `OperatorVerdicts` | start-up order of custom resources, workloads and GitOps controllers, and what makes a resource ready |
| `Clock`, `CronFires`, `Period`, `PeriodCache` | instants, cron fires, the period calculation and its cache |

Code that changes state in place is a class or a method with loops, proved against a
function on values; the theorems are about that function. The API server is a parameter:
each write comes with an arbitrary answer, and a crash is a suffix of refused writes. In the
protocol modules a step decides from any earlier version of the object and its patch lands on
the stored one, because merge patches carry no version. Custom resource fields are written
with an update that fails on conflict, so their steps read fresh. Instants are nanoseconds;
a timestamp stored on an object keeps whole seconds. A cron schedule is the function that
gives the next fire: the least one after an instant, fires at least a minute apart.

What runs keep is stated for every interleaving; beside it stands what one step on a fresh
copy brings about when the API takes the write, so that nothing is kept by doing nothing.

The pass keeps a log of gate evaluations and moves. It is not in the program; the wave
theorems are stated over it.

## Where the code does less than one might expect

Each of these is proved, with the exact condition; the members named first state it, those
named last show it on an input.

- When the configured paths part, a restore succeeds exactly if none of them has an empty
  token; with one it always fails (`RestorableExactly`, `EmptyKeyBlocks`).
- Two configured fields one inside the other are not given back for all values: a restore
  can fail, leave lightsout's own value, or delete the user's (`TwoFieldsExactly`,
  `RoundTripNeedsRightCaptures`, `OverlapBlocks`, `OverlapLeavesOwnValue`,
  `AbsenceLosesValue`).
- A comment in `hpa.go` says an empty recorded policy is not the same as a policy set to the
  empty string; the code removes the field for both. It gives a policy back exactly when that
  was absent or not empty, and may leave empty parent objects (`PolicyGivenBackExactly`,
  `SpecGivenBackExactly`, `EmptyTextIsRemoved`, `ParentsRemain`). Only an object no API server
  validated can hold an empty policy text.
- After a crash between two downscale writes and a takeover by a second schedule, the first
  schedule's up steps leave the autoscaler disabled until the second one is done
  (`UpReleasesHpa`, `CrashThenTakeover`).
- Stored starts are cut to whole seconds, so a wait can end early, by less than a second,
  exactly when its start was not a whole second (`StoredWaitEndsEarly`).
- A window of reconciles takes up an old wave record exactly when the status stored last
  before it is of its own direction, that is when every status update of the other direction
  was lost. A wave can then start before the one ahead of it was judged (`CarriedExactly`,
  `SegmentIsWindow`, `LostStatusBreaksWaveOrder`).
- `docs/argocd.md:238` says that an upscale waits until every replica of a wave is ready. It
  waits only in the reconcile that restores the wave: one without rate limit holds exactly
  when it itself restores a Deployment or StatefulSet that is not ready at once, in a wave
  that is not the last, not before the carried record and not waited out. The next reconcile,
  thirty seconds later, goes on however unready that workload is (`UpHoldsExactly`,
  `ReadinessPlaysNoPart`, `UpscaleWaits`, `StartsOverUnready`).
- A status update that is lost while a wave is first waited for restarts its clock. Each lost
  one delays the last wave by at most one polling gap (`BoundedWaiting`, `LostStatusDelays`).
- On copies of any age a Flux warmup can mark a resource that already runs again; what ends a
  suspension still is a release, earned and complete (`ReleaseTakesMarksAway`,
  `ReleaseIsEarned`, `StaleWarmupMarksRunning`).
- A resource that fails to restore does not hold workloads back: `IntegrationsUp` says what
  does. In a run only a refused write makes a restore fail (`AlwaysRestorable`).
- The period is wrong exactly when a fire the bounded searches cannot see would change the
  comparison (`StateIsRightExactly`): with windows of different width
  (`NarrowWindowMisleads`), or with both schedules silent for longer than theirs
  (`SilenceMisleads`).
- A cached period is returned at the very instant it expires, when it is already out of date
  (`AnswerIsCurrent`, `StateAtExpiry`), and the cache key is the digest of a bare
  concatenation, so two different pairs of schedules can share it (`KeyAndLengthsDecide`,
  `KeysCollide`).

## Model

| member | source | states |
|---|---|---|
| PointerText.TwoPassDecode | internal/jsonpointer/jsonpointer.go:43-51 | the two replacement passes, `~1` then `~0`, decode every string as one left-to-right pass does; in this order `~01` becomes `~1`, not `/` |
| PointerText.TwoPassEncode | internal/jsonpointer/jsonpointer.go:60-64 | the two escaping passes encode every token as one character-by-character pass does |
| PointerText.ParseFormat | internal/jsonpointer/jsonpointer.go:33-66 | for every non-empty token list, parsing the printed pointer gives the list back if and only if no token is empty |
| PointerText.FormatInjective | internal/jsonpointer/jsonpointer.go:55-66 | two token lists with the same printed pointer are equal, so the captured-field key names one path |
| PointerText.FormatParse | internal/jsonpointer/jsonpointer.go:33-66 | an accepted pointer is printed back unchanged if and only if every `~` in it is followed by `0` or `1` |
| Decimal.ParseInt32InvertsItoa | internal/controller/scaler.go:122-169 | every int32 replica count survives being printed into the annotation and parsed back |
| Decimal.AtoiInvertsItoa | internal/jsonpointer/jsonpointer.go:126-130 | a printed integer reads back as itself, so an index printed by expansion selects the element it came from |
| Decimal.AtoiExactly | internal/jsonpointer/jsonpointer.go:126-130 | a token reads as an integer if and only if it is digits behind at most one sign, so `+1` and `01` name slot 1 |
| Json.NormalizeIdempotent | internal/jsonpointer/jsonpointer.go:242-272 | normalising twice is normalising once |
| Json.NormalizeExactly | internal/jsonpointer/jsonpointer.go:242-272 | normalising gives the one value that is the same, number by number and element by element, and holds a number as an integer exactly when it is whole and fits into 64 bits |
| Json.RecodeExactly | internal/controller/customresource.go:166-169 | two values have one JSON text if and only if they are the same value |
| Json.RecodeOfNormalized | internal/jsonpointer/jsonpointer.go:242-272 | normalising does not show in JSON text |
| Json.RecodedIsReturned | internal/controller/customresource.go:238-247 | a value stored as JSON text, decoded and normalised is the same value, in that form; 1.5 stays 1.5 |
| Json.NormalizeAfterRecode | internal/controller/customresource.go:166-169 | up to 2^53 a value marshalled into the annotation, decoded and normalised is the normalised original, and that is the same value as the original |
| Document.GetPut | internal/jsonpointer/jsonpointer.go:141-214 | after a write that succeeds the path reads the value written |
| Document.PutFrame | internal/jsonpointer/jsonpointer.go:167-214 | a write leaves every path that parts from it at some key or element reading as before, created parents included |
| Document.RemoveFrame | internal/jsonpointer/jsonpointer.go:216-240 | a removal leaves every path that parts from it reading as before |
| Document.ReachablePut | internal/jsonpointer/jsonpointer.go:88-136 | a path the walk can reach is one a write succeeds on |
| Document.PutExactly | internal/jsonpointer/jsonpointer.go:167-214 | a write succeeds if and only if every container on the way is an object, an array the token names a slot of, or missing, a null below an object counting as missing |
| Document.AbsentEndsUnderObject | internal/jsonpointer/jsonpointer.go:110-119 | a reachable path that is absent ends under an object or under parents the write will create, never in an array slot |
| Document.ExpandExact | internal/jsonpointer/jsonpointer.go:76-136 | expansion returns a path if and only if it has the pattern's length and literals, can be reached, and resolves each wildcard to an existing key or canonical index |
| Document.ExpandDistinct | internal/jsonpointer/jsonpointer.go:76-136 | no path is returned twice |
| Document.ExpandedApart | internal/jsonpointer/jsonpointer.go:76-136 | two different paths returned for one pattern part at some key or element |
| Document.ExpandedWrite | internal/jsonpointer/jsonpointer.go:76-214 | a non-empty expanded path can be written, then reads the value, every parting path reads as before, and if it was absent its parent was an object or missing |
| LiveDocument.LiveDocument.GetValue | internal/jsonpointer/jsonpointer.go:138-162 | the loop over tokens returns exactly what stands at the path, absence apart from null |
| LiveDocument.LiveDocument.SetValue | internal/jsonpointer/jsonpointer.go:164-214 | the cursor walks down creating what is missing, writes the leaf and stores the changed containers back; it succeeds exactly when the path can be written, and a failed write changes nothing |
| LiveDocument.LiveDocument.DeleteValue | internal/jsonpointer/jsonpointer.go:216-240 | the parent found by a read loses the key and takes its place again; array elements and missing parents are left alone |
| LiveDocument.LiveDocument.ExpandPattern | internal/jsonpointer/jsonpointer.go:76-80 | the recursive walk appending to one output list produces the expansion, wildcard keys in sorted order |
| LiveDocument.WalkPointer | internal/jsonpointer/jsonpointer.go:88-136 | the recursive walk appends the prefixed expansion of its node to what was found before |
| CustomResource.WriteFieldsFailure | internal/controller/customresource.go:133-159 | a downscale fails exactly when some field's pointer or value does not parse: overwriting the expanded paths of a parsed field never fails half-way |
| CustomResource.TurnDownHolds | internal/controller/customresource.go:131-159 | when the written paths part pairwise, the log records under each path's pointer what the original held there, and the document is the original with those fields overwritten |
| CustomResource.RestoreHeld | internal/controller/customresource.go:238-252 | restoring never fails, in whatever order the captured map is visited, and undoes every recorded write |
| CustomResource.RoundTrip | internal/controller/customresource.go:131-252 | down then restore gives each captured path back: absent stays absent, a value comes back as the same value, and unchanged if its whole numbers were integers; every parting path is untouched, and the document differs from the original only by empty parent objects |
| Overwriting.DownTakesEffect | internal/controller/customresource.go:131-159 | when the written paths part pairwise, every place a configured field fits when its turn comes holds the configured value once the resource is down |
| Restoration.PutBackStep | internal/controller/customresource.go:243-247 | writing one captured value back, with other fields still outstanding, removes exactly that field from the difference to the original |
| Restoration.DeleteBackStep | internal/controller/customresource.go:249-251 | the same for removing a field that had been absent, which leaves at most empty parents |
| ResourceLifecycle.LiveResource.TurnResourceDown | internal/controller/customresource.go:104-201 | the two nested loops capture and overwrite as the specification says; a failed or skipped downscale leaves the stored resource as it was |
| ResourceLifecycle.LiveResource.RestoreFields | internal/controller/customresource.go:206-279 | the loop over the captured map, in an arbitrary order, writes back and moves to warming up with the start cut to whole seconds; a failure stores nothing |
| ResourceLifecycle.LiveResource.ClearState | internal/controller/customresource.go:281-298 | an accepted patch drops the four marks and nothing else |
| ResourceLifecycle.LiveResource.CleanUpResource | internal/controller/customresource.go:683-702 | cleanup restores, then clears, and stops at the first failure |
| ResourceLifecycle.StepConserves | internal/controller/customresource.go:104-298 | every down, up, release or cleanup step, accepted or refused, by any schedule, keeps the resource invariant |
| ResourceLifecycle.RunConserves | internal/controller/customresource.go:104-298 | over every run from an unmanaged resource: down exactly while it carries captured fields, warming up exactly while it carries a start, marked exactly while in one of the two, and the document restoring would give is the original up to empty parents |
| ResourceLifecycle.CapturesOriginals | internal/controller/customresource.go:119-129 | whatever a downscale captures, also repeated or in the middle of a warmup, it reads from the original document: never a value lightsout wrote |
| ResourceLifecycle.CleanUpReturnsOriginal | internal/controller/customresource.go:657-706 | at any point of any run one accepted cleanup by the owner leaves no mark and the original document up to empty parents |
| ResourceTurns.TurnsDownExactly | internal/controller/customresource.go:104-201 | an accepted downscale turns down exactly the resources that no other schedule owns, that are not down already, and of which some configured field fits a place; it records their fields and drops a warmup start |
| ResourceTurns.WarmupIsInterrupted | internal/controller/customresource.go:124-129 | a downscale in the middle of a warmup takes the resource down again and records its fields from the restored document |
| ResourceTurns.ResourceNight | internal/controller/customresource.go:104-298 | an error-free night: down with the fields written, warming up with the start recorded, and once released unmarked with the document it had up to empty parents |
| ResourceLifecycle.EmptyKeyBlocksRestore | internal/controller/customresource.go:238-242 | a captured path with an empty key is refused when its printed pointer is parsed, in every order |
| Overlap.RestorableExactly | internal/controller/customresource.go:131-252 | when the written paths part pairwise, restoring succeeds in every order if and only if none of them has an empty token, and fails in every order otherwise |
| Overlap.EmptyKeyBlocks | internal/controller/customresource.go:145-158 | one input: a lone wildcard over `{"": 1}` records the empty key under `/`, and restoring fails |
| Overlap.WrongCaptureBreaks | internal/controller/customresource.go:151-158 | for any configuration: if a value recorded at some written path is not the original one, some order fails or leaves it there |
| Overlap.WrongAbsenceBreaks | internal/controller/customresource.go:249-251 | for any configuration: if a written path the original has was recorded as absent, some order fails or ends without it, unless its last token names an array slot, which a delete leaves alone |
| Overlap.RoundTripNeedsRightCaptures | internal/controller/customresource.go:131-252 | however many fields and wildcards are configured: what is given back in every order was recorded as the original has it, at every written path |
| Overlap.AbsenceLosesValue | internal/controller/customresource.go:238-252 | one input: `/a` of `{"a": {"b": 0}}` set to `{}`, then `/a/b` set to 1; restoring `/a` first and `/a/b` last ends in `{"a": {}}` |
| Overlap.TwoFieldsExactly | internal/controller/customresource.go:131-252 | two literal fields are given back for all values and in every order if and only if their paths part in the original document, or the first cannot be written and is skipped |
| Overlap.OverlapBlocks | internal/controller/customresource.go:238-252 | one input: `/a/b` of `{"a": {}}` set, then `/a` set to 5; restoring `/a/b` first fails |
| Overlap.OverlapLeavesOwnValue | internal/controller/customresource.go:238-252 | one input: `/a/b` of `{"a": {"b": 0}}` set to 1, then `/a` set to `{}`; restoring `/a/b` first and `/a` last ends in `{"a": {"b": 1}}` |
| Overlap.OverlapKeepsOwnWrite | internal/controller/customresource.go:151-158 | a downscale of a field and then of one around it: every full order that restores the outer one last fails, or leaves at the inner one the value lightsout wrote |
| Patch.NamedKey | internal/controller/patch.go:49-55 | RFC 7386 section 2: a key path the patch names ends up absent for null and with the named value otherwise |
| Patch.Frame | internal/controller/patch.go:49-55 | every key path the patch does not touch reads as before, at every depth |
| Patch.Idempotent | internal/controller/patch.go:49-55 | applying a patch twice is applying it once |
| Patch.Commute | internal/controller/patch.go:49-55 | two patches on disjoint key paths give the same document in either order, so a concurrent writer and the controller do not disturb each other |
| Patch.MergeKeys | internal/controller/patch.go:98-109 | removal wins when a key is both set and removed; every other key appears as set |
| Patch.BuildPatch | internal/controller/patch.go:79-96 | empty parts are left out of the built patch |
| Patch.BuiltPatchIsExact | internal/controller/patch.go:49-96 | applying a built patch to a stored document sets exactly the named labels, annotations and spec fields, removes exactly the removed ones, and leaves other metadata and top-level fields alone |
| Scaler.ScaleReplicas | internal/controller/scaler.go:70-81 | the direction picks one of the two, on the same stored pair |
| Scaler.ScaleReplicasDown | internal/controller/scaler.go:83-136 | on the stored pair: guards, autoscaler write first and non-fatal, then the workload write, from a copy that may be stale |
| Scaler.ScaleReplicasUp | internal/controller/scaler.go:138-188 | on the stored pair: the unmanaged case still restores the autoscaler, otherwise the workload write comes first and the autoscaler after it only if that succeeded |
| Scaler.ScaleStoredCronJob | internal/controller/scaler.go:227-330 | the branches of suspending and resuming a CronJob on the stored object |
| Scaler.FindHpa | internal/controller/hpa.go:80-93 | the first autoscaler targeting the kind and name is found, and none only if there is none |
| Scaler.PatchHpaForDownscale | internal/controller/hpa.go:102-151 | the stored autoscaler after a downscale write decided from the copy |
| Scaler.RestoreHpa | internal/controller/hpa.go:159-210 | the stored autoscaler after a restore decided from the copy |
| ScalerRuns.ReplicasStep | internal/controller/scaler.go:83-188 | one down, up or transfer step, decided from any earlier version of the object, keeps the effective replica count |
| ScalerRuns.ReplicasConserved | internal/controller/scaler.go:83-188 | over every interleaving of any schedules, each reading an arbitrarily old version, "the annotation's count if present, else spec replicas, nil as 1" never changes |
| ScalerRuns.NeverStranded | internal/controller/scaler.go:83-188 | at every point of every run the object is at its original replicas, or at zero with the annotation that restores them; every field, label and annotation that is not lightsout's is the original one |
| ScalerRuns.ParkedNeverClaimed | internal/controller/scaler.go:102-106 | a workload its user parked at zero is not scaled by any run |
| Effects.ZeroesExactly | internal/controller/scaler.go:83-136 | on fresh copies, a down step zeroes exactly the workloads that want replicas, carry no record and have no other owner; it records the count and marks them by label and annotation, and leaves everything else |
| Effects.RestoresExactly | internal/controller/scaler.go:138-188 | an up step restores exactly the workloads with a record and no other owner, to the recorded count (one, for a text that is no int32), and removes record and marks |
| Effects.ReplicasNight | internal/controller/scaler.go:70-188 | an error-free night: at zero, then at its own count, unmarked, with everything else as it was |
| Effects.RefusedUpLeavesBoth | internal/controller/scaler.go:170-181 | an up step whose workload write is refused leaves the autoscaler as it was too, on copies of any age |
| Ownership.TransfersExactly | internal/controller/batcher.go:271-285 | collecting with ownership transfer re-stamps exactly what carries the label of another schedule: label and annotation name the new owner, nothing else changes |
| Ownership.TakeoverRestores | internal/controller/batcher.go:271-285 | a workload held by another schedule: before the transfer the up step of the new one leaves it down; after it that step restores the recorded count and leaves no mark, and the former owner leaves it alone |
| Ownership.TakeoverResumes | internal/controller/batcher.go:347-361 | the same for a CronJob another schedule suspended |
| Ownership.FormerOwnerReleasesHpa | internal/controller/scaler.go:139-150 | the autoscaler stays with the former owner, whose next up step releases it once the workload is restored |
| HpaRuns.PolicyConserved | internal/controller/hpa.go:102-210 | over every run of any schedules on copies of any age, with any write failing and transfers of the workload in between, the autoscaler is marked, with the original policy recorded and exactly the original spec with scale-up disabled, or unmarked, with exactly the original spec or the one a release leaves |
| HpaRuns.PolicyKnown | internal/controller/hpa.go:102-210 | in each of those states the policy is disabled or the original text, every path a policy patch does not run along reads as in the original, and a released autoscaler that had a policy text has exactly its original spec |
| HpaRuns.PolicyGivenBackExactly | internal/controller/hpa.go:185-196 | a release gives the policy itself back if and only if it was absent or a text that is not empty |
| HpaRuns.SpecGivenBackExactly | internal/controller/hpa.go:198-220 | a release leaves the whole spec as it was, up to empty parent objects, if and only if the policy is given back and only objects stood on the way to it |
| HpaRuns.NightGivesBack | internal/controller/hpa.go:102-210 | an error-free down and up ends, unmarked, in exactly the spec a release leaves |
| HpaRuns.ParentsRemain | internal/controller/hpa.go:212-220 | a spec without behaviour ends with two empty parents |
| HpaRuns.EmptyTextIsRemoved | internal/controller/hpa.go:191-196 | an empty policy text ends absent |
| HpaRuns.UserDisabledUntouched | internal/controller/hpa.go:129-135 | an autoscaler whose user disabled scale-up is never written |
| Effects.DisablesExactly | internal/controller/hpa.go:102-151 | a down write disables exactly the autoscalers without a mark whose scale-up was not disabled already, and records their policy under the mark of the schedule |
| Effects.ReleasesExactly | internal/controller/hpa.go:159-210 | an up write releases exactly the autoscalers with the mark of the schedule and a recorded policy, which they have again |
| HpaRuns.UpReleasesHpa | internal/controller/scaler.go:138-181 | an error-free up step writes the recorded policy into the autoscaler this schedule marked and unmarks it, if and only if no other schedule holds the workload down |
| HpaRuns.CrashRecovery | internal/controller/scaler.go:139-150 | with one schedule: after any run and any crash, one error-free up step leaves the autoscaler unmarked, with its original spec or the one a release leaves, whether or not the workload was already restored |
| HpaRuns.CrashThenTakeover | internal/controller/scaler.go:108-154 | with two schedules it can take longer: after a crash between the two downscale writes and a takeover, the first schedule's up step leaves the autoscaler disabled until the other gives the workload back |
| CronJobRuns.UserIntentKept | internal/controller/scaler.go:243-330 | over every run of any schedules a CronJob its user suspended is never resumed or taken over, and one its user left running is running unmarked or suspended under lightsout's mark |
| Effects.SuspendsExactly | internal/controller/scaler.go:243-281 | a down step leaves every CronJob without another owner or a record suspended: a running one, whether its suspend field is absent or false, becomes marked as held by the schedule, one its user suspended is unchanged; any other is left as it is |
| Effects.ResumesExactly | internal/controller/scaler.go:284-330 | an up step resumes exactly what lightsout suspended and no other schedule owns, records a suspension without a record as made by the user, and leaves the rest |
| Effects.JobNight | internal/controller/scaler.go:227-330 | an error-free night of a running CronJob: suspended, then running and unmarked, with everything else as it was |
| CronJobRuns.HeldUntilReleased | internal/controller/scaler.go:304-323 | a resume takes suspension and marks away together, exactly when no other schedule owns the held CronJob; any other fresh step leaves it as it is |
| CronJobRuns.ReleaseTakesMarksAway | internal/controller/scaler.go:284-330 | over every run on stale reads: the step at which a CronJob stops being suspended found it held by lightsout, removes all its marks, and is a resume decided on a copy with lightsout's mark and no other owner |
| Flux.HandleFluxWarmup | internal/controller/fluxcd.go:308-414 | the loop handles each resource by its own state, and reports waiting exactly when some resource is left waiting |
| FluxTurns.WarmupEndsExactly | internal/controller/fluxcd.go:357-398 | one accepted turn in the warmup leaves the resource running, unmarked and not waited for if and only if its namespace was read ready or the timeout has passed since the recorded start; otherwise unchanged and waited for |
| FluxTurns.UnstartedWaits | internal/controller/fluxcd.go:358-367 | without a readable start the timeout does not run: only a ready namespace ends the warmup |
| FluxTurns.WarmupBegins | internal/controller/fluxcd.go:350-355 | one accepted turn in any other state of a resource the schedule marked starts its warmup, with the start recorded, and keeps polling |
| FluxTurns.OthersAndRefusals | internal/controller/fluxcd.go:339-347 | what the schedule did not mark is left alone and not waited for; a refused write leaves the resource as it was and keeps polling |
| FluxTurns.SuspendsExactly | internal/controller/fluxcd.go:133-184 | a suspend on what no other schedule marked leaves it suspended, and down under the schedule unless its user had suspended it |
| FluxTurns.CleanUpFrees | internal/controller/fluxcd.go:244-273 | cleanup frees exactly what the schedule itself marked |
| FluxTurns.TimeoutEndsHold | internal/controller/fluxcd.go:349-398 | over every run on fresh copies: once a warmup has begun, the first accepted turn at least the timeout later finds the resource running free or frees it, unless its schedule suspends it again in between |
| Flux.UserSuspendedUntouched | internal/controller/fluxcd.go:152-158 | a Flux resource its user suspended is never written, by any schedules on copies of any age |
| Flux.SuspendedOnlyUnderMark | internal/controller/fluxcd.go:133-273 | a resource its user left running is at every point running or under some schedule's mark |
| Flux.StaysSuspended | internal/controller/fluxcd.go:133-240 | on fresh reads a held resource stays suspended through down and warming up, until release takes mark and suspension away together |
| Flux.StaleWarmupMarksRunning | internal/controller/fluxcd.go:194-225 | one run on stale copies: a warmup decided before the release marks the resource, which already runs, as warming up |
| Flux.ReleaseTakesMarksAway | internal/controller/fluxcd.go:227-273 | over every run on copies of any age: the step at which a resource stops being suspended removes all its marks, and is a warmup or cleanup decided on a copy with the schedule's own mark |
| Flux.ReleaseIsEarned | internal/controller/fluxcd.go:357-398 | on copies of any age, a release outside cleanup happens only when the namespace was read ready, or the timeout has passed since the stored start of an earlier warmup action |
| SyncWave.SortIsStable | internal/controller/syncwave.go:95-108 | sorting keeps every workload, puts waves in processing order with namespace and name breaking ties, and leaves equals in collection order |
| Batcher.ScalingPass.MembersSettled | internal/controller/syncwave.go:165-174 | a wave is settled exactly when each gated member is |
| Batcher.ScalingPass.AskGate | internal/controller/syncwave.go:187-228 | the gate passes waves before the recorded one without a record, keeps the recorded start of the current one, and holds exactly while unsettled within the timeout |
| Batcher.ScalingPass.EnterWave | internal/controller/batcher.go:465-490 | a workload of another wave asks the gate; only a pass that goes on starts new members |
| Batcher.ScalingPass.ScaleOne | internal/controller/batcher.go:492-543 | one workload's turn: failures neither gate nor cost budget, skips cost no budget, scale operations do |
| Batcher.ScalingPass.ScaleWorkloads | internal/controller/batcher.go:450-580 | the loop over the collected workloads ends in the state and with the verdict of the recursive pass, wherever it returns early |
| Batcher.RunPass | internal/controller/batcher.go:381-580 | one whole pass from its carried record: verdict, cluster, record to store, counts |
| WorkloadScaling.ScalingIsSteady | internal/controller/scaler.go:70-330 | without API errors scaling depends on the written objects only, never fails, and finds nothing to do in its own result |
| WorkloadScaling.CollectingStamps | internal/controller/batcher.go:271-285 | the ownership re-stamp happens at most once and scaling does not bring it back |
| BatchRefinement.BatchingRefinesSinglePass | internal/controller/batcher.go:381-580 | however passes are cut up by batch sizes, waves, clocks and status changes, once one finishes every object is what one unlimited, wave-free pass makes of the starting cluster |
| WorkloadScaling.RateLimitsChangeWhenNotWhat | internal/controller/batcher.go:381-580 | the same for the controller's own scaling and collecting, in either direction, autoscalers included |
| BatchRefinement.RoundProgress | internal/controller/batcher.go:541-559 | a pass takes exactly what it processed off the list of workloads to move; a rate-limited one exactly its batch size |
| BatchRefinement.BatchedProgress | internal/controller/batcher.go:410-414 | n rate-limited passes in a row have moved n batches, so with m workloads to move at most m / batch such passes happen |
| BatchRefinement.BatchedRunFinishes | internal/controller/batcher.go:410-414 | with waves off and a batch size, m workloads to move are done with by pass number floor(m / batch) + 1 |
| PassCounts.TurnsAreCounted | internal/controller/batcher.go:442-580 | every workload that has its turn is counted once, as failed or skipped if scaling it as listed fails or is skipped and otherwise as processed, the processed ones are those moved, and the pass says it finished if and only if all had their turn |
| WorkloadScaling.RateLimitProgress | internal/controller/batcher.go:541-559 | the same for the controller's own scaling |
| WorkloadScaling.RateLimitedRunFinishes | internal/controller/batcher.go:541-559 | the same bound for the controller's own scaling and collecting |
| WaveSafety.SortedIsInWaveOrder | internal/controller/batcher.go:431-440 | the sorted collection visits the waves in processing order, as the wave theorems need |
| WaveSafety.WindowIsOrderly | internal/controller/batcher.go:465-517 | over all reconciles of a window, every move found the waves before its own cleared, their gates having judged every workload the window counts as the schedule's own, and every stored record is backed by an evaluation of its wave |
| WaveSafety.MovesWaitForEarlierWaves | internal/controller/syncwave.go:187-228 | whenever a pass moves a workload, each earlier wave had, at this or an earlier evaluation of the window, all workloads the window counts as the schedule's own settled, or had been waited on for the timeout since a recorded evaluation; on the way down those are what the schedule holds down |
| WaveSafety.SettledWorkload | internal/controller/syncwave.go:120-142 | what being judged settled says of a workload the schedule holds: write observed, and no pod left or enough ready |
| DownscaleWaves.DownIsHonestAt | internal/controller/syncwave.go:144-163 | the controller's downscale, with any writes refused, reports every workload it holds down as gating |
| DownscaleWaves.DownGatesExactly | internal/controller/syncwave.go:144-163 | after a downscale attempt that did not fail, a workload gates if and only if it is no CronJob and the schedule holds it down |
| DownscaleWaves.DownWaitsOnlyForHeld | internal/controller/syncwave.go:144-185 | a downscale reconcile, with any writes refused, judges and waits for nothing but Deployments and StatefulSets its schedule holds down: nothing parked by a user, nothing of another schedule, no CronJob |
| DownscaleWaves.ZeroingWaitsForEarlierWaves | internal/controller/batcher.go:465-517 | for the controller's own downscale with any writes refused: when a reconcile zeroes a workload, its log holds the move, and before it each earlier wave had a gate evaluation at which every workload of it held down by the schedule had no pods left, or had been waited out |
| UpscaleWaves.UpCountsMoves | internal/controller/syncwave.go:144-163 | on the way up what gates is exactly what the pass itself scaled, CronJobs apart |
| UpscaleWaves.UpscaleWaits | internal/controller/batcher.go:465-517 | for the controller's own upscale with any writes refused: between a workload's move and a move of a later wave the log has an evaluation of the earlier wave that judged that workload, did not hold, and found it ready or the wave waited out on the carried clock; only a wave before the carried record is passed without one |
| UpscaleWaves.UpHoldsExactly | internal/controller/syncwave.go:187-228 | an upscale reconcile that is not cut short by a rate limit holds if and only if it restores some Deployment or StatefulSet that is not ready at once, in a wave that is not the last, not before the carried record, and not waited out |
| UpscaleWaves.ReadinessPlaysNoPart | internal/controller/syncwave.go:120-142 | when what the schedule holds down stands at zero, the same without readiness: it holds if and only if it restores something in such a wave |
| UpscaleWaves.RestoredIsUnready | internal/controller/scaler.go:138-178 | a workload is restored if and only if it is held down by this schedule or none in particular and the write is taken; from zero it is not settled right after |
| UpscaleWaves.FinishedOverUnready | internal/controller/batcher.go:465-517 | an upscale that reaches the end past an unready workload that is not waited out did not restore it itself, or carries a record that skips its wave |
| RestoredEarlier.StartsOverUnready | internal/controller/syncwave.go:144-163 | one morning, two reconciles: the first restores the database and holds, the second, thirty seconds into a ten-minute timeout, starts the application over the unready database |
| WaveCarry.SegmentIsWindow | internal/controller/lightsoutschedule_controller.go:323-331 | reconciles of one direction over one collection form such a window if and only if the first starts without a record: nothing was stored before it, or what was stored last is of the other direction or holds none |
| WaveCarry.LostStatusesCarryOldRecord | internal/controller/lightsoutschedule_controller.go:327-330 | if no reconcile of the other direction stored its status, the next window takes up the record of the one before it |
| WaveCarry.CarriedExactly | internal/controller/lightsoutschedule_controller.go:323-331 | a reconcile carries exactly the record of the last reconcile before it whose status was stored, if that one ran in the same direction |
| WaveCarry.StoredKeepsWave | internal/controller/lightsoutschedule_controller.go:232-246 | a stored record keeps its wave and loses less than a second of its start |
| WaveCarry.OldRecordSkipsWaves | internal/controller/syncwave.go:200-202 | a reconcile that carries a record judges no wave before the recorded one, so any later move in it finds those waves uncleared |
| LostStatus.LostStatusBreaksWaveOrder | internal/controller/lightsoutschedule_controller.go:327-330 | one run, an evening, a morning whose status is lost, a second evening: the middle wave is zeroed while the first, with a pod still running, was neither judged nor waited for |
| LostStatus.LostStatusDelays | internal/controller/syncwave.go:200-208 | one run: the first status is lost, so the clock of the first wave starts again, and a reconcile a timeout later still holds there |
| WaveWaiting.RoundHolds | internal/controller/batcher.go:465-490 | without a rate limit a reconcile visits every workload or holds at a wave that is not the last, at or after the carried one, within the timeout on its carried clock |
| WaveWaiting.ClockBound | internal/controller/syncwave.go:200-208 | the clock of the wave a reconcile holds at started no later, after the window began, than its rank times timeout plus polling gap, plus one gap for each status lost before |
| WaveWaiting.BoundedWaiting | internal/controller/syncwave.go:200-224 | with k waves, reconciles hold for less than k - 1 times timeout plus gap, plus one gap for each status update lost on the way; the first that does not hold comes by then and visits every workload, the last wave included |
| WaveWaiting.HoldingPollsSoon | internal/controller/lightsoutschedule_controller.go:617-645 | while a wave holds, the next reconcile is asked for after between a second and thirty seconds, and no later than the next transition or a second |
| WaveWaiting.FinishedPolls | internal/controller/lightsoutschedule_controller.go:617-645 | after a pass that visited everything the next reconcile comes at the next transition, not within a minute, and within five while pods terminate; every thirty seconds during a warmup |
| WaveWaiting.LimitedPolls | internal/controller/lightsoutschedule_controller.go:625-635 | after a rate-limited pass it comes after the delay between batches or at the next transition, whichever is first, and not within a second |
| WaveWaiting.WavesOffForgets | internal/controller/batcher.go:425-440 | with waves off a pass holds at none and drops the record it was given |
| Readiness.MatchesReadyWhen | internal/controller/customresource.go:617-655 | ready exactly when every declared match holds; malformed pointers or values are not ready |
| Readiness.HoldsMeans | internal/controller/customresource.go:642-651 | a match holds if and only if the pattern fits some place in the document and every such place holds the wanted value |
| Readiness.CustomResourceReady | internal/controller/customresource.go:584-615 | readyWhen answers outright; otherwise a lagging operator is not ready and the first Ready condition decides; else nothing is reported |
| Readiness.FirstReadyDecides | internal/controller/customresource.go:602-612 | the first condition of type Ready decides, whatever stands before and after it |
| OperatorVerdicts.LaggingIsNotReady | internal/controller/customresource.go:593-596 | without readyWhen, an operator whose observed generation is below the stored one is not ready, whatever its conditions say |
| OperatorVerdicts.CaughtUpReports | internal/controller/customresource.go:598-614 | without readyWhen, otherwise, the first condition of type Ready decides, and nothing is reported without one |
| OperatorVerdicts.DeclaredDecides | internal/controller/customresource.go:589-591 | with readyWhen the verdict is whether every declared match holds; generations and conditions play no part |
| OperatorVerdicts.LaggingHoldsUp | internal/controller/customresource.go:510-553 | a warming resource whose operator lags is not released before its timeout, and holds the workloads up |
| OperatorVerdicts.UnmatchedHoldsUp | internal/controller/customresource.go:510-553 | nor is one with a declared match that does not hold |
| OperatorVerdicts.TimeoutReleases | internal/controller/customresource.go:510-553 | once its timeout is over, a warming resource is released if and only if its namespace can be scanned and the write is taken, and is waited for otherwise |
| OperatorVerdicts.ReadyReleases | internal/controller/customresource.go:510-553 | before it, one is released if and only if its namespace has workloads, all ready, and its operator does not say otherwise |
| Integrations.RestoreOne | internal/controller/customresource.go:435-448 | one listed resource: unchanged or restored; done if and only if it went from down to warming up; still down only if it could not be restored or was refused |
| Integrations.RestoreMatches | internal/controller/customresource.go:435-449 | the loop over one entry's resources: each is as it was or restored, one still down could not be restored or was refused, and a transition is reported if and only if some resource was just restored |
| Integrations.CustomResourcesUp | internal/controller/customresource.go:402-453 | the same over all entries, skipping delete entries and failed listings |
| Integrations.JudgeOne | internal/controller/customresource.go:502-564 | one resource: waited for if and only if it is warming up and its namespace could not be scanned, its release is not earned, or the release was refused; released otherwise |
| Integrations.JudgeMatches | internal/controller/customresource.go:499-565 | the loop over one entry's resources judges each as it was found, with one scan per namespace, and waits if and only if one of them is waited for |
| Integrations.JudgedByMeans | internal/controller/customresource.go:485-568 | several entries judging one resource in turn amount to that |
| Integrations.HandleWarmup | internal/controller/customresource.go:461-569 | the warmup goes on if and only if the first entry that lists some warming resource waits for it; every change is a release some entry earned; what nothing waits for is no longer warming up |
| Integrations.IntegrationsUp | internal/controller/integrations.go:74-91 | it defers if and only if some resource was just restored or one holds the workloads up, so a refused restore does not defer; every listed resource still down could not be restored or was refused; unless it defers every covered resource is out of the way; what only delete entries list is left alone; nothing else changes |
| Integrations.ReconcileUp | internal/controller/lightsoutschedule_controller.go:179-203 | start-up order: the workloads are visited, by the pass, if and only if nothing was just restored and nothing holds them up, and then no covered resource is warming up or, unless refused or not restorable, down; the GitOps warmup starts only after a pass that visited every workload; a deferred reconcile touches no workload and stores no record |
| Integrations.TimeoutReleaseWaits | internal/controller/customresource.go:510-519 | in every run a release without readiness comes after the timeout since an earlier restore, less the fraction of a second its stored start lost |
| Integrations.AlwaysRestorable | internal/controller/customresource.go:238-252 | in every run captured fields can be put back, so only a refused write lets a resource stay down |
| Period.FindLastOccurrence | internal/controller/period.go:243-277 | the loop with its iteration counter computes the bounded search |
| Period.FindLastIsExact | internal/controller/period.go:243-277 | the sentinel exactly when nothing fired in the window, else a fire of the window, and that is the greatest exactly when the window holds at most one fire more than the cap |
| Period.CapNeverCuts | internal/controller/period.go:256-262 | for every window but the 400-day one the cap never cuts the search; for that one the search is exact if and only if at most 525601 fires lie in it |
| Period.FoundWithinDays | internal/controller/period.go:163-180 | the last fire is found if and only if it is less than 2, 3, 10, 32, 90 or 400 days old, by the frequency the schedule is judged to have |
| Period.StateIsRight | internal/controller/period.go:207-225 | the state is Up if and only if the true last upscale is after the true last downscale, when both fired in their own window, or one did and the other's window is at least as wide |
| Period.OnlyUpscaleSeen | internal/controller/period.go:207-225 | with only the upscale in its window the answer is Up, right if and only if the downscale did not fire since, beyond its own window |
| Period.OnlyDownscaleSeen | internal/controller/period.go:207-225 | with only the downscale in its window the answer is Down, right if and only if the upscale did not fire after it, beyond its own window |
| Period.NothingSeen | internal/controller/period.go:207-225 | with neither in its window the answer is Down, right if and only if no upscale beyond its window is later than every downscale beyond its own |
| Period.StateIsRightExactly | internal/controller/period.go:207-225 | in all four cases the state is right if and only if no fire the searches cannot see would change the comparison |
| Period.NarrowWindowMisleads | internal/controller/period.go:163-180 | up `0 6 * * 1` and down `*/30 18 * * 5`, judged weekly and by the minute: on Sunday at 20:00 the answer is Up in a down period |
| Period.SilenceMisleads | internal/controller/period.go:163-180 | up `*/30 6 * * 1` and down `*/30 18 * * 5`, both silent for longer than their equal windows: on Friday at noon the answer is Down in an up period |
| PeriodCache.Cache.GetCachedPeriod | internal/controller/period.go:72-87 | an entry is returned up to and including its expiry instant |
| PeriodCache.Cache.SetCachedPeriod | internal/controller/period.go:90-104 | an entry expires at the earlier of its two transitions |
| PeriodCache.Cache.CalculatePeriod | internal/controller/period.go:183-239 | the cached value if there is a valid one, else the computed one, which is then cached; errors cache nothing |
| PeriodCache.AnswersAreComputed | internal/controller/period.go:72-104 | over every run of calls an answer was computed by some call under the same key, and none is given after the earlier of the transitions it names |
| PeriodCache.KeptUntilTransition | internal/controller/period.go:183-239 | what a call computed answers every later call under its key up to the first transition it names; the call after that computes anew |
| PeriodCache.InvalidIsRefused | internal/controller/period.go:190-205 | without a kept entry there is an answer if and only if the zone is known and both expressions parse, and a refused call keeps nothing |
| PeriodCache.CacheRefinesRecomputation | internal/controller/period.go:183-239 | before that transition an answer names the transitions a recomputation would, and its state is the ideal one whenever the computing call's windows were wide enough |
| PeriodCache.AnswerIsCurrent | internal/controller/period.go:81-84 | a kept answer names the transitions ahead if and only if now is strictly before the earlier one; the lookup also hits at that instant |
| PeriodCache.StateAtExpiry | internal/controller/period.go:81-97 | at the expiry instant the right state is Up if and only if the upscale comes strictly first |
| PeriodCache.KeyAndLengthsDecide | internal/controller/period.go:62-69 | two calls with one key are for the same schedules if and only if their expressions have the same lengths |
| PeriodCache.KeysCollide | internal/controller/period.go:62-69 | two valid pairs of schedules share a key, and until the first one's entry expires a call for the second is answered with the first one's period |
| Clock.StoredWaitEndsEarly | internal/controller/syncwave.go:204-215 | a wait counted from a stored start can end before the timeout has passed if and only if storing cut something off |

## Left out

- The API client, listing, events, logs, metrics, RBAC and generated code: input and output.
- Parsing cron expressions, time zones and the guess at a schedule's frequency: the period theorems hold for any frequency; nothing claims the guess picks a wide enough window.
- Expressions that never fire: the next fire is total.
- SHA-256: the cache key is the string it digests.
- Rounding of float64: claims about captured numbers are for magnitudes up to 2^53, and a number decoded from text is a real.
- Webhooks, namespace discovery, exclusion labels and the counting of terminating pods: filters and single checks.
- ArgoCD labelling: the Flux machine without a spec field to conserve.
- Delete entries of custom resources: nothing is captured, the operator rebuilds them.
- Edits by users while lightsout holds an object, and context cancellation, which is a prefix of a pass.
- Parsing of the sync-wave annotation, and of the text of stored timestamps: the wave is a field, and a timestamp is the decimal text of its whole-second instant.
- Statistics counters, and the loops that restore managed workloads on deletion or when a namespace leaves the schedule: the former count states, the latter are up steps, which the run theorems cover.
- LiveDocument.LiveDocument.SetValue: nested maps and arrays are values, so the changed containers are stored back instead of mutated, and aliasing between parts of one document is not modelled.
- LiveDocument.LiveDocument.DeleteValue: the same.
- Configured paths do not reach lightsout's own labels and annotations, which are kept beside the document.
- Overlap.TwoFieldsExactly: speaks of two fields without wildcards; for more fields, or wildcards, the round trip is proved for paths that part, and a wrong capture or absence is proved to break it.
- An absent labels or annotations map counts as an empty one.
- The library's sort is modelled by its result, a stable insertion.
- HpaRuns.CrashRecovery: speaks of one schedule without ownership transfer, because a transfer re-stamps only the workload and not its autoscaler.
- ResourceLifecycle.RunConserves: custom resource steps read fresh copies, because their spec writes fail on conflict; downscales are those whose written paths part pairwise and have no empty token.
- WaveSafety.WindowIsOrderly: what the window counts as the schedule's own is what a pass reports as gating each time it visits it. On the way up no restored workload is, so there it says only that each wave had its evaluations; `UpscaleWaves` says what those judged.
- WaveSafety.MovesWaitForEarlierWaves: the same; and it speaks of windows with one collection and of reconciles that are not deferred, which store no record.
- UpscaleWaves.UpHoldsExactly: speaks of reconciles without rate limit, because a batch limit ends a pass before it reaches every wave.
- WaveWaiting.BoundedWaiting: asks for reconciles without rate limit.
- Flux.StaysSuspended: on fresh reads; on stale ones it fails (`StaleWarmupMarksRunning`), and `SuspendedOnlyUnderMark`, `ReleaseTakesMarksAway` and `ReleaseIsEarned` hold.
- Integrations.ReconcileUp: speaks of resources both listings of an entry return; a failed listing is skipped by the code as well.
