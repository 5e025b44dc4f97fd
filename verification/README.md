# A verified model of the vLLM optimizer backend

The backend tunes one vLLM service on Kubernetes. It edits the service's custom resource (an `InferenceService` or an
`LLMInferenceService`), deletes and recreates it with new arguments, loads it with requests, scores what it measured,
and keeps the best parameters. This project models the algorithms behind that and proves what they promise:

| files | what they model |
|---|---|
| `Json`, `PatchAlgebra`, `PatchBody`, `Deletions`, `ConfigRouter` | JSON merge patch (RFC 7396, section 2) as the specification of the API server, and the router's compilation of several edits, some inside name-keyed lists, into one patch |
| `Args`, `ArgLoops`, `Words`, `Adapters`, `CustomResource` | the command line of the four tuning arguments, and reading and writing it in both kinds of custom resource |
| `PatchVersusApply`, `Endpoint`, `ResourceRequest`, `Request` | the two ways of changing arguments compared, a whole PATCH request, what it makes of the resources key by key, and that it equals editing the resource in place |
| `Trials`, `Memory`, `Cluster`, `Session`, `Tuner` | scores and learned limits, the two memory formulas, an unreliable API server with the operator that deletes and recreates, whole sessions as values, and the tuner as a class that is proved to produce such sessions |
| `Metrics`, `Counters` | histogram quantiles, and rates from cumulative counters |
| `Load`, `LoadEngine`, `RunReport`, `Sweep`, `Storage` | load runs, the early abort, the figures a run reports and who reads them how, sweeps to saturation, and pruning of stored rows |

Code that computes values is modelled by functions, code that works step by step by methods and classes whose
contracts tie the new state to those functions. The cluster, the sampler, the load results, the clock and `stop` are
arbitrary: replies may be refused, broken or lost after taking effect; parameters, diagnoses and measurements may be
anything; a stop may come wherever a session waits. Numbers are unbounded, and floating point is modelled by reals.

## Findings

Some promises hold only under a condition. Each has a lemma that gives the condition, and where it helps an input.

- `deep_merge` composes two merge patches on every target exactly when the earlier one has an object or nothing
  wherever the later one has an object (`PatchAlgebra.DeepMergeComposesExactly`).
- One edit reaches the server as `_merge_into` means it exactly when no object of the edit that lands on something
  other than an object contains a null: `_merge_into` keeps that null, the server drops it
  (`PatchAlgebra.ExpandedPatchIsMergeExactly`).
- A key that an edit deletes inside an item of a name-keyed list comes back when a later edit touches the same list
  and neither deletes the key again nor covers its old value: `working` re-merges the expanded list. An edit elsewhere
  does no harm (`Deletions.TwoEditsExactly`, `Deletions.SettledExactly`, `Deletions.EditElsewhereSettles`; an input in
  `Deletions.DeletedKeyReturns`). The endpoint appends resources, its only deletions, last, so it never gets there
  (`Endpoint.RequestIsSequencable`).
- A resource key that a request deletes is gone after the PATCH: for an `InferenceService` always, for an
  `LLMInferenceService` exactly when the main container, in a list keyed by name, holds the key's tier as an object.
  Otherwise a null is stored in its place, because `_merge_into` puts it inside the list, where the server drops none
  (`ResourceRequests.ResourcesOnServer`, `ResourceRequests.DeletedKeysAreGone`). For an `InferenceService` without the
  tier the same null reaches the server outside of lists: there the PATCH deletes the key where its edits, taken one
  after another by `_merge_into`, would leave a null (`Endpoint.RequestOnServer`).
- One PATCH of a whole request gives the resource that editing in place gives, for both kinds, whichever of arguments,
  model location and resources are asked for (`Requests.RequestIsEdit`).
- A token that merely starts like a tuning flag, such as `--max-num-seqs-extra`, is dropped by `strip_tuning_args` and
  not read by the parser. An override keeps all arguments that the parser does not read exactly when there is no such
  token (`Args.OverrideKeepsUnread`).
- A load run without any success meets the SLA, with a score of 0, exactly when it processed something and the first
  requests did not all fail with one common error; it then beats every run that violates the SLA
  (`RunReports.FailedRunMeetsSla`, `RunReports.Probe`).
- A service that fails every request, and whose runs report figures, is found saturated by a sweep exactly when at
  most two stable steps are required, the tolerated error rate is below 1, and that many steps fit in the range before
  a stop (`Sweep.FailingServiceSaturates`). Runs that are aborted early report no figures: such a sweep walks its
  whole range without a saturated step (`Sweep.SilentServiceIsNeverSaturated`), and such a rate may come out as the
  optimal one (`RunReports.FailedStepIsSaturated`, `Sweep.SilentStepMayBeOptimal`).
- A service that degrades from some step on is found saturated exactly when the sweep gets far enough into the
  overload (`Sweep.DegradingServiceSaturates`).
- With linear-attention state the OOM prediction takes the larger of two needs where the capacity formula takes their
  sum. They agree on all admitted context lengths exactly when cache and state of the longest fit together; a state of
  at most a tenth of the budget suffices, as do nine slots that share no blocks, and a tenth plus one token is too
  much (`Memory.LinearStateAgreesExactly`, `Memory.UnsharedSlotsAgree`; an input in `Memory.LinearStateParts`).
- As a function, the OOM prediction is monotone in the batched-token parameter except from 0 to a positive number
  below the lower end of the search range, to which 0 falls back (`Memory.BatchedTokensPart`); it is monotone in the
  number in force (`Memory.RejectionIsClosed`). The sampler proposes no 0 while that lower end is positive.
- `rollback_to_snapshot` catches API errors only: it raises exactly when a reply was broken or the deletion did not
  complete (`Cluster.K8sOperator.RollbackToSnapshot`). The session then ends with that trial neither told nor recorded
  (`Sessions.ToldOnce`, `Sessions.RecordsAt`).
- `apply_params` tries the snapshot after a failed create and after a wait that timed out, but not after a wait broken
  by another exception: then the resource is gone or on its way. Nor does it after a deletion whose reply is an error:
  if that deletion took effect all the same, the resource is gone too (`Cluster.K8sOperator.ApplyParams`).
- A scrape that is not later than the last one loses no increment of a counter (`Counters.StaleScrapeIsHarmless`). A
  histogram takes every scrape as its new snapshot, so growth is lost at such a scrape, and at one that follows a
  scrape without the histogram; a bucket that its histogram lacked in the last scrape is counted from 0. The rates of
  a bucket account for its growth and its drops, less the lost, plus the excess (`Counters.HistogramRunConserves`),
  and each scrape for exactly its growth if and only if none of these comes up (`Counters.BucketExactly`; inputs in
  `Counters.GapsMiscount`).
- A wait for readiness that a stop interrupts is not rolled back, and a stop during the cool-down takes readiness back
  (`Tuner.AutoTuner.WaitForReady`). A trial is left alone only after a stop, and a session that returns early has a
  cause: an initial wait that saw nothing ready, a stop, a failed apply, or an exception (`Tuner.AutoTuner.Start`).

## Model

| member | source | states |
|---|---|---|
| JsonValues.MergePatchOverNonObject | backend/routers/vllm_config.py:148-157 | The server's merge patch (RFC 7396, section 2), laid over a missing or non-object value, stores the patch verbatim exactly when it deletes nothing |
| PatchAlgebra.DeepMergeComposesExactly | backend/services/cr_adapter.py:140-148 | Applying the deep merge of two patches equals applying one after the other, for every target, if and only if the two are shape-compatible; nulls included |
| PatchAlgebra.CompatiblePatchesCompose | backend/services/cr_adapter.py:140-148 | The composition law on any target, by induction over the later patch |
| PatchAlgebra.IncompatiblePatchesClash | backend/services/cr_adapter.py:140-148 | For any two incompatible patches, a target on which they do not compose |
| PatchAlgebra.ExpandedPatchIsMergeExactly | backend/routers/vllm_config.py:84-116 | The expanded patch applied by the server does what `_merge_into` does on the same object, if and only if the patch is grounded in it |
| PatchAlgebra.NamedListMergeKeepsSiblings | backend/routers/vllm_config.py:94-103 | In a merged name-keyed list the old items keep place and name, those the patch names are merged with it, the others are untouched, and the items of new names follow in the patch's order |
| PatchAlgebra.NamedListMergeKeepsDistinctNames | backend/routers/vllm_config.py:94-103 | Names stay distinct through a merge |
| PatchAlgebra.MergeKeepsTame | backend/routers/vllm_config.py:84-104 | Merging keeps distinct names and the absence of nulls at every nesting level |
| PatchAlgebra.SelfMerge | backend/routers/vllm_config.py:84-104 | Merging a null-free value into itself changes nothing |
| PatchAlgebra.AbsorbsExactly | backend/routers/vllm_config.py:84-104 | Merging an already merged value into the same base again changes nothing if and only if the patch deletes no key that the base holds, at any level, items of name-keyed lists included |
| PatchAlgebra.MergeAbsorbs | backend/routers/vllm_config.py:84-104 | Without nulls, merging an already merged value into the same base again changes nothing: why re-merging an expanded list into `working` is sound |
| PatchBody.StepKeepsSame | backend/routers/vllm_config.py:107-145 | One step of `working` and of the object itself leaves them the same as far as any later sub-patch can tell, unless both edits share a list that does not absorb the first |
| PatchBody.WorkingServesLater | backend/routers/vllm_config.py:135-144 | No later sub-patch can tell the loop's `working` from the object after the edits so far |
| PatchBody.BodyStep | backend/routers/vllm_config.py:139-144 | One more edit keeps the body equivalent to the edits exactly when that edit is grounded |
| PatchBody.CompiledPatchMeansEdits | backend/routers/vllm_config.py:119-145 | The compiled body, applied once by the server, equals the sub-patches merged one after another, for any number of them and any depth, if and only if the last one is grounded; deletions inside list items are allowed where no later sub-patch holds the same list |
| PatchBody.TameEditsAreSequencable | backend/routers/vllm_config.py:119-145 | Shape-compatible sub-patches with distinct names and nulls in the last one only need nothing more than that |
| PatchBody.FastPathAgrees | backend/routers/vllm_config.py:126-129 | Without named lists, the path that never reads the current object gives the same body |
| PatchBody.BodyEditsSpecOnly | backend/routers/vllm_config.py:119-145 | Sub-patches of `spec` compile to a patch of `spec` |
| PatchBody.PatchTouchesSpecOnly | backend/routers/vllm_config.py:131-137 | Such a patch leaves the rest of the resource as it is, and changes `spec` as it changes the router's spec copy |
| Deletions.SettledExactly | backend/routers/vllm_config.py:84-104 | What re-merging the first of two edits brings back shows after the second if and only if some key of an old value that the first deletes is neither deleted again nor covered by the second |
| Deletions.TwoEditsExactly | backend/routers/vllm_config.py:119-145 | Two edits compiled into one body mean what they mean in turn if and only if they are so settled at every name-keyed list that both share |
| Deletions.ServedExactly | backend/routers/vllm_config.py:139-144 | The second edit, expanded against `working` and against the object itself, gives the server the same exactly in that case |
| Deletions.EditElsewhereSettles | backend/routers/vllm_config.py:139-144 | A second edit without name-keyed lists leaves every deletion of the first in force |
| Deletions.DeletedKeyReturns | backend/routers/vllm_config.py:139-144 | An input on which a key deleted in a list item is back after a second edit of that item |
| ConfigRouter.MergeInto | backend/routers/vllm_config.py:84-104 | The loops of `_merge_into`, including the name index and the in-place list updates, compute the specification function |
| ConfigRouter.DeepMerge | backend/services/cr_adapter.py:140-148 | The loop of `deep_merge` computes the specification function |
| ConfigRouter.BuildPatchBody | backend/routers/vllm_config.py:119-145 | Both paths of `_build_patch_body` compute the compiled body of the sub-patches |
| Args.BothFormsRead | backend/services/cr_adapter.py:66-82 | `--flag value` and `--flag=value` are the same argument at any position of a line: the last one of a key is the value read, all other keys read as without it, and neither form leaves a token behind |
| Args.BareFlagReadsNothing | backend/services/cr_adapter.py:70-76 | A flag at the end of a line, or before a token with dashes, is taken off the line and sets nothing |
| Args.ReadInPieces | backend/services/cr_adapter.py:66-82 | A line is read piece by piece wherever a piece starts with dashes |
| Args.OverrideReadsBack | backend/services/cr_adapter.py:66-108 | Stripping the tuning arguments and appending the updated ones reads back as the update without empty values, and keeps all tokens that stripping keeps, in order |
| Args.StripKeeps | backend/services/cr_adapter.py:66-97 | Of the tokens the parser does not read, stripping loses exactly those that only start like a tuning flag |
| Args.LookalikesAreUnread | backend/services/cr_adapter.py:66-82 | The parser never takes such a token, wherever it stands |
| Args.OverrideUnread | backend/services/cr_adapter.py:66-108 | What the parser does not read of an overridden line is the stripped line |
| Args.OverrideKeepsUnread | backend/services/cr_adapter.py:66-108 | An override keeps all that the parser does not read if and only if no token only starts like a tuning flag |
| Args.OverrideLookup | backend/services/cr_adapter.py:66-108 | The value read for any key: the new one, else the old one, and none where that is empty |
| Args.OverrideTwiceLookup | backend/services/cr_adapter.py:66-108 | Key by key, two overrides are one override by the combined configuration, empty values included |
| Args.OverrideTwice | backend/services/cr_adapter.py:66-108 | Without empty values the two command lines are equal token by token |
| Args.OverrideByNothing | backend/services/cr_adapter.py:66-108 | Overriding by nothing normalises once and for all |
| Args.PrintedLine | backend/services/cr_adapter.py:100-108 | A printed configuration consists of tuning arguments only and parses back to its non-empty entries |
| Args.AssignmentFacts | backend/services/cr_adapter.py:66-82 | Each printed token is recognised by exactly its own key and yields its value |
| Args.FlagsPrefixFree | backend/services/cr_adapter.py:7-14 | No token starts with two different tuning flags |
| Args.StripIsStatic | backend/services/cr_adapter.py:85-97 | What stripping keeps contains no tuning argument |
| Args.UpdatedFacts | backend/services/cr_adapter.py:267-275 | `dict.update` overrides key by key |
| Args.UpdatedAssociative | backend/services/cr_adapter.py:267-275 | Updating twice is updating by the combination, order of keys included |
| Args.LookalikeFlagIsLost | backend/services/cr_adapter.py:85-97 | Any of the four flags continued by anything but an equals sign is lost by every override, at any position |
| ArgLoops.ArgsListToConfigDict | backend/services/cr_adapter.py:66-82 | The parser's loop |
| ArgLoops.StripTuningArgs | backend/services/cr_adapter.py:85-97 | The stripper's loop |
| ArgLoops.ConfigDictToArgsList | backend/services/cr_adapter.py:100-108 | The printer's loop |
| Words.SplitJoin | backend/services/cr_adapter.py:25-31 | Plain words survive being joined by spaces and split again |
| Words.SplitIsWords | backend/services/cr_adapter.py:25-31 | Splitting plain text yields words |
| Adapters.NewValueWords | backend/services/cr_adapter.py:111-118 | The space-separated string written for an LLMInferenceService holds exactly the overridden command line, although its prefix is itself joined and split again |
| Adapters.AppliedArgs | backend/services/cr_adapter.py:277-286 | Applying leaves a well-shaped resource with the overridden command line, for both kinds |
| Adapters.ApplyReadsBack | backend/services/cr_adapter.py:378-437 | Reading after applying gives the old configuration overridden by the new one, empty values dropped; extra arguments are unchanged |
| Adapters.ApplyKeepsOtherArgs | backend/services/cr_adapter.py:267-286 | After an apply the resource has all arguments that the parser does not read if and only if none of them only started like a tuning flag |
| Adapters.ApplyTwice | backend/services/cr_adapter.py:400-437 | Two applies of non-empty values leave the very resource that one apply of the combined values leaves |
| Adapters.ApplyKeepsSkeleton | backend/services/cr_adapter.py:277-286 | Applying changes the command line and nothing else in the resource |
| Adapters.UpsertFacts | backend/services/cr_adapter.py:404-435 | The written container or variable is found again; writing twice is writing the last |
| Adapters.CleanFacts | backend/services/cr_adapter.py:128-137 | Cleaning for create is idempotent and keeps the specification |
| Adapters.CleanRemovesExactly | backend/services/cr_adapter.py:128-137 | Cleaning takes away the fields that the server manages, at the top and in the metadata, and nothing else; a resource without any is left as it is |
| Adapters.CleanKeepsArgs | backend/services/cr_adapter.py:128-137 | All the adapters read survives cleaning |
| Adapters.CleanDetermines | backend/services/cr_adapter.py:128-137 | Resources that differ in server-managed fields only are read alike and changed alike |
| CustomResources.CustomResource.ApplyArgs | backend/services/cr_adapter.py:400-437 | The in-place edit computes the specification for both kinds, and returns the cleaned result |
| CustomResources.CustomResource.EditMainContainer | backend/services/cr_adapter.py:404-435 | Finding or adding the main container and its variable, step by step |
| CustomResources.FirstCalled | backend/services/cr_adapter.py:349-354 | The first item of a name, or none |
| PatchVersusApply.PatchAgreesWithApply | backend/services/cr_adapter.py:267-286 | The PATCH endpoint's compiled body, applied by the server, and the tuner's in-place edit give the same resource, for both kinds |
| PatchVersusApply.LlmPatchAgrees | backend/services/cr_adapter.py:378-437 | The same through two nested name-keyed lists |
| PatchVersusApply.OneItemExpand | backend/routers/vllm_config.py:84-116 | A one-item patch of a name-keyed list rewrites or appends that item |
| Endpoint.ValidateAndMergeResources | backend/routers/vllm_config.py:60-71 | Empty values become deletions, tiers without keys are left out, and no patch is made of nothing |
| Endpoint.PatchesAreCompatible | backend/routers/vllm_config.py:262-283 | The sub-patches of a request are pairwise compatible, for both kinds |
| Endpoint.RequestIsSequencable | backend/routers/vllm_config.py:262-283 | A request's sub-patches meet the conditions of compilation |
| Endpoint.RequestMeansEdits | backend/routers/vllm_config.py:229-296 | The compiled sub-patches of a request do on the spec copy what its edits do in turn, exactly when the last one is grounded in the edited object |
| Endpoint.ResourcesGrounded | backend/services/cr_adapter.py:294-296 | A resources patch of an InferenceService is grounded exactly when it deletes from tiers only that the resource has |
| Endpoint.RequestOnServer | backend/routers/vllm_config.py:229-296 | One PATCH of a request leaves everything but the spec of the server's object as it is, and makes the spec what `_merge_into` makes of it edit by edit: always for an LLMInferenceService, and for an InferenceService exactly when no key is deleted from a tier it does not have, where the server drops the null that `_merge_into` keeps |
| ResourceRequests.ResourcesOnServer | backend/routers/vllm_config.py:60-71 | Every resource key after one PATCH: a value asked for is there, a key not named is as before, a key to be deleted is gone, except that an LLMInferenceService gets a null for one whose tier the main container does not hold |
| ResourceRequests.DeletedKeysAreGone | backend/routers/vllm_config.py:63 | No key to be deleted is there after the PATCH, always for an InferenceService, and for an LLMInferenceService exactly when the main container of a name-keyed list holds the tiers as objects |
| ResourceRequests.BodyCarriesResources | backend/routers/vllm_config.py:119-148 | The compiled body for an InferenceService carries the cleaned resources, deletions included, whatever else is requested |
| Endpoint.OthersLeaveResources | backend/routers/vllm_config.py:262-283 | The other edits of a request, which come before the resources, do not touch them, for both kinds |
| Requests.RequestIsEdit | backend/routers/vllm_config.py:229-296 | One PATCH of a whole request gives the very resource that writing arguments, model location and resources in place gives, for both kinds; it then reads the overridden command line if arguments are asked for and the old one if not, and the location asked for or the old one |
| Requests.EditsLead | backend/routers/vllm_config.py:262-283 | The sub-patches of a request, one after another, lead to the resource edited in place |
| Requests.BodyIsFold | backend/routers/vllm_config.py:122-126 | Without name-keyed lists, the compiled body does on the server what its sub-patches do one after another |
| Requests.MainMerge | backend/routers/vllm_config.py:84-104 | Merging one member of the main container is writing it in place, the container found or appended |
| Trials.LearnLimits | backend/services/boot_diagnosis.py:390-405 | One limit for each diagnosis that suggests a usable bound |
| Trials.FirstViolatedLimit | backend/services/boot_diagnosis.py:408-416 | The first violated limit, and none exactly when all are kept |
| Trials.LessonShutsOut | backend/services/boot_diagnosis.py:390-416 | A bound learned below a failing value shuts out that value and all above it at the same or a lower utilization |
| Trials.LessonsExactly | backend/services/boot_diagnosis.py:383-416 | The limits learned from a failure admit exactly the parameters that heed each diagnosis with a usable suggestion: no more slots than Mamba blocks and no longer contexts than the cache holds unless at a higher utilization, and never longer ones than the model can |
| Trials.ScoreEmbedsOrder | backend/services/tuner_logic.py:207-213 | The score orders runs as intended: SLA first, then throughput, else the smaller p99; its sign is the SLA verdict |
| Trials.ScoreOfFigures | backend/services/tuner_logic.py:207-213 | The score is the reported throughput within the SLA, else the negative multiple of the SLA that the p99 is; missing figures count as 0 and 9999 seconds |
| Trials.ReportedOrder | backend/services/tuner_logic.py:207-213 | The intended order, on the figures reported |
| Trials.BestIsEarliestMaximum | backend/services/tuner_logic.py:391-398 | The best trial is the earliest completed one with the greatest score |
| Trials.HistoryAt | backend/services/tuner_logic.py:393-398 | Every entry of the history is the best score of its time |
| Trials.HistoryNonDecreasing | backend/services/tuner_logic.py:393-398 | From the first completed trial on, the history never decreases |
| Trials.BestScoreTellsSla | backend/services/tuner_logic.py:558-572 | The best score is non-negative exactly when some completed trial met the SLA |
| Memory.RejectionIsClosed | backend/services/tuner_logic.py:54-81 | A rejected configuration stays rejected with more slots, longer contexts, more batched tokens in force or less utilization |
| Memory.BatchedTokensPart | backend/services/tuner_logic.py:69-73 | A configuration rejected with some number of batched tokens is rejected with any greater one, in every model of the same search range, exactly unless the smaller is 0 and the greater lies below the lower end of that range |
| Memory.RejectedExactly | backend/services/tuner_logic.py:54-81 | A configuration is rejected exactly when cache size and budget are known and the attention cache of one sequence or the state of all slots exceeds nine tenths of the budget |
| Memory.UnknownBatchIsOne | backend/services/model_analysis.py:126-144 | An unknown number of batched tokens counts as one |
| Memory.AdmittedHoldsOneSequence | backend/services/model_analysis.py:126-144 | Admission decides cache and slots' state each against nine tenths of the analysis' budget; an admitted configuration has capacity for a whole sequence exactly when the budget holds cache and state together, as without linear state, or with a state of at most a tenth of it |
| Memory.LinearStateAgreesExactly | backend/services/tuner_logic.py:54-81 | Every admitted context length holds one sequence exactly when the longest does; a state of a tenth of the budget suffices, and a tenth plus the cache of one token is too much |
| Memory.SlotsBoundState | backend/services/tuner_logic.py:74-77 | Admitted slots that hold nine times the state leave room for one sequence |
| Memory.UnsharedSlotsAgree | backend/routers/tuner.py:543 | With the slot state the tuner passes, nine slots that share no blocks suffice |
| Memory.AvailableIsKvBytes | backend/services/model_analysis.py:383-388 | Both files compute the same cache budget |
| Memory.RequiredIsOneSequence | backend/services/model_analysis.py:126-144 | Both files charge one sequence the same attention cache, sliding window included; the analysis adds its state, the prediction takes the larger of cache and slots |
| Memory.LinearStateParts | backend/services/tuner_logic.py:54-81 | A model with linear state that is admitted and whose capacity is 0 |
| Memory.CapacityIsGreatest | backend/services/model_analysis.py:464-486 | The capacity is the greatest number of sequences that fit the budget, floored at zero |
| Memory.CapacityTable | backend/services/model_analysis.py:464-486 | Rows for the listed context lengths up to the model's, each with the greatest count, never increasing |
| Memory.BootStateBytesPerSeq | backend/services/model_analysis.py:147-157 | The state of a slot at boot is at most that of a sequence, all of it where blocks are not shared, and else the full layers' share of it, rounded down |
| Memory.AlignedRange | backend/services/model_analysis.py:536-544 | Suggested ranges are multiples of 32, ordered, within 32 and 1024, and below a cap of at least 64; no greater multiple would do for the upper end, nor for a quarter of it |
| Memory.SuggestSearchSpace | backend/services/model_analysis.py:522-544 | There is no suggestion exactly when no context length fits; a suggested range is aligned, ordered and tight for the capacity of the deciding row: the last fitting one of 2048 tokens, else the first fitting one |
| Memory.ClampToCap | backend/services/model_analysis.py:559-563 | Clamping makes the upper end the smaller of itself and the cap, keeps the order, and changes nothing within the cap |
| Cluster.ParamsEntriesFacts | backend/services/k8s_operator.py:321-336 | Trial parameters, written as arguments and parsed again, are four distinct non-empty entries |
| Cluster.ParamsEntriesDenote | backend/services/k8s_operator.py:321-336 | Each argument's text, read as a number, is the trial's own value of that parameter |
| Cluster.IntTextReads | backend/services/k8s_operator.py:321-336 | Writing a number and reading it back |
| Cluster.AppliedCarries | backend/services/k8s_operator.py:366-370 | A resource with parameters applied has, under each flag, a text that denotes the parameter's value |
| Cluster.K8sOperator.WaitForDeletion | backend/services/k8s_operator.py:219-252 | The polls made, and how they decide the wait: a 404 ends it well, a broken reply escapes, all else times out |
| Cluster.K8sOperator.RecreateFromSnapshot | backend/services/k8s_operator.py:441-464 | If its create takes effect, the snapshot is there again |
| Cluster.K8sOperator.TakeSnapshot | backend/services/k8s_operator.py:362-370 | The snapshot is the resource as read, and the modified one is made of it |
| Cluster.K8sOperator.CreateOrRestore | backend/services/k8s_operator.py:391-419 | A failed create of the modified resource is always followed by one of the snapshot; the resource is present exactly when one of them took effect |
| Cluster.K8sOperator.ApplyParams | backend/services/k8s_operator.py:338-439 | Every request made and every reply, and the outcome by them: success means that the old resource with the new arguments is there, each denoting the parameter asked for; otherwise the server holds the old, the modified or no resource; after an accepted deletion one is present only if a create took effect, after a broken wait none is tried, and after a deletion that was answered by an error none is tried either, whether it took effect or not |
| Cluster.K8sOperator.RollbackToSnapshot | backend/services/k8s_operator.py:466-506 | Every request made and every reply, and the outcome by them: it raises exactly at a broken reply or a deletion that does not complete; success means that the snapshot is there |
| Cluster.CheckReady | backend/services/cr_adapter.py:121-125 | Ready exactly when the first condition of that type says true, in any case of letters |
| Cluster.IsTrueExactly | backend/services/cr_adapter.py:121-125 | What says true: the boolean, or the word in any case of letters |
| Tuner.AutoTuner.WaitForReady | backend/services/k8s_operator.py:159-217 | The polls made and how they decide the wait: ready exactly at the first resource read whose status says so, unless a stop takes it back; a broken reply escapes; not ready only after a refused access or all polls that the time allowed; waiting changes nothing but may see a deletion complete |
| Tuner.AutoTuner.Record | backend/services/tuner_logic.py:389-398 | Recording keeps best trial and history those of the trial list |
| Tuner.AutoTuner.LearnFrom | backend/services/auto_tuner.py:317-334 | Exactly the lessons not known before are added, in order |
| Tuner.AutoTuner.OnTrialFailure | backend/services/auto_tuner.py:307-355 | A failed trial is diagnosed, its lessons are learned, and it is recorded with its own number and parameters |
| Tuner.AutoTuner.WaitForTrial | backend/services/auto_tuner.py:203-229 | A trial that does not get ready, and whose wait saw no stop, is rolled back, by the requests of a rollback, then diagnosed, learned from, recorded and told; it is left alone exactly when a stop came |
| Tuner.AutoTuner.ApplyTrial | backend/services/auto_tuner.py:181-201 | Success deploys the resource with the trial's parameters; a failed apply tells the study and ends the session |
| Tuner.AutoTuner.EvaluateTrial | backend/services/tuner_logic.py:475-517 | What was measured is told and recorded under the trial's own number and parameters with its score; an evaluation that raises is diagnosed, recorded as failed and told |
| Tuner.AutoTuner.RunTrial | backend/services/tuner_logic.py:470-517 | A trial that was not skipped, told completely by its attempt: requests, events, record, lessons, and what is deployed after it; it is cancelled only by a stop |
| Tuner.AutoTuner.ExecuteTrial | backend/services/tuner_logic.py:414-517 | One pass of the loop: exactly the parameters that are predicted to run out of memory or violate a known limit are skipped, all others are tried |
| Tuner.AutoTuner.Finalize | backend/services/tuner_logic.py:558-609 | The best parameters are applied to the resource deployed and, if it was recreated, waited for, by these requests; without a stop, ready means exactly that the wait saw it ready; then the resource carries them; without a best trial nothing is asked |
| Tuner.AutoTuner.RunTrials | backend/services/auto_tuner.py:506-521 | The loop produces a session: records, limits, events and requests are those of its attempts; attempts within five times the trials, counted ones within the trials; it uses them up unless a stop, a failed apply or an exception ends it |
| Tuner.AutoTuner.Start | backend/services/auto_tuner.py:476-553 | A whole session: all requests, events, records and limits are those of a sequence of attempts that is a session, from the first wait to the last; the resource changes in its tuning arguments only, or in tokens that only start like one; every result has its cause: not started, an initial wait not ready; stopped, a stop or a failed apply; aborted, an exception in the attempts or a wait; finished, all trials or attempts used up and the best parameters applied; a running tuner rejects and changes nothing |
| Sessions.SessionOneMore | backend/services/tuner_logic.py:414-517 | How one more attempt continues a session |
| Sessions.LessonsHeeded | backend/services/boot_diagnosis.py:390-416 | Once a failed trial has taught a limit, no later trial that violates it is applied; below the failing value, that value or a greater one never meets the failing utilization or a smaller one again; and no trial predicted to run out of memory is applied |
| Sessions.DiagnosesHeeded | backend/services/boot_diagnosis.py:390-416 | Every diagnosis of a failed trial is heeded by every later trial that is applied |
| Sessions.SkippedForCause | backend/services/tuner_logic.py:414-470 | A trial is skipped if and only if it would run out of memory, violates a limit known before the session, or does not heed a diagnosis of an earlier trial |
| Sessions.KnownLimitsHeeded | backend/services/tuner_logic.py:424-429 | Limits known before a session are heeded from its first trial on |
| Sessions.RecordsAt | backend/services/tuner_logic.py:414-517 | Every attempt has exactly one record, in order and of its own; a last one that ended the session has none |
| Sessions.ToldOnce | backend/services/tuner_logic.py:414-517 | Every asked trial is told exactly once, in order, but for a last one whose wait was cancelled or raised |
| Sessions.BestWasMeasured | backend/services/tuner_logic.py:391-398 | The best trial is the earliest maximum among attempts that were measured, with its own parameters and figures |
| Sessions.BestTellsSla | backend/services/tuner_logic.py:558-572 | The best score is non-negative exactly when some trial of the session was measured within the SLA |
| Sessions.KnownGood | backend/services/k8s_operator.py:362-366 | As long as rollbacks succeed, every trial is asked for while the resource last read with a status that says ready is deployed |
| Sessions.MeasuredOnItsParameters | backend/services/k8s_operator.py:366-370 | What a trial was measured on has, under each flag, a text that denotes the trial's value of the parameter, and is the resource before it but for arguments |
| Sessions.CreatedAreUnmanaged | backend/services/k8s_operator.py:366-419 | Every resource that a session creates is free of the fields that the server manages |
| Metrics.ComputeHistogramQuantile | backend/services/metric_math.py:68-120 | Sorting, total, search and interpolation, loop by loop |
| Metrics.SortedFacts | backend/services/metric_math.py:76-84 | Distinct bounds in any order come out strictly ascending, none lost |
| Metrics.QuantileInFirstReaching | backend/services/metric_math.py:84-120 | The quantile lies in the first bucket whose count is at least the asked share of the greatest count, and splits its width as that share splits its counts |
| Metrics.QuantileInvertsCount | backend/services/metric_math.py:84-120 | For cumulative counts, the piecewise linear count up to the quantile is the asked share of the greatest count, or all below the last finite bound |
| Metrics.QuantileOfAnyOrder | backend/services/metric_math.py:68-120 | The same place in the sorted buckets for distinct buckets in any order, and 0 when all counts are 0 |
| Metrics.NegativeCountsAreSkipped | backend/services/metric_math.py:84-104 | Buckets with negative counts play no part |
| Metrics.InterpolatedInside | backend/services/metric_math.py:100-118 | The interpolated value lies in its bucket and splits the bucket's counts as the rank does |
| Metrics.QuantileMonotone | backend/services/metric_math.py:68-120 | The result is monotone in the quantile, for buckets in any order and whether or not the counts are cumulative |
| Metrics.QuantileOfScaledCounts | backend/services/metric_math.py:68-120 | Scaling all counts by a positive factor changes no quantile |
| Metrics.QuantileLinearInScale | backend/services/metric_math.py:68-120 | The result is linear in `scale` |
| Counters.RatesConserve | backend/services/metric_math.py:12-44 | Over any scrapes, rates times elapsed times add up to the last value minus the first plus all drops at resets |
| Counters.FirstScrapeConserves | backend/services/metric_math.py:12-44 | The same from the first scrape of a counter on |
| Counters.StepConserves | backend/services/metric_math.py:24-42 | One scrape conserves the count; rates are never negative |
| Counters.StaleScrapeIsHarmless | backend/services/metric_math.py:30-35 | A scrape not later than the last one loses no increment: leaving it out changes neither the sum nor the state |
| Counters.BucketConserves | backend/services/metric_math.py:123-164 | Over any scrapes, with or without the histogram or the bucket, the rates of a bucket account for its growth between the first and the last count seen and the drops at resets, less what is lost, plus what is counted in excess |
| Counters.HistogramRunConserves | backend/services/metric_math.py:123-164 | The same of the rates that any run of calls for a pod returned |
| Counters.LostExactly | backend/services/metric_math.py:141-162 | Nothing is lost if and only if no scrape that brings growth is stale or follows one without the histogram |
| Counters.ExtraExactly | backend/services/metric_math.py:148-152 | Nothing is counted in excess if and only if no bucket with a count shows up in a histogram that just lacked it, unless it was last seen at 0 |
| Counters.GapsMiscount | backend/services/metric_math.py:141-162 | Without a stale scrape: growth lost over a scrape without the histogram, and a known count counted again |
| Counters.BucketExactly | backend/services/metric_math.py:141-162 | Every scrape accounts for exactly the growth it shows if and only if neither comes up |
| Counters.RateOfBucket | backend/services/metric_math.py:141-158 | The rate computed for a bucket follows from the last and the current sight of it alone: missing histogram, missing bucket, or count |
| Counters.QuantileOfRates | backend/services/metric_math.py:123-164 | The quantile of a histogram's rates is that of its increments, however long the interval |
| Counters.TargetCache.ComputeRates | backend/services/metric_math.py:12-44 | Each counter of a scrape takes exactly one step; other counters and pods are untouched |
| Counters.TargetCache.ComputeHistogramRates | backend/services/metric_math.py:123-164 | One more call in the pod's run, answered against the call before it, whose snapshot and time it replaces; other pods are untouched |
| Load.FailureChecker.Check | backend/services/load_engine.py:551-581 | One call extends the run of the checker by one batch and its verdict |
| Load.AbortVerdict | backend/services/load_engine.py:551-581 | For any batching, one report at most, and exactly when the first batch is complete, all failed, and the non-empty errors form a singleton |
| Load.AbortVerdictOrderIndependent | backend/services/load_engine.py:551-581 | Any arrival order and any batching of the same results lead to the same reports |
| Load.CollectOrderIndependent | backend/services/load_engine.py:563-565 | What is collected depends on which results came, not on their order |
| LoadEngines.LoadTestEngine.Process | backend/services/load_engine.py:442-455 | The counters add up over all results; the kept ones are the last thousand in order |
| LoadEngines.LoadTestEngine.ProcessCompleted | backend/services/load_engine.py:435-457 | Tasks that are done move from pending to processed, each once |
| LoadEngines.LoadTestEngine.Drain | backend/services/load_engine.py:583-621 | Unless the checker reports or an exception of another kind escapes, every remaining task is processed once, exceptions of the caught kinds as failures |
| LoadEngines.LoadTestEngine.ExecuteRequests | backend/services/load_engine.py:623-651 | For any completion order and any stop, a run that is neither aborted nor crashed created all requests due before the stop, has completed plus failed equal to the tasks created, and processed each exactly once and gave it to the checker |
| LoadEngines.LoadTestEngine.RunLoad | backend/services/load_engine.py:680-686 | A run is aborted with an error only when each of the first five requests, or all if there are fewer, comes back as a failure and the errors they tell are that one, and it is not completed past them when they do; the completed counter of a finished run is the number of requests that came back with success |
| LoadEngines.FirstBatchFailedExactly | backend/services/load_engine.py:551-581 | The collected first batch is condemned exactly when all of it has been processed and fails at once |
| LoadEngines.SuccessesAreReturned | backend/services/load_engine.py:583-621 | The successes counted are the tasks that came back with one; a caught exception is none |
| LoadEngines.VerdictTells | backend/services/load_engine.py:551-581 | From the checker's reports to the processed results of a run |
| LoadEngines.DistinctCount | backend/services/load_engine.py:623-651 | Distinct task numbers that cover those created are as many as those |
| Sweep.FindKneeRps | backend/services/load_engine.py:32-52 | The first maximizer of throughput over latency among eligible steps, and none exactly when none is eligible |
| Sweep.TakeSteps | backend/services/load_engine.py:723-796 | The steps of a sweep over any measurements and stops: a progression within the range, up to the first saturated window, a third complete failure in a row, a stop, or the end of the range |
| Sweep.RunSweep | backend/services/load_engine.py:704-813 | The saturation point closes the first window of saturated steps; the optimal rate is the last unsaturated one and lies strictly below it |
| Sweep.RatesGrow | backend/services/load_engine.py:723-724 | Rates strictly grow |
| Sweep.SaturatedExactly | backend/services/load_engine.py:764-775 | A step is saturated exactly when more failed than the tolerated share of its results, or its p99 exceeds the factor times that of the first step |
| Sweep.ErrorRateExactly | backend/services/load_engine.py:764-775 | The error rate exceeds a bound exactly when more failed than that share of the results |
| Sweep.DegradingServiceSaturates | backend/services/load_engine.py:748-804 | A service healthy up to some step and overloaded from there on is found saturated exactly when the sweep gets the required number of steps into the overload; the optimal rate is then that of the last healthy step |
| Sweep.LongWindowServes | backend/services/load_engine.py:754-759 | With three or more stable steps required, a saturated window holds a step that did not fail completely |
| Sweep.FailingServiceSaturates | backend/services/load_engine.py:748-796 | A service whose every run fails and reports so is saturated exactly with at most two stable steps required, a tolerated error rate below 1, and that many steps within the range and before a stop; else the sweep ends at the third failure exactly if it gets that far |
| Sweep.SilentServiceIsNeverSaturated | backend/services/load_engine.py:748-775 | A service whose runs report no figures is swept over the whole range, or until a stop, without a saturated step |
| Sweep.SilentStepMayBeOptimal | backend/services/load_engine.py:798-804 | A sweep whose optimal rate is one at which the run reported nothing |
| RunReports.ComputeStats | backend/services/load_engine.py:815-872 | The figures of a run from the engine's counters and kept results; none for an aborted or empty run |
| RunReports.P99IsLatency | backend/services/load_engine.py:851-858 | The reported p99 is the value at the last position of the sorted latencies that is not beyond 99 hundredths of the way from first to last |
| RunReports.LatenciesInPieces | backend/services/load_engine.py:815-858 | The latencies are those of the successes, in order, and of no other result |
| RunReports.MeanBalances | backend/services/load_engine.py:815-872 | The deviations from the mean add up to zero |
| RunReports.FailedRunMeetsSla | backend/services/tuner_logic.py:207-213 | A run without any success meets the SLA exactly when it processed something and was not aborted, and then scores 0 |
| RunReports.FailedRunBeatsViolation | backend/services/tuner_logic.py:207-213 | Such a run beats every run that violates the SLA |
| RunReports.Probe | backend/services/tuner_logic.py:244-298 | A whole run as the tuner evaluates it: when every request failed, the SLA counts as met exactly if something was processed and the first requests did not all fail with one common error |
| RunReports.FailedStepIsSaturated | backend/services/load_engine.py:764-775 | In a sweep, a step whose run failed every request counts as unsaturated exactly when the run reported nothing |
| Storages.PrunedKeepsNewest | backend/services/storage.py:780-830 | Pruning keeps at least the asked number of rows or all, deletes only rows strictly older than every kept one, and keeps exactly that number when times are distinct |
| Storages.KeptExactly | backend/services/storage.py:780-830 | A row is kept exactly when fewer rows than the asked number are strictly newer |
| Storages.PruneTwice | backend/services/storage.py:780-830 | Pruning again deletes nothing |
| Storages.Storage.Prune | backend/services/storage.py:780-833 | Unless a database error strikes before the deletion, the table is pruned; without any error the result is the number deleted |

## Left out

- Quoting on the command line (`shlex`): the space-separated form is modelled for text without quotes and backslashes,
  which `" ".join` would not preserve.
- Configuration values other than strings, such as numbers and booleans, whose text form Python decides.
- Names in name-keyed lists that are equal across types (`1`, `1.0` and `True`) or unhashable, for which Python raises.
- Resources whose shape makes the adapters raise (arguments that are no list of strings, containers that are no
  objects); the model asks for well-shaped ones.
- Requests.RequestIsEdit: is stated for container lists that can be merged by name, with distinct names as Kubernetes
  demands; a PATCH replaces any other list, where an edit in place would keep its items.
- The deep copy of the resource before the in-place edit: bodies are immutable values here, so a snapshot that shares
  parts with the edited resource cannot arise.
- The order of keys in JSON objects, and defaults, webhooks or validation by which the server would change a `spec`.
- NaN, infinities of division, and rounding of floats: arithmetic is over reals, with an unbounded top bucket as a
  constructor of its own.
- Conditions in a status that are no objects, for which the source raises.
- The moment at which a stop comes: it shows at the next point at which the session looks for one. The time a wait has
  is a number of polls, at least one.
- Counters whose names end in `_ts`, which would collide with the time stamps kept beside the values.
- The sampler (`suggest_params`, `_sanitize_suggestion`, warm-up suggestions) and the pruner: parameters and pruning
  verdicts are arbitrary; only the maximal context length is fixed by the configuration.
- Preflight checks, reports, benchmarks, event streams, metrics of the tuner, and persistence of trials and limits.
- Failures inside the failure handler, which the tuner swallows; with them a failed trial could stay unrecorded.
- Time to first token, inter-token latencies and the other figures of a run that neither the sweep nor the score reads.
- The two load runs of one evaluation, of which the first may prune the trial: an evaluation has one result.
- Cancellation of a session's task by `asyncio`, and mutual exclusion of sessions over stop and start: `stop` clears the
  running flag before the old task has ended.
- The parameters recorded with a failed start lack the context length in the source; here they are all recorded.
- The text by which boot failures are diagnosed: diagnoses are arbitrary.
- Error rates over runs of more than a thousand requests, where the statistics mix a window with uncapped counters.
- The benchmark table, which is pruned by the same code as the load test history.
- Deriving a model's layer and state sizes from its configuration file: they are parameters of the memory formulas.
- The frontend, the assistant, the serving advisor and the chat template heuristics.
