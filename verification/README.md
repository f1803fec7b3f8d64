# Verified model of the Lullabeast configuration and pipeline core

This project models the parts of the repository whose correctness is an argument about many inputs or
many interleavings rather than about one line of code, and proves what they promise:

- the golden-template algebra (conformance, reconciliation, rendering) and the model-override overlay
  that sits on top of it, up to the boot of the container and the doctor's check of the result;
- the lock-free queue update and the rotating event log, as transition systems of any number of
  processes, beside the single call and the single append;
- the completion poller, against a declarative "first deciding iteration" specification;
- the two roadmap parsers, their agreement, and the run that ticks off one phase after another;
- the import-graph walk, the reviewer gate, the `.env` rewriter with its two readers, and the
  prerequisites parser.

Where the Python code is a loop over mutable state the model is a method with the same loop, proved
equal to a specification function (or to a declarative condition); the laws are lemmas about that
specification. Dictionaries iterate in any order: loops over them pick keys arbitrarily, and the
proved result does not depend on the order. `dafny verify dfyconfig.toml` checks the whole project.

## Files

| file | subject |
|---|---|
| `Json.dfy`, `Text.dfy` | JSON trees with Python's two equalities; `str` stripping |
| `OpenclawTemplate.dfy` | placeholders, rendering, conformance and reconciliation as functions |
| `TemplateMethods.dfy` | the recursive loops, proved against those functions |
| `TemplateLaws.dfy`, `TemplateOutline.dfy`, `TemplateRendering.dfy` | what reconciliation guarantees, for which templates exactly, and through rendering |
| `JsonPaths.dfy`, `ConformancePaths.dfy`, `LoosePaths.dfy` | patching deep inside a tree; conformance under such patches; trees that Python's `==` does not tell apart |
| `ModelOverrides.dfy`, `OverlayApply.dfy`, `OverlayLoop.dfy` | validation, merging and application of overlays, as functions and as the loops they are |
| `OverlayEffects.dfy`, `OverlayPlaces.dfy`, `OverlayLaws.dfy`, `OverlayWitness.dfy` | what an overlay does place by place and key by key, and the algebra of overlays |
| `BootSteps.dfy`, `BootOrigins.dfy`, `BootDropped.dfy`, `BootRest.dfy`, `BootWrites.dfy`, `Boot.dfy`, `BootWitness.dfy` | the boot, end to end: what the doctor's check comes down to, the writes that are skipped, and boots that fail or die |
| `QueueSemantics.dfy` | the compare-and-swap queue |
| `EventLog.dfy`, `EventLogOrder.dfy` | the shared log under interleaving; one process in order |
| `SentinelPoller.dfy` | the completion poller |
| `Roadmap.dfy`, `RoadmapLaws.dfy`, `RoadmapRun.dfy`, `RoadmapText.dfy`, `RoadmapSpacing.dfy` | both parsers; agreement; printing and whole runs; the line patterns on text and their spacing |
| `Reachability.dfy` | the worklist walk |
| `ReviewerGate.dfy` | the reviewer gate |
| `Dotenv.dfy`, `DotenvLaws.dfy`, `DotenvFrame.dfy` | the `.env` rewriter and readers; what a rewrite leaves alone |
| `PrereqSpec.dfy`, `PrereqRoundTrip.dfy` | the prerequisites parser |

## Where the code and its own description differ

- `reconcile_config_to_template` is described as guaranteeing a conforming result for every template
  (autodev/installer/openclaw_template.py:229-231). Taken over all lists with the same outline (which
  items carry ids, and which ids), it does so exactly when the ids are in order: no id twice, and no
  id-less object in front of an item with an id (`TemplateOutline.OutlineIsExact`, with the failing
  families `RepeatedIdFails` and `HijackedFails`). A particular list with its ids out of order may still
  be harmless, such as one that holds the same item twice.
- Placeholders as plain list items make the check on the raw template fail after healing, unless every
  item is still among the items after rendering (`TemplateRendering.PlainItemsExact`).
- The boot applies only valid overrides, while the doctor folds in whatever the overlay file holds
  (autodev/installer/doctor.py:1231-1235). The boot moves invalid entries to another file; when that
  move fails, the file must already carry the values, prices and parameters of every dropped entry that
  names a model of the template (`Boot.BootPassesDoctor`; `BootWitness.FailingBoot` is a boot that fails).
- The boot writes the healed configuration only if it differs from the persisted one, and the overlaid
  one only if it differs from that, both under Python's `==` (deploy/entrypoint.sh:286-291, 336-339),
  which takes 1 for `True`; the doctor does not. A persisted 1 under a flag that the template wants true
  is never healed (`BootWitness.HiddenFlagBoot`), and an override with `true` over a persisted 1 is never
  written (`BootWitness.HiddenOverrideBoot`). `Boot.BootPassesDoctor` says for all inputs when a skipped
  write matters: when the file does not meet what the template asks for besides the overridden values,
  or does not carry the applied overrides of the template's models.
- `split_valid_overrides` is described as keeping a hand-edited override from crash-looping the boot
  (autodev/installer/model_overrides.py:151-157). An integer price or parameter beyond the float range
  makes validation itself raise OverflowError, and with it the boot: exactly for such overlays
  (`ModelOverrides.SplitValidOverrides`, `Boot.BootSucceeds`; `BootWitness.DyingBoot`).
- `startup_grace_seconds` is described as independent of the stall threshold
  (autodev/pipeline/sentinel_poller.py:215-220), but the stamp is read only when a threshold is given,
  and activity is measured against the first stamp only. Where stamps never fall, "no first activity"
  can be trusted in every world exactly when path and threshold are given
  (`SentinelPoller.GraceTrustedIffWatching`); where they may fall it cannot be trusted even then: after
  stamps 10, 5 and 7 it is reported although the stamp advanced (`SentinelPoller.FallingMisjudged`).
- The UI roadmap parser is described as having the resolver's all-or-nothing contract for the
  behavioural block (ui/roadmap_parser.py:13-19). It looks for bullets in the whole segment, header or
  not, and takes an empty one for missing: the two read the same block exactly when either the last
  bullets under the header are the last ones anywhere and have text, or one is missing under the header
  and one is missing or empty anywhere (`RoadmapLaws.SameBehaviourExactly`, bullet by bullet in
  `RoadmapLaws.BlocksAgreeByPlace`). It also ignores headers that are indented or have more than a word in
  the middle column, which the resolver takes (`RoadmapText.HeadersAgree`), and takes headers with other
  spacing than single blanks, which the resolver ignores: the UI then lists a phase that the pipeline never
  runs (`RoadmapSpacing.HeadersCoincide`, `RoadmapSpacing.TightHeaderParts`).
- The two `.env` readers agree on a value exactly when what is left without its wrapping quotes is not
  empty and has no outer double quote nor, unless double quotes wrapped it, an outer single one
  (`DotenvLaws.ReadersAgree`).
- Re-running the reviewer gate on its own write-back changes the recorded error code, though nothing
  else, exactly when a fit report fails on a regression alone (`ReviewerGate.WriteBackIsFixpoint`, with
  such a report in `ReviewerGate.CodeChanges`). On a fit report with a number or a boolean under
  `blocking_issues`, and only then, the gate raises (`ReviewerGate.CrashesExactly`, `ReviewerGate.CountCrashes`).
- The prerequisites parser strips one `=` payload a bullet: a second one, behind an em-dash, is stored,
  for tools and for environment variables alike (`PrereqSpec.ToolHoldsValueIff`,
  `PrereqSpec.EnvHoldsValueIff`, and the leaking lines of `PrereqRoundTrip.SecondValueLeaks`).

## Model

| member | source | states |
|---|---|---|
| TemplateMethods.TemplateConformanceIssues | autodev/installer/openclaw_template.py:142-223 | the recursive diff lists no issue exactly when the live tree conforms |
| TemplateMethods.IsSatisfied | autodev/installer/openclaw_template.py:201-212 | the search for a counterpart of an item without id finds one exactly when there is one; plain items by Python equality |
| TemplateMethods.ReconcileConfigToTemplate | autodev/installer/openclaw_template.py:226-296 | the healing, key by key and item by item on a copy, equals the reconciliation function |
| TemplateMethods.ReconcileKeys | autodev/installer/openclaw_template.py:257-264 | the loop over the template's keys, in any order |
| TemplateMethods.ReconcileList | autodev/installer/openclaw_template.py:269-293 | the list loop: match by id, edit in place, append what is missing |
| TemplateLaws.ReconcileConforms | autodev/installer/openclaw_template.py:226-296 | for every live tree and every template with ordered ids the result conforms, and reconciling again changes nothing |
| TemplateLaws.ItemsHeld | autodev/installer/openclaw_template.py:269-293 | the list loop keeps all earlier items satisfied while later ones edit or append |
| TemplateLaws.SelfStable | autodev/installer/openclaw_template.py:142-296 | a well-formed template conforms to itself and is a fixed point |
| TemplateLaws.ReconcileFrame | autodev/installer/openclaw_template.py:232-250 | undeclared keys keep their values; every live list element stays at its index, unchanged unless matched by id |
| TemplateLaws.ConformingIsFixed | autodev/installer/openclaw_template.py:226-296 | for a placeholder-free template a conforming tree is left as it is, up to the spelling of numbers, without any condition on ids |
| TemplateOutline.OutlineIsExact | autodev/installer/openclaw_template.py:226-296 | a list outline guarantees conformance, for all items with that outline and all live values, if and only if its ids are in order |
| TemplateOutline.RepeatedIdFails | autodev/installer/openclaw_template.py:183-200 | any outline that repeats an id fails |
| TemplateOutline.HijackedFails | autodev/installer/openclaw_template.py:271-289 | any outline with an id-less object before an item with id fails, with the live list that shows it |
| TemplateOutline.MixedListFails | autodev/installer/openclaw_template.py:269-293 | the smallest such template and live list |
| TemplateRendering.RenderSplices | autodev/installer/openclaw_template.py:94-117 | placeholders are replaced left to right, text between them kept, lone dollar signs included, the first unresolvable variable reported; what one placeholder gives is fixed by `PlaceholderValue` |
| TemplateRendering.PlaceholderValue | autodev/installer/openclaw_template.py:27-117 | a placeholder for any name renders as the stripped variable if that is set and not blank, otherwise as the default of one of the six named variables, otherwise it is reported as unresolved |
| TemplateRendering.NoPlaceholderStays | autodev/installer/openclaw_template.py:94-117 | braces around anything but a name stay as they are, and so does text without a dollar sign, whatever the environment |
| TemplateRendering.RenderTextNotBlank | autodev/installer/openclaw_template.py:105-117 | a string with a placeholder never renders blank |
| TemplateRendering.RenderRefines | autodev/installer/openclaw_template.py:94-117 | a tree conforming to the rendered template conforms to the raw one |
| TemplateRendering.RenderWellFormed | autodev/installer/openclaw_template.py:94-117 | rendering keeps the ids in order |
| TemplateRendering.HealedConformsToRaw | autodev/installer/openclaw_template.py:239-240 | healing towards the rendered template satisfies the check against the raw one |
| TemplateRendering.PlainItemsExact | autodev/installer/openclaw_template.py:209-212 | for a list of strings the rendered check implies the raw one if and only if every item is still among the items after rendering |
| ModelOverrides.ValidateModelOverride | autodev/installer/model_overrides.py:41-148 | no error exactly on valid properties, with the code's ranges, ceilings and bool exclusions; it raises exactly when a price or parameter is an integer beyond the float range |
| ModelOverrides.ValidateField | autodev/installer/model_overrides.py:88-147 | the same for one property |
| ModelOverrides.FieldRules | autodev/installer/model_overrides.py:88-147 | which values of which property are valid, with every range, ceiling and key spelled out |
| ModelOverrides.SplitValidOverrides | autodev/installer/model_overrides.py:151-167 | every entry lands on exactly one side by the same validation, dropped ones with errors, unless validating some entry raises, which ends it |
| ModelOverrides.ValidNeverOverflows | autodev/installer/model_overrides.py:41-46 | validation never raises on what is valid |
| ModelOverrides.MergeFieldInPlace | autodev/installer/model_overrides.py:178-193 | one field: cleared, replaced or merged per key, every other field kept |
| ModelOverrides.MergePropsInPlace | autodev/installer/model_overrides.py:170-194 | the merge loop equals the merge function, and raises exactly on a non-object under a merged sub-key |
| ModelOverrides.MergeModelOverrides | autodev/installer/model_overrides.py:197-210 | the same for the whole overlay; emptied entries are removed |
| OverlayLaws.MergeIdempotent | autodev/installer/model_overrides.py:197-210 | merging the same update twice equals merging it once |
| OverlayLaws.MergeKeepsValid | autodev/installer/model_overrides.py:77-194 | a valid update of a valid or new entry leaves a valid entry or none |
| OverlayLoop.ApplyModelOverrides | autodev/installer/model_overrides.py:213-263 | the loop over the overlay in the order of the dictionary, for any references, with its type errors |
| OverlayLoop.ApplyOne | autodev/installer/model_overrides.py:229-262 | one turn: the search for the entry, the assignments, the merge of prices and the setdefault chain are patches at the model's three places, and it raises exactly on the shapes listed |
| OverlayLoop.FindModel | autodev/installer/model_overrides.py:235-240 | the search stops at the first entry carrying the id |
| OverlayLoop.SetParams | autodev/installer/model_overrides.py:251-262 | the setdefault chain creates what is missing and stops at anything that is no object |
| OverlayApply.OrderIrrelevant | autodev/installer/model_overrides.py:213-263 | for references of different models the order of the dictionary changes neither the result nor whether it raises |
| OverlayApply.SlashedRefsApart | autodev/installer/model_overrides.py:71-75 | references with a slash, which is all the loader lets through, name different models |
| OverlayApply.ApplyRefsCommute | autodev/installer/model_overrides.py:229-262 | overrides of different models commute |
| OverlayWitness.CommuteIffApart | autodev/installer/model_overrides.py:229-262 | two overrides commute on every configuration if and only if they name different models |
| OverlayApply.ApplyAnyFirst | autodev/installer/model_overrides.py:229-262 | the outcome does not depend on the order of the references |
| OverlayApply.OthersRaiseAlike | autodev/installer/model_overrides.py:235-249 | whether an override is a type error does not depend on the others |
| OverlayEffects.OverrideLands | autodev/installer/model_overrides.py:243-250 | the plain properties and prices land on the model's entry, every other key stays |
| OverlayEffects.ParamsLand | autodev/installer/model_overrides.py:251-262 | the parameters land in the agents' defaults, created when absent, over those already there |
| OverlayPlaces.EntryFound | autodev/installer/model_overrides.py:232-240 | `provider/model` means the first entry with that id in the list under models, providers, provider, models, for every provider name without a slash |
| OverlayPlaces.EntrySeen | autodev/installer/model_overrides.py:242-249 | on that entry the four plain properties and the prices are set key by key, nulls left out, a falsy `cost` replaced, every other key kept |
| OverlayPlaces.ParamsSeen | autodev/installer/model_overrides.py:250-262 | the non-null parameters are set key by key under agents, defaults, models, the whole reference, params |
| OverlayEffects.EachOverrideLands | autodev/installer/model_overrides.py:213-263 | in the whole result each model's places are as its own override alone leaves them |
| OverlayEffects.ApplyLeavesTheRest | autodev/installer/model_overrides.py:213-263 | places no override touches keep their values |
| OverlayLaws.ApplyMerge | autodev/installer/model_overrides.py:197-263 | for valid, clear-free updates, applying twice equals applying the merge once, type errors included |
| OverlayLaws.ApplyMergedRef | autodev/installer/model_overrides.py:170-262 | the same for one model |
| ConformancePaths.PutMonotone | autodev/installer/openclaw_template.py:142-223 | a patch of the template, and one of the live tree whose values meet it, keep conformance |
| ConformancePaths.PutExtra | autodev/installer/openclaw_template.py:142-223 | a patch where the template says nothing keeps conformance |
| LoosePaths.PutExtraBack | autodev/installer/openclaw_template.py:142-223 | nor does such a patch make a tree conform that did not, if Python takes it for one that does |
| LoosePaths.LoosePut | autodev/installer/model_overrides.py:229-262 | equal patches of trees equal to Python leave trees equal to Python |
| JsonPaths.PutApart | autodev/installer/model_overrides.py:243-262 | patches at places that part commute |
| JsonPaths.GetApart | autodev/installer/model_overrides.py:235-262 | a patch does not change what is found elsewhere |
| Boot.BootPassesDoctor | deploy/entrypoint.sh:258-340 | for any persisted configuration with dictionaries on the touched paths: the doctor's check of the file a boot leaves passes if and only if validation does not raise, what was dropped but not moved away is carried, a file that healing was skipped for meets the template besides the overridden values, and one that the overlay was not written to carries the applied overrides |
| Boot.BootSucceeds | deploy/entrypoint.sh:258-340 | the boot raises if and only if validation does; the doctor's baseline never does |
| BootOrigins.OriginsConform | deploy/entrypoint.sh:293-310 | listing the published port's origins keeps the configuration conforming |
| BootOrigins.ExtendedLists | deploy/entrypoint.sh:307-309 | every origin is listed afterwards, what was listed stays in front, none is added twice |
| BootDropped.AskedMustBeCarried | autodev/installer/doctor.py:1229-1236 | what the doctor asks for because of an entry, a passing configuration carries: properties, prices and parameters |
| BootRest.DoctorAsks | autodev/installer/doctor.py:1229-1238 | for any configuration and overlay file: the check passes if and only if the overrides of the template's models are carried and the template is met besides the overridden values |
| BootSteps.AllConform | autodev/installer/doctor.py:1229-1238 | an overlay on the template and one on the live side whose values meet it keep conformance |
| BootWrites.RestAfterOverlay | deploy/entrypoint.sh:333-339 | applying overrides changes nothing about what is asked besides the overridden values, also for models the template does not know |
| BootWrites.CheckAfterOverlay | deploy/entrypoint.sh:333-339 | the check after the overlay step, written or not, in terms of the file the step found |
| BootWitness.FailingBoot | deploy/entrypoint.sh:318-339 | a first boot with an invalid override of a template model that could not be moved away fails the doctor's check, for any provider and model name |
| BootWitness.HiddenFlagBoot | deploy/entrypoint.sh:285-291 | a persisted 1 under a flag the template wants true stays, and fails the check, for any flag |
| BootWitness.HiddenOverrideBoot | deploy/entrypoint.sh:333-339 | a valid override with true over a persisted 1 is not written, and fails the check, for any provider and model name |
| BootWitness.DyingBoot | autodev/installer/model_overrides.py:41-46 | a price beyond the float range kills the boot, whatever else the overlay holds and whether or not the model exists |
| BootWitness.HugePriceBootable | autodev/installer/model_overrides.py:41-46 | there are such boots for every provider and model name |
| QueueSemantics.Bump | autodev/pipeline/queue_semantics.py:107-124 | the version goes up by one from its normalised value and nothing else changes |
| QueueSemantics.MutateQueue | autodev/pipeline/queue_semantics.py:127-179 | against any observations: conflict exactly when every attempt was contended; otherwise the first attempt that was not ends in an abort, a tampering or a commit exactly as the mutate function aborts, changes the version or does neither, and only a commit writes, that data under the observed version plus one |
| QueueSemantics.BumpStamps | autodev/pipeline/queue_semantics.py:107-124 | a missing, boolean, non-integer or negative version counts as zero: the first commit on a queue without one writes 1 |
| QueueSemantics.UninterruptedCall | autodev/pipeline/queue_semantics.py:127-179 | a call that nobody interrupts is a run of the shared protocol that ends in the same outcome and leaves the same file |
| QueueSemantics.Serialisable | autodev/pipeline/queue_semantics.py:127-179 | over all interleavings of any number of writers: version equals start plus commits if and only if no replace fell into another's window; then the file is the serial fold and versions are unique |
| QueueSemantics.OnlyGenuineWrites | autodev/pipeline/queue_semantics.py:162-178 | even with overlaps only genuine changes of a queue once current are written |
| QueueSemantics.ConflictMeansContention | autodev/pipeline/queue_semantics.py:162-179 | a call that gives up saw at least as many commits by others as it had attempts |
| QueueSemantics.OverlapLosesUpdate | autodev/pipeline/queue_semantics.py:141-150 | any two genuine changes have a run that loses the first and gives one version two contents |
| QueueSemantics.ReplaceStep | autodev/pipeline/queue_semantics.py:174-176 | the replace step keeps the invariant of all writers |
| EventLog.EventsConserved | autodev/pipeline/event_log.py:67-115 | over all interleavings, with calls dying anywhere and swallowed failures of stat, rename and removal, each written line is in one file, at one place of its own, in order; every file is live, archived or pruned if and only if no rename hit a taken name |
| EventLog.PruningKeepsNewest | autodev/pipeline/event_log.py:85-94 | pruning never takes the live file, and anything it removes has `keep` newer archives ever created |
| EventLog.StepInv | autodev/pipeline/event_log.py:67-115 | every step of every process keeps the invariant |
| EventLog.StatDecides | autodev/pipeline/event_log.py:67-75 | a stat that finds no file or at most `max_bytes` goes on to open the log, a larger file is renamed first |
| EventLogOrder.EventDirectory.RotateIfNeeded | autodev/pipeline/event_log.py:67-94 | below the limit nothing happens; above it the live file is archived and exactly the newest archives stay |
| EventLogOrder.EventDirectory.AppendPipelineEvent | autodev/pipeline/event_log.py:97-115 | the append leaves the line at the end of the log, rotated first if and only if it passed the limit |
| EventLogOrder.KeptListed | autodev/pipeline/event_log.py:88-90 | slicing the sorted listing keeps exactly the names without `keep` newer ones |
| EventLogOrder.AppendKeepsOrder | autodev/pipeline/event_log.py:67-115 | with a fresh timestamp: contents and new line are the pruned lines followed by the contents now |
| EventLogOrder.SmallLogStays | autodev/pipeline/event_log.py:74-75 | a log within the limit is left alone: one line more, no archive comes or goes, nothing is dropped |
| EventLogOrder.LargeLogRotates | autodev/pipeline/event_log.py:77-94 | a larger one is archived whole under the timestamp, the live file is just the new line, and of the archives exactly the newest `keep` stay, as they were |
| EventLogOrder.RunKeepsOrder | autodev/pipeline/event_log.py:67-115 | over a run with increasing timestamps pruned, archived and live lines are the appended sequence in order |
| EventLogOrder.SmallRunStays | autodev/pipeline/event_log.py:67-115 | over a run whose live file never passes the limit nothing is dropped or archived |
| EventLogOrder.RunKeepsBound | autodev/pipeline/event_log.py:85-94 | the number of archives never passes `keep` |
| EventLogOrder.LiveBounded | autodev/pipeline/event_log.py:74-75 | the live file after an append is at most `max_bytes` plus that line |
| EventLogOrder.AppendIsProtocolRun | autodev/pipeline/event_log.py:67-115 | the sequential append is one uninterrupted run of the shared protocol |
| SentinelPoller.PollForSentinel | autodev/pipeline/sentinel_poller.py:278-401 | the loop answers at the first deciding iteration with the last observed stamp, unlinks exactly the stale sentinels, and ends within half the timeout in iterations |
| SentinelPoller.PollOnce | autodev/pipeline/sentinel_poller.py:279-399 | one iteration: the ordered exits, the latches, the unlink |
| SentinelPoller.TracksOn | autodev/pipeline/sentinel_poller.py:317-326 | the latches equal what the history of stamps says |
| SentinelPoller.EndsAtFirst | autodev/pipeline/sentinel_poller.py:278-401 | the poll ends at the first iteration at which time is up, a stop or a tool loop is seen, the stamp went silent, the grace ran out or a fresh sentinel counts |
| SentinelPoller.ReasonExactly | autodev/pipeline/sentinel_poller.py:278-401 | each reason is given exactly when its own condition holds there and none before it in the order does; comparisons strict as in the code |
| SentinelPoller.StampReported | autodev/pipeline/sentinel_poller.py:317-321 | the stamp in the answer is the last one observed, the answering iteration's own included unless the poll ended before reading it |
| SentinelPoller.StalledMeansActivity | autodev/pipeline/sentinel_poller.py:317-335 | stalled only after some stamp rose above an earlier one, at the first iteration that finds the stamp silent after passing its first value |
| SentinelPoller.SilenceEndsPoll | autodev/pipeline/sentinel_poller.py:317-335 | such silence ends the poll there at the latest; a sentinel, held or fresh, does not mask it |
| SentinelPoller.NeverStartedExactly | autodev/pipeline/sentinel_poller.py:317-355 | with a watched stamp "no first activity" follows a rise of the stamp exactly when the stamp fell below its first value and never came back above it; without any rise it is reported exactly when the grace is over |
| SentinelPoller.AdvanceKinds | autodev/pipeline/sentinel_poller.py:317-326 | a rise either passes the first value or stays in such a dip, never both |
| SentinelPoller.SucceededIsFresh | autodev/pipeline/sentinel_poller.py:357-398 | success is a sentinel neither stale nor held; every earlier one was |
| SentinelPoller.FreshDoneEndsPoll | autodev/pipeline/sentinel_poller.py:357-398 | an accepted fresh sentinel ends the poll there at the latest |
| SentinelPoller.GraceTrustedIffWatching | autodev/pipeline/sentinel_poller.py:317-355 | where stamps never fall, "no first activity" is never reported after a rise, in any world, if and only if path and threshold are given |
| SentinelPoller.FallingMisjudged | autodev/pipeline/sentinel_poller.py:317-355 | with stamps 10, 5, 7 it is reported after a rise, for every setting that watches the stamp |
| SentinelPoller.GraceBlindWithoutThreshold | autodev/pipeline/sentinel_poller.py:317-318 | without a threshold the answer does not depend on the stamp at all |
| Roadmap.ParseRoadmap | autodev/pipeline/gate_scripts/phase_resolver.py:165-274 | the resolver's loop returns the answer of `Resolve`: the first unfinished phase with its index, body and prior phase, every field of which `RoadmapRun.AnswerIs`, `AnswerHolds`, `AnswerLacks` and `RoadmapRun.StepSelects` fix |
| RoadmapRun.AnswerIs | autodev/pipeline/gate_scripts/phase_resolver.py:165-274 | the answer is about the first header neither ticked nor skipped: its id, trimmed goal, category, number, blocked flag and leading quotes |
| RoadmapRun.AnswerHolds | autodev/pipeline/gate_scripts/phase_resolver.py:261-274 | each of the four section blocks of that header's body is in the answer's own field, whole |
| RoadmapRun.AnswerLacks | autodev/pipeline/gate_scripts/phase_resolver.py:261-274 | and is empty there when the body lacks it |
| Roadmap.ExtractBehavioralVerification | autodev/pipeline/gate_scripts/phase_resolver.py:56-80 | the last bullet of each field between the first block header and the next section, all three or nothing |
| Roadmap.ScrapeExitCriteria | autodev/pipeline/gate_scripts/phase_resolver.py:251-259 | the quotes before the first other non-blank line |
| Roadmap.SliceUntilNextSection | autodev/pipeline/gate_scripts/phase_resolver.py:118-127 | the lines up to the next structured header |
| Roadmap.ParseUi | ui/roadmap_parser.py:54-126 | the streaming loop with its buffer gives one phase a header, each from its own lines |
| Roadmap.CategoryIsFirstPart | autodev/pipeline/gate_scripts/phase_resolver.py:214-217 | the category is the id up to its first dash, GENERAL without one |
| RoadmapLaws.ParsersAgree | autodev/pipeline/gate_scripts/phase_resolver.py:165-274 | on canonical roadmaps the resolver's answer is the UI list's first phase neither complete nor skipped, with the same id and goal, and with the same block if and only if its bullets are placed alike |
| RoadmapLaws.PriorAgrees | autodev/pipeline/gate_scripts/phase_resolver.py:186-240 | its prior phase is the last complete one before that in the UI list, with the same way to check if and only if that segment's bullets are placed alike |
| RoadmapLaws.SameBehaviourExactly | ui/roadmap_parser.py:13-26 | for which segments exactly the two parsers read the same block, and the same way to check |
| RoadmapLaws.BlocksAgreeByPlace | ui/roadmap_parser.py:13-26 | the same, bullet by bullet: which bullets must stand under the header, and which texts must be alike |
| RoadmapLaws.SameBehaviour | ui/roadmap_parser.py:13-26 | bullets with text between the block header and the next section meet that condition |
| RoadmapLaws.MisplacedBulletsPart | ui/roadmap_parser.py:107-123 | two families that do not: bullets without a block header, and bullets without text |
| RoadmapLaws.PhaseAt | ui/roadmap_parser.py:54-126 | the phase at a header's position is read from that header's lines |
| RoadmapRun.PrintedRoadmapRead | ui/roadmap_parser.py:54-126 | a printed roadmap is recovered whole by the UI parser, and the resolver's answer is the first open page: goal, category, exit criteria, behavioural block and the four section blocks |
| RoadmapText.PrintedTextRead | ui/roadmap_parser.py:54-126 | the same for the printed text, read by the line patterns of both parsers |
| RoadmapText.HeadersAgree | ui/roadmap_parser.py:62-64 | of the lines the resolver takes for a header the UI parser takes exactly those not indented whose middle column is one word, and reads them alike |
| RoadmapSpacing.HeadersCoincide | ui/roadmap_parser.py:62-64 | for every line: both parsers take it for a header or neither does, if and only if its spacing is the resolver's where the UI takes it, and it is not indented and its middle column one word where the resolver does |
| RoadmapSpacing.UiHeadersSinglySpaced | ui/roadmap_parser.py:62-64 | a header spaced in any way is taken by the UI, and by the resolver exactly when it has the single blanks |
| RoadmapSpacing.TightHeaderParts | autodev/pipeline/gate_scripts/phase_resolver.py:23 | a header without blanks is a phase to the UI only, for any mark, id, word and goal |
| RoadmapText.LineRead | autodev/pipeline/gate_scripts/phase_resolver.py:23-42 | every printed header, bullet, section, quote and blank line is read back as printed |
| RoadmapText.BoxRead | autodev/pipeline/gate_scripts/phase_resolver.py:23 | which box stands for which mark, on any header line |
| RoadmapText.TitleRead | autodev/pipeline/gate_scripts/phase_resolver.py:36-42 | the titles of the four section blocks |
| RoadmapText.LabelsRead | autodev/pipeline/gate_scripts/phase_resolver.py:31-35 | the labels of the three bullets |
| RoadmapRun.SectionRead | autodev/pipeline/gate_scripts/phase_resolver.py:118-162 | a section block is read back whole |
| RoadmapRun.PrintedExitCriteria | autodev/pipeline/gate_scripts/phase_resolver.py:251-259 | the resolver reads every printed exit criterion, label included |
| RoadmapRun.RunVisitsInOrder | autodev/pipeline/gate_scripts/phase_resolver.py:165-274 | ticking off the selected phase visits the pending headers before the first blocked one once each in file order with increasing numbers, then completes or stays blocked |
| RoadmapRun.StepSelects | autodev/pipeline/gate_scripts/phase_resolver.py:186-240 | each step's prior phase is the nearest earlier header not skipped, with its own recipe |
| Reachability.Resolve | autodev/pipeline/gate_scripts/reachability/js_ts.py:40-86 | the worklist computes exactly what import chains reach from the entry, plus a pre-seeded package.json; no file is enqueued twice; it ends on any finite project |
| Reachability.EnqueueAll | autodev/pipeline/gate_scripts/reachability/python.py:158-172 | resolved imports are enqueued unless their normal form was seen |
| Reachability.Expand | autodev/pipeline/gate_scripts/reachability/python.py:34-64 | reading one file: unreadable or unparsable ones are noted and not expanded |
| Reachability.ResultIsLeast | autodev/pipeline/gate_scripts/reachability/python.py:29-73 | the result is the least closed set holding the roots |
| Reachability.SeedingOnlyCuts | autodev/pipeline/gate_scripts/reachability/js_ts.py:45-48 | pre-seeding package.json never adds other files, and takes away exactly the files that every import chain reaches through it, none if it is the entry |
| ReviewerGate.ReviewerOutput.EvaluateReviewer | autodev/pipeline/gate_scripts/reviewer_gate.py:437-637 | the gate's verdict, error code and write-back equal the evaluation function, whose answers `VerdictsExactly`, `CodesExactly` and `IssuesWritten` fix for every output |
| ReviewerGate.VerdictsExactly | autodev/pipeline/gate_scripts/reviewer_gate.py:437-637 | for every verdict the exact condition on the reviewer's output: refusals in the order of the checks, pass, raise, and the three routes by retries spent and an issue blaming the plan; keys, verdict words and the three-anchor minimum spelled out |
| ReviewerGate.CodesExactly | autodev/pipeline/gate_scripts/reviewer_gate.py:451-610 | the code recorded with each verdict, the one for a prior-phase regression exactly when that is all there is, and the file changed only when the phase is sent back |
| ReviewerGate.ReviewerOutput.SynthesizeBehavioralBlockingIssues | autodev/pipeline/gate_scripts/reviewer_gate.py:240-296 | one issue an evidence object, only into an empty list |
| ReviewerGate.ReviewerOutput.SynthesizeRegressionBlockingIssue | autodev/pipeline/gate_scripts/reviewer_gate.py:299-370 | one regression issue appended unless there is one; it raises exactly on a truthy value that cannot be looped over |
| ReviewerGate.ReviewerOutput.ApplyReviewerRouting | autodev/pipeline/gate_scripts/reviewer_gate.py:688-728 | the three passes of the routing |
| ReviewerGate.EachClaimListed | autodev/pipeline/gate_scripts/reviewer_gate.py:273-296 | every evidence object gets its issue, in order, with its claim, its bounded path and its own index as id |
| ReviewerGate.IssuesOnlyAppended | autodev/pipeline/gate_scripts/reviewer_gate.py:240-370 | existing issues stay as a prefix, at most one regression issue is added, no added issue blames the plan or names a file outside the workspace, no other key changes |
| ReviewerGate.IssuesWritten | autodev/pipeline/gate_scripts/reviewer_gate.py:622-635 | the issues afterwards: one an evidence object if a failed behavioural check listed none, and behind them one for a failed regression unless there is one |
| ReviewerGate.RegressionDescribed | autodev/pipeline/gate_scripts/reviewer_gate.py:342-370 | that issue names the prior phase and the file of the first evidence entry, blanked outside the workspace |
| ReviewerGate.RegressionWorded | autodev/pipeline/gate_scripts/reviewer_gate.py:343-351 | its text is the reviewer's summary if there is one, or says that the recipe was not run, not decided or failed |
| ReviewerGate.WriteBackIsFixpoint | autodev/pipeline/gate_scripts/reviewer_gate.py:541-637 | re-running on the written output gives the same verdict and output; the code changes if and only if a fit report failed on a regression alone |
| ReviewerGate.CrashesExactly | autodev/pipeline/gate_scripts/reviewer_gate.py:541-591 | the gate raises if and only if a fit report has a number or boolean for its issues |
| ReviewerGate.CodeChanges | autodev/pipeline/gate_scripts/reviewer_gate.py:600-637 | a report whose code changes between the two runs |
| ReviewerGate.CountCrashes | autodev/pipeline/gate_scripts/reviewer_gate.py:589 | a report with a number for its issues on which it raises |
| ReviewerGate.OrderDoesNotMatter | autodev/pipeline/gate_scripts/reviewer_gate.py:688-728 | permuting the issues changes neither verdict nor code |
| ReviewerGate.PassIsBacked | autodev/pipeline/gate_scripts/reviewer_gate.py:437-637 | PASS if and only if nothing is listed (absent, null or an empty container), tests pass and every called-for check passed with evidence on disk inside the workspace |
| Dotenv.ParseDotenvValue | autodev/installer/setup_helpers.py:526-547 | the loop returns the bare value of the last assignment, none for an empty one |
| Dotenv.Environment.LoadRepoEnvFile | autodev/pipeline/env_resolvers.py:91-106 | the loop applies the assignments with `setdefault` |
| Dotenv.LoadIsFirstWins | autodev/pipeline/env_resolvers.py:95-106 | set variables stay, others get their first assignment, nothing else appears |
| Dotenv.ForceDotenvKeys | autodev/installer/setup_helpers.py:441-501 | the lines written and the status returned |
| Dotenv.KeysAgree | autodev/installer/setup_helpers.py:465-468 | the rewriter, which strips the left only, finds the key the readers find |
| DotenvLaws.ForcedIsRead | autodev/installer/setup_helpers.py:463-482 | after a rewrite every forced key reads as given, first and last, and every other key as before |
| DotenvFrame.OthersKept | autodev/installer/setup_helpers.py:446-487 | the lines that assign no forced key are the same sequence before and after; when a key is added an unfinished last line gets its line break and an empty file its header, and nothing else happens |
| DotenvFrame.ReplacedInPlace | autodev/installer/setup_helpers.py:463-473 | a forced key's entry stands where the key was first assigned, behind the same other lines |
| DotenvLaws.ReadersAgree | autodev/pipeline/env_resolvers.py:95-106 | after a rewrite the two readers give the same value of a forced key if and only if its outer quotes are ones both remove; a plain value is given back as forced |
| DotenvLaws.BareIffQuotesAgree | autodev/installer/setup_helpers.py:542-543 | the same for any value |
| DotenvLaws.OuterQuotesPart | autodev/installer/setup_helpers.py:542-543 | two families they read differently: nested quotes, and a lone trailing quote |
| DotenvLaws.SecondForceIsUnchanged | autodev/installer/setup_helpers.py:483-485 | the written file reads back as written and a second rewrite is a no-op |
| PrereqSpec.ParsePrerequisites | autodev/pipeline/prereq_spec.py:188-248 | the section loop over the block |
| PrereqSpec.PayloadUnseen | autodev/pipeline/prereq_spec.py:107-117 | two bullets that differ only in their first `=` payload give the same entry and warning |
| PrereqSpec.ToolHoldsValueIff | autodev/pipeline/prereq_spec.py:141-155 | a stored tool holds an `=`, never in its name, if and only if a second one stands behind an em-dash |
| PrereqSpec.EnvHoldsValueIff | autodev/pipeline/prereq_spec.py:158-185 | the same for environment lines |
| PrereqRoundTrip.SecondValueLeaks | autodev/pipeline/prereq_spec.py:107-117 | the lines that leak: the value behind the name is cut, the one in the purpose stored whole |
| PrereqRoundTrip.DeclarationRead | autodev/pipeline/prereq_spec.py:188-248 | a printed declaration parses to the same tools and variables with no warning |
| PrereqRoundTrip.ToolRead | autodev/pipeline/prereq_spec.py:141-155 | the same for one tool line, em-dashes in the description included |
| PrereqRoundTrip.EnvRead | autodev/pipeline/prereq_spec.py:158-185 | the same for one environment line |
| PrereqRoundTrip.KindRead | autodev/pipeline/prereq_spec.py:158-185 | the kind in parentheses in any spelling: secret, config, and anything else noted and taken as config |
| PrereqRoundTrip.NoKindRead | autodev/pipeline/prereq_spec.py:158-185 | without parentheses a variable is config |
| PrereqRoundTrip.TooFewDashes | autodev/pipeline/prereq_spec.py:141-185 | a line with fewer than two em-dashes declares nothing and is noted as it stands |
| PrereqRoundTrip.EmptyWords | autodev/pipeline/prereq_spec.py:95 | the words for an intentionally empty section, in any spelling, declare nothing and leave no note |

## Left out

- Issue, error and log texts: only their presence matters; heartbeat lines are not modelled.
- NaN and infinite numbers, dictionary key order, and JSON text (templates are rendered leaf by leaf, so a value that would break the JSON text around a placeholder is outside the model).
- Boot.BootPassesDoctor: the wiring of local models (a provider of its own, merged in afterwards) and failing writes, such as the overlay file lost between its move and its rewrite, are not modelled; an allow-list that is no list counts as a type error, and a file with integers too long to be read as JSON counts as corrupt.
- ModelOverrides.MergeFieldInPlace, and with it the two merge loops around it: `dict()` of a list of pairs, which Python accepts, counts as a type error, because its keys need not be strings and are outside JSON trees. Validation rejects such values.
- ModelOverrides.MergePropsInPlace: the same list of pairs.
- ModelOverrides.MergeModelOverrides: the same list of pairs.
- OverlayLoop.ApplyOne: the same list of pairs under an entry's `cost`.
- QueueSemantics.MutateQueue: the queue file's JSON text, `parent_blocks_child` and `scrub_parked_fields` (two small table checks) are not modelled.
- EventLog.EventsConserved: directory creation and files matching the archive pattern that no rotation made are not modelled; a line is one atomic write, as the module's description assumes.
- SentinelPoller.PollForSentinel: symlink resolution and file-time precision; each iteration's observations are taken as given together, and a sleep lasts two seconds or more.
- Roadmap.ParseRoadmap: lines are given by what the patterns make of them; `RoadmapText.ReadLine` says what that is, with ASCII word characters. The TDD and done-criteria item patterns, the safe-id check and the entry-point section of verification.md are separate.
- Reachability.Resolve: entry derivation, import extraction and specifier resolution are parameters (what a file imports); two spellings of one normal form read the same file.
- ReviewerGate.ReviewerOutput.EvaluateReviewer: the workspace boundary, file existence, the retry counter and the order of a dictionary's keys are parameters, and the write-back succeeds.
- Dotenv.ForceDotenvKeys: I/O errors; keys without `=`, leading `#`, outer whitespace or line breaks, and values of one line, are what the laws are stated for.
- PrereqSpec.ParsePrerequisites: a line is given by its shape (which heading, bullet or prose); case folding is ASCII.
- The orchestrator, the UI server, the webhook client, the gateway probes and the TypeScript plugins: network and process behaviour.
- The planner and executor gates, session clean-up, skill and agent registration: single-branch checks around I/O.
