# Dialysis app core, modelled in Dafny

This project models the parts of the Dialysis Android app (Kotlin) that make
decisions, and proves properties about them:

- **StateManager.dfy** — `StateManagerReal`, the actor that owns one state
  value. Callers queue "update" blocks and "get" callbacks on two unlimited
  channels, and a single consumer loop serves one message at a time. An
  update publishes its result only when it differs from the current state.
  The class `StateManagerReal` holds the state, the two queues, the published
  history and a log of delivered get callbacks. The pure `Machine` / `Serve` /
  `RunSchedule` functions specify it. The `select` between the channels
  becomes a schedule of queue choices made by the caller. The lemmas cover:
  FIFO per queue, the current state as the left fold of the served blocks,
  the history as `distinctUntilChanged` of the fold's intermediate states,
  and no adjacent repeats.
- **BaseViewModel.dfy** — `setState` / `getState`, which forward to the
  manager, and the `flowOf` projections: `map` alone, or `map` followed by
  `distinctUntilChanged` over 1 to 7 extractors.
- **Flows.dfy** — the `map` and `distinctUntilChanged` operators, as
  functions from an upstream history to the emitted history.
- **FlowMappers.dfy** — the `Mapper2` .. `Mapper7` value tuples and their
  structural equality.
- **IntroUI.dfy** — the intro pager's wrap-around index
  `((page % n) + n) % n`, with Kotlin's truncating `%` written out in
  **KotlinInt.dfy**, and the dot-click rule that scrolls the shorter way
  round to the clicked card.
- **RegisterUI.dfy** — the registration wizard:
  - the step counter as a class with the back and next handlers;
  - the screen, the button label and the progress bar for each step;
  - the integer value scales and each picker's initial index;
  - the picker rule that turns the scroll layout into reported values:
    nearest item to the centre, repeats dropped, range guard, and the change
    guard as written, against the value captured when the collector was
    launched. A corrected collector, which compares against the latest
    selection, is modelled beside it (see "## Findings");
  - the year picker's taps, which report the tapped year with no guard,
    interleaved with its scroll collector.
- **Sequences.dfy** — shared vocabulary: `Option`, occurrence counts,
  subsequences and adjacency.

## Model

| member | source | states |
|---|---|---|
| KotlinInt.Div | app/src/main/java/com/dialysis/app/ui/register/RegisterUI.kt:483-485 | Kotlin `/` on Int truncates toward zero: for a non-negative dividend the remainder left is in [0, n), for a negative one in (-n, 0] |
| KotlinInt.Rem | app/src/main/java/com/dialysis/app/ui/intro/IntroUI.kt:109 | Kotlin `%` on Int: `a == n * (a / n) + a % n`, with the remainder taking the sign of the dividend |
| KotlinInt.Abs | app/src/main/java/com/dialysis/app/ui/register/RegisterUI.kt:485 | `kotlin.math.abs`: the result is the argument or its negation and is never negative |
| Flows.MapSeq | app/src/main/java/com/dialysis/app/base/BaseViewModel.kt:17 | `map`: one output per upstream value, in order, each the function applied to that value |
| Flows.MapSeqAppend | app/src/main/java/com/dialysis/app/base/BaseViewModel.kt:17 | one more upstream value adds exactly its image at the end of a mapped flow |
| Flows.Suppress | app/src/main/java/com/dialysis/app/base/BaseViewModel.kt:19-23 | the `distinctUntilChanged` collector emits a subsequence of its input with no two adjacent values equal, whose first value differs from the value it remembered |
| Flows.DistinctUntilChanged | app/src/main/java/com/dialysis/app/base/BaseViewModel.kt:19-23 | `distinctUntilChanged`: a subsequence of the input without adjacent repeats; it is empty exactly when the input is, and otherwise starts with the first input value |
| Flows.SuppressAppend | app/src/main/java/com/dialysis/app/base/BaseViewModel.kt:19-23 | a new upstream value is emitted iff it differs from the last value seen |
| Flows.LastEmittedIsLastUpstream | app/src/main/java/com/dialysis/app/base/BaseViewModel.kt:19-23 | the last value emitted is always the last upstream value |
| Flows.DistinctUntilChangedStep | app/src/main/java/com/dialysis/app/base/BaseViewModel.kt:19-23 | a new upstream value is emitted iff nothing was emitted yet or it differs from the value emitted last |
| Flows.SuppressKeepsDistinct | app/src/main/java/com/dialysis/app/base/BaseViewModel.kt:19-23 | an input without adjacent repeats whose head differs from the remembered value passes through unchanged |
| Flows.DistinctUntilChangedIdempotent | app/src/main/java/com/dialysis/app/base/BaseViewModel.kt:19-23 | applying `distinctUntilChanged` twice equals applying it once |
| FlowMappers.Mapper2Equality | app/src/main/java/com/dialysis/app/base/FlowMappers.kt:3-6 | two `Mapper2` values are equal iff both components are pairwise equal |
| FlowMappers.Mapper3Equality | app/src/main/java/com/dialysis/app/base/FlowMappers.kt:8-12 | two `Mapper3` values are equal iff all three components are pairwise equal |
| FlowMappers.Mapper4Equality | app/src/main/java/com/dialysis/app/base/FlowMappers.kt:14-19 | two `Mapper4` values are equal iff all four components are pairwise equal |
| FlowMappers.Mapper5Equality | app/src/main/java/com/dialysis/app/base/FlowMappers.kt:21-27 | two `Mapper5` values are equal iff all five components are pairwise equal |
| FlowMappers.Mapper6Equality | app/src/main/java/com/dialysis/app/base/FlowMappers.kt:29-36 | two `Mapper6` values are equal iff all six components are pairwise equal |
| FlowMappers.Mapper7Equality | app/src/main/java/com/dialysis/app/base/FlowMappers.kt:38-46 | two `Mapper7` values are equal iff all seven components are pairwise equal |
| FlowMappers.Mapper7Components | app/src/main/java/com/dialysis/app/base/FlowMappers.kt:38-46 | each component of a `Mapper7` reads back the value it was built from, in parameter order |
| FlowMappers.Mapper7ComponentChange | app/src/main/java/com/dialysis/app/base/FlowMappers.kt:38-46 | replacing any one component by a different value gives an unequal tuple |
| StateManager.RunSchedule | app/src/main/java/com/dialysis/app/base/StateManager.kt:42-54 | after any feasible schedule each queue has lost exactly as many head messages as the schedule served from it (FIFO) |
| StateManager.RunScheduleStep | app/src/main/java/com/dialysis/app/base/StateManager.kt:42-54 | one more loop iteration serves the head of the chosen, non-empty queue |
| StateManager.Serve | app/src/main/java/com/dialysis/app/base/StateManager.kt:43-53 | an update message applies the head block, drops it from its queue and appends the result to the history iff it differs from the current state; a get message passes the current state to the head callback, drops it, and leaves state and history alone |
| StateManager.Scan | app/src/main/java/com/dialysis/app/base/StateManager.kt:44-48 | the intermediate states of applying the update blocks in order: one per block, entry i the fold of the first i + 1 blocks |
| StateManager.ServeKeepsConsistent | app/src/main/java/com/dialysis/app/base/StateManager.kt:44-53 | serving either kind of message keeps the history ending in the current state and free of adjacent repeats |
| StateManager.RunKeepsConsistent | app/src/main/java/com/dialysis/app/base/StateManager.kt:42-54 | any run of the loop keeps that invariant |
| StateManager.RunCurrentIsFold | app/src/main/java/com/dialysis/app/base/StateManager.kt:44-48 | after any schedule the state is the left fold of the served update blocks over the starting state, whether or not steps were suppressed and whatever gets were interleaved |
| StateManager.RunPublishes | app/src/main/java/com/dialysis/app/base/StateManager.kt:44-48 | the published history grows by the fold's intermediate states with every state equal to its predecessor dropped |
| StateManager.PublishedFromFreshManager | app/src/main/java/com/dialysis/app/base/StateManager.kt:27 | from a new manager the history is exactly `distinctUntilChanged` of the initial state followed by the fold's intermediate states |
| StateManager.RunDeliversInOrder | app/src/main/java/com/dialysis/app/base/StateManager.kt:51-53 | get callbacks are invoked in queue order, one per get step, and earlier deliveries are kept |
| StateManager.StateManagerReal.constructor | app/src/main/java/com/dialysis/app/base/StateManager.kt:25-27 | the state starts as `initState`, the history holds only it, both queues are empty |
| StateManager.StateManagerReal.Update | app/src/main/java/com/dialysis/app/base/StateManager.kt:59-61 | `update` only appends the block to the update queue; state and history are untouched and the invariant is kept |
| StateManager.StateManagerReal.Get | app/src/main/java/com/dialysis/app/base/StateManager.kt:63-65 | `get` only appends the callback to the get queue and keeps the invariant |
| StateManager.StateManagerReal.Step | app/src/main/java/com/dialysis/app/base/StateManager.kt:43-54 | an update step applies the head block and publishes the result iff it differs from the current state, otherwise state and history stay; a get step passes the current state to the head callback and changes neither; the invariant is kept |
| StateManager.StateManagerReal.Run | app/src/main/java/com/dialysis/app/base/StateManager.kt:42-55 | the loop run for a schedule reaches the state `RunSchedule` describes and keeps the invariant |
| BaseViewModel.BaseViewModel.constructor | app/src/main/java/com/dialysis/app/base/BaseViewModel.kt:8-11 | the default manager is a fresh `StateManagerReal(initState)` |
| BaseViewModel.BaseViewModel.SetState | app/src/main/java/com/dialysis/app/base/BaseViewModel.kt:13 | the block is appended, unchanged, to the manager's update queue |
| BaseViewModel.BaseViewModel.GetState | app/src/main/java/com/dialysis/app/base/BaseViewModel.kt:15 | the callback is appended, unchanged, to the manager's get queue |
| BaseViewModel.FlowOf | app/src/main/java/com/dialysis/app/base/BaseViewModel.kt:17 | `flowOf(mapper)` emits `mapper(s)` for every published state, repeats included |
| BaseViewModel.FlowOf1 | app/src/main/java/com/dialysis/app/base/BaseViewModel.kt:19-23 | the output has no adjacent repeats, is a subsequence of the mapped history and starts with the first state's value |
| BaseViewModel.Tuple2 | app/src/main/java/com/dialysis/app/base/BaseViewModel.kt:25-33 | the `Mapper2` built for a state holds the extracted values in parameter order, and two states give equal tuples iff both properties agree |
| BaseViewModel.Tuple3 | app/src/main/java/com/dialysis/app/base/BaseViewModel.kt:35-45 | the `Mapper3` built for a state holds the extracted values in parameter order, and two states give equal tuples iff all three properties agree |
| BaseViewModel.Tuple4 | app/src/main/java/com/dialysis/app/base/BaseViewModel.kt:47-59 | the `Mapper4` built for a state holds the extracted values in parameter order, and two states give equal tuples iff all four properties agree |
| BaseViewModel.Tuple5 | app/src/main/java/com/dialysis/app/base/BaseViewModel.kt:61-75 | the `Mapper5` built for a state holds the extracted values in parameter order, and two states give equal tuples iff all five properties agree |
| BaseViewModel.Tuple6 | app/src/main/java/com/dialysis/app/base/BaseViewModel.kt:77-93 | the `Mapper6` built for a state holds the extracted values in parameter order, and two states give equal tuples iff all six properties agree |
| BaseViewModel.Tuple7 | app/src/main/java/com/dialysis/app/base/BaseViewModel.kt:95-113 | the `Mapper7` built for a state holds the extracted values in parameter order, and two states give equal tuples iff all seven properties agree |
| BaseViewModel.FlowOf2 | app/src/main/java/com/dialysis/app/base/BaseViewModel.kt:25-33 | as FlowOf1, for `Mapper2` tuples built in parameter order |
| BaseViewModel.FlowOf3 | app/src/main/java/com/dialysis/app/base/BaseViewModel.kt:35-45 | as FlowOf1, for `Mapper3` tuples built in parameter order |
| BaseViewModel.FlowOf4 | app/src/main/java/com/dialysis/app/base/BaseViewModel.kt:47-59 | as FlowOf1, for `Mapper4` tuples built in parameter order |
| BaseViewModel.FlowOf5 | app/src/main/java/com/dialysis/app/base/BaseViewModel.kt:61-75 | as FlowOf1, for `Mapper5` tuples built in parameter order |
| BaseViewModel.FlowOf6 | app/src/main/java/com/dialysis/app/base/BaseViewModel.kt:77-93 | as FlowOf1, for `Mapper6` tuples built in parameter order |
| BaseViewModel.FlowOf7 | app/src/main/java/com/dialysis/app/base/BaseViewModel.kt:95-113 | as FlowOf1, for `Mapper7` tuples, property1 into `a` through property7 into `g` |
| BaseViewModel.ProjectionStep | app/src/main/java/com/dialysis/app/base/BaseViewModel.kt:19-113 | any projection emits for a new state exactly when its projected value differs from the previous state's |
| BaseViewModel.FlowOf1Step | app/src/main/java/com/dialysis/app/base/BaseViewModel.kt:19-23 | the single-property flow emits a new value iff it differs from the value emitted last |
| BaseViewModel.FlowOf2Step | app/src/main/java/com/dialysis/app/base/BaseViewModel.kt:25-33 | a new state emits nothing iff both extracted properties equal the previous state's |
| BaseViewModel.FlowOf3Step | app/src/main/java/com/dialysis/app/base/BaseViewModel.kt:35-45 | a new state emits nothing iff all three extracted properties equal the previous state's |
| BaseViewModel.FlowOf4Step | app/src/main/java/com/dialysis/app/base/BaseViewModel.kt:47-59 | a new state emits nothing iff all four extracted properties equal the previous state's |
| BaseViewModel.FlowOf5Step | app/src/main/java/com/dialysis/app/base/BaseViewModel.kt:61-75 | a new state emits nothing iff all five extracted properties equal the previous state's |
| BaseViewModel.FlowOf6Step | app/src/main/java/com/dialysis/app/base/BaseViewModel.kt:77-93 | a new state emits nothing iff all six extracted properties equal the previous state's |
| BaseViewModel.FlowOf7Step | app/src/main/java/com/dialysis/app/base/BaseViewModel.kt:95-113 | a new state emits nothing iff all seven extracted properties equal the previous state's |
| BaseViewModel.ProjectionsSuppressIndependently | app/src/main/java/com/dialysis/app/base/BaseViewModel.kt:19-23 | two projections over one history suppress independently: over 0, 1, 3 the identity emits all three, the parity only 0 and 1 |
| IntroUI.WrapIndex | app/src/main/java/com/dialysis/app/ui/intro/IntroUI.kt:109 | `((page % size) + size) % size` lies in [0, size) for every page, negative ones included |
| IntroUI.WrapIndexIsResidue | app/src/main/java/com/dialysis/app/ui/intro/IntroUI.kt:109 | that expression is the mathematical residue of the page |
| IntroUI.WrapIndexPeriodic | app/src/main/java/com/dialysis/app/ui/intro/IntroUI.kt:146 | pages `p` and `p + size` show the same card |
| IntroUI.InitialSelectedDot | app/src/main/java/com/dialysis/app/ui/intro/IntroUI.kt:101-103 | with five cards the start page 1000 selects dot 0 |
| IntroUI.Forward | app/src/main/java/com/dialysis/app/ui/intro/IntroUI.kt:167 | for dots in range, `forward` lies in [0, size) and that many steps to the right of the selected dot land on the clicked one |
| IntroUI.Backward | app/src/main/java/com/dialysis/app/ui/intro/IntroUI.kt:168 | for dots in range, `backward` lies in [0, size) and that many steps to the left of the selected dot land on it |
| IntroUI.ForwardBackward | app/src/main/java/com/dialysis/app/ui/intro/IntroUI.kt:167-168 | both distances lie in [0, size), each is the difference or the difference plus size, and for distinct dots they sum to size |
| IntroUI.DotClickTarget | app/src/main/java/com/dialysis/app/ui/intro/IntroUI.kt:165-173 | no scroll happens exactly when the clicked dot is already selected |
| IntroUI.DotClickLandsOnDot | app/src/main/java/com/dialysis/app/ui/intro/IntroUI.kt:165-173 | the target page shows the clicked card |
| IntroUI.DotClickShortestDirection | app/src/main/java/com/dialysis/app/ui/intro/IntroUI.kt:169-173 | the pager moves by min(forward, backward), to the right iff forward <= backward (so forward on ties), never more than half way round |
| IntroUI.DotClickIsNearest | app/src/main/java/com/dialysis/app/ui/intro/IntroUI.kt:165-173 | no page showing the clicked card is closer to the current page than the target |
| IntroUI.DotClickTargetInRange | app/src/main/java/com/dialysis/app/ui/intro/IntroUI.kt:101 | away from both ends of the `Int.MAX_VALUE` pages the target is a valid page, so the Int arithmetic does not overflow |
| RegisterUI.Back | app/src/main/java/com/dialysis/app/ui/register/RegisterUI.kt:97 | back moves one step down, except on step 0 where it stays; it never leaves [0, 7] |
| RegisterUI.Click | app/src/main/java/com/dialysis/app/ui/register/RegisterUI.kt:148-154 | the button advances while `step < TotalSteps - 1` and navigates home otherwise; an advance stays below `TotalSteps` |
| RegisterUI.StepAfterClick | app/src/main/java/com/dialysis/app/ui/register/RegisterUI.kt:149-151 | on a step in [0, 7] a button press leaves the wizard on `min(step + 1, 7)` |
| RegisterUI.Replay | app/src/main/java/com/dialysis/app/ui/register/RegisterUI.kt:97 | any sequence of back and button presses from a step in [0, 7] ends in [0, 7] |
| RegisterUI.NextPressesReachSummary | app/src/main/java/com/dialysis/app/ui/register/RegisterUI.kt:148-154 | `n` button presses move to step `min(step + n, 7)` |
| RegisterUI.BackPressesReachStart | app/src/main/java/com/dialysis/app/ui/register/RegisterUI.kt:97 | `n` back presses move to step `max(step - n, 0)` |
| RegisterUI.ScreenFor | app/src/main/java/com/dialysis/app/ui/register/RegisterUI.kt:102-138 | steps 0 .. 7 map one-to-one onto the screens in wizard order; every step outside 0 .. 6 shows the summary |
| RegisterUI.ScreenForOrder | app/src/main/java/com/dialysis/app/ui/register/RegisterUI.kt:102-138 | a screen is shown by exactly the step at its position |
| RegisterUI.Label | app/src/main/java/com/dialysis/app/ui/register/RegisterUI.kt:143-147 | the label is "finish" iff `step == TotalSteps - 1` |
| RegisterUI.FinishLabelIffNavigates | app/src/main/java/com/dialysis/app/ui/register/RegisterUI.kt:143-154 | on every reachable step the button says "finish" exactly when pressing it leaves the wizard |
| RegisterUI.Segments | app/src/main/java/com/dialysis/app/ui/register/RegisterUI.kt:186-192 | one flag per segment; highlighted flags form a prefix; the first is lit iff the step is not negative and the last iff the step reaches the last segment |
| RegisterUI.HighlightedSegments | app/src/main/java/com/dialysis/app/ui/register/RegisterUI.kt:186-192 | segment `i` highlighted iff `i <= step` gives `min(count, step + 1)` highlighted segments |
| RegisterUI.ProgressOnStep | app/src/main/java/com/dialysis/app/ui/register/RegisterUI.kt:186-192 | on step `k` exactly `k + 1` of the eight segments are highlighted |
| RegisterUI.RegisterScreen.constructor | app/src/main/java/com/dialysis/app/ui/register/RegisterUI.kt:71-78 | the wizard opens on step 0 with Male, empty name and sessions, 50 kg, 32 years, 2022, 285 ml |
| RegisterUI.RegisterScreen.OnBack | app/src/main/java/com/dialysis/app/ui/register/RegisterUI.kt:97 | the step becomes `Back(step)`, keeping it in [0, 7] |
| RegisterUI.RegisterScreen.OnClick | app/src/main/java/com/dialysis/app/ui/register/RegisterUI.kt:148-154 | advances the step or, on the last step, reports navigation home and keeps the step; keeps it in [0, 7] |
| RegisterUI.RegisterScreen.OnGenderSelect | app/src/main/java/com/dialysis/app/ui/register/RegisterUI.kt:105 | stores the chosen gender |
| RegisterUI.RegisterScreen.OnWeightChange | app/src/main/java/com/dialysis/app/ui/register/RegisterUI.kt:111 | stores the reported weight |
| RegisterUI.RegisterScreen.OnAgeChange | app/src/main/java/com/dialysis/app/ui/register/RegisterUI.kt:117 | stores the reported age |
| RegisterUI.RegisterScreen.OnNameChange | app/src/main/java/com/dialysis/app/ui/register/RegisterUI.kt:120 | stores the typed name |
| RegisterUI.RegisterScreen.OnYearChange | app/src/main/java/com/dialysis/app/ui/register/RegisterUI.kt:124 | stores the reported dialysis year |
| RegisterUI.RegisterScreen.OnSessionsChange | app/src/main/java/com/dialysis/app/ui/register/RegisterUI.kt:127 | stores the typed sessions per week |
| RegisterUI.RegisterScreen.OnUrineChange | app/src/main/java/com/dialysis/app/ui/register/RegisterUI.kt:131 | stores the reported urine volume |
| RegisterUI.Progression | app/src/main/java/com/dialysis/app/ui/register/RegisterUI.kt:82-84 | `(first..last step s).toList()` is empty iff first > last, starts at first, stays within [first, last] and stops before exceeding last |
| RegisterUI.ProgressionElement | app/src/main/java/com/dialysis/app/ui/register/RegisterUI.kt:82-84 | element `i` is `first + i * step` |
| RegisterUI.ProgressionIncreasing | app/src/main/java/com/dialysis/app/ui/register/RegisterUI.kt:82-84 | every progression is strictly increasing |
| RegisterUI.ScaleContents | app/src/main/java/com/dialysis/app/ui/register/RegisterUI.kt:82-84 | weight is 30 .. 150 (121 values), age 18 .. 80 (63 values), urine 200 .. 1000 in steps of 25 (33 values) |
| RegisterUI.YearScale | app/src/main/java/com/dialysis/app/ui/register/RegisterUI.kt:86 | the year scale holds each year from 1970 to the current year once, in order |
| RegisterUI.IndexOf | app/src/main/java/com/dialysis/app/ui/register/RegisterUI.kt:476 | `indexOf` is -1 iff the value is absent, otherwise the first position holding it |
| RegisterUI.InitialIndex | app/src/main/java/com/dialysis/app/ui/register/RegisterUI.kt:475-476 | `indexOf(selected).coerceAtLeast(0)`: the first position of the selected value, or 0 when it is not on the scale |
| RegisterUI.DefaultWeightIndex | app/src/main/java/com/dialysis/app/ui/register/RegisterUI.kt:75-82 | the default weight 50 opens the weight scale at index 20 |
| RegisterUI.DefaultAgeIndex | app/src/main/java/com/dialysis/app/ui/register/RegisterUI.kt:76-83 | the default age 32 opens the age scale at index 14 |
| RegisterUI.DefaultUrineIndex | app/src/main/java/com/dialysis/app/ui/register/RegisterUI.kt:78-84 | the default 285 ml is not on the urine scale, so it opens at index 0 |
| RegisterUI.DefaultYearIndex | app/src/main/java/com/dialysis/app/ui/register/RegisterUI.kt:364-366 | the year picker opens on 2022 (index 52) once the current year reaches 2022, and on index 0 before |
| RegisterUI.ViewportCenter | app/src/main/java/com/dialysis/app/ui/register/RegisterUI.kt:483 | the centre is the integer midpoint of the viewport, truncated toward zero |
| RegisterUI.Distance | app/src/main/java/com/dialysis/app/ui/register/RegisterUI.kt:485 | `abs((offset + size / 2) - center)`: the absolute gap between the item middle and the centre, zero iff they coincide |
| RegisterUI.NearestPosition | app/src/main/java/com/dialysis/app/ui/register/RegisterUI.kt:484-486 | `minByOrNull` picks an item of least distance to the centre, the first one on ties |
| RegisterUI.ClosestIndex | app/src/main/java/com/dialysis/app/ui/register/RegisterUI.kt:484-487 | none iff no item is visible, otherwise the index of the first visible item nearest the centre (the first one on ties, as `minByOrNull` keeps) |
| RegisterUI.SelectorIndex | app/src/main/java/com/dialysis/app/ui/register/RegisterUI.kt:482-487 | the scale picker's `map` step: none iff no item is visible, otherwise the index of the first visible item nearest the viewport centre |
| RegisterUI.YearPickerIndex | app/src/main/java/com/dialysis/app/ui/register/RegisterUI.kt:372-377 | the year picker's `map` step: for every layout, none iff no item is visible, otherwise the index of the first visible item nearest `center` |
| RegisterUI.PickerIndices | app/src/main/java/com/dialysis/app/ui/register/RegisterUI.kt:481-489 | the collector receives the nearest indices in layout order with repeats dropped: no adjacent repeats, a subsequence of the picks, at most one per layout, starting with the first layout's pick |
| RegisterUI.ReportsAsWritten | app/src/main/java/com/dialysis/app/ui/register/RegisterUI.kt:490-496 | the collector as written: at most one report per index, every report an in-range scale value different from the value captured at launch, and no report at all iff no index is present, in range and holding a value other than that captured one |
| RegisterUI.ReportsTracking | app/src/main/java/com/dialysis/app/ui/register/RegisterUI.kt:490-496 | the collector comparing against the latest selection: every report is on the scale and differs from the selection it replaces |
| RegisterUI.LastCentredFront | app/src/main/java/com/dialysis/app/ui/register/RegisterUI.kt:490-496 | the last in-range nearest item, unfolded from the front |
| RegisterUI.TrackingFollowsCentre | app/src/main/java/com/dialysis/app/ui/register/RegisterUI.kt:490-496 | with the latest selection compared, the parent ends on the value of the item last nearest the centre |
| RegisterUI.AsWrittenMissesReturn | app/src/main/java/com/dialysis/app/ui/register/RegisterUI.kt:490-496 | as written, scrolling 30 to 31 and back to 30 reports only 31, so the parent keeps 31 while 30 is centred |
| RegisterUI.LastDiffering | app/src/main/java/com/dialysis/app/ui/register/RegisterUI.kt:490-496 | the value at the last index the collector as written acts on: when present it is a scale value other than the captured one, and it is absent iff no index qualifies |
| RegisterUI.LastDifferingFront | app/src/main/java/com/dialysis/app/ui/register/RegisterUI.kt:490-496 | that value, unfolded from the front |
| RegisterUI.AsWrittenEndState | app/src/main/java/com/dialysis/app/ui/register/RegisterUI.kt:490-496 | as written, the parent ends on the value at the last index that differs from the captured value, or keeps the captured value when there is none, whatever the centred item is at the end |
| RegisterUI.LastCentredIgnoresRepeats | app/src/main/java/com/dialysis/app/ui/register/RegisterUI.kt:489 | dropping repeated indices does not change the last in-range nearest item |
| RegisterUI.PickerReports | app/src/main/java/com/dialysis/app/ui/register/RegisterUI.kt:480-496 | `ScrollSelector` as written: every report is a scale value other than the one captured at launch, at most one per layout |
| RegisterUI.PickerEndState | app/src/main/java/com/dialysis/app/ui/register/RegisterUI.kt:480-496 | after any layout history the parent holds the value at the last nearest index differing from the captured value, or the captured value |
| RegisterUI.ScaleReports | app/src/main/java/com/dialysis/app/ui/register/RegisterUI.kt:348-353 | the weight, age and urine pickers as written (the collector at lines 480-496): every report is a scale value other than the captured one, at most one per layout |
| RegisterUI.YearReports | app/src/main/java/com/dialysis/app/ui/register/RegisterUI.kt:370-386 | the year picker's scroll collector as written, with the centre as a parameter: every report is a year on the scale other than the captured one, at most one per layout |
| RegisterUI.YearPickerReports | app/src/main/java/com/dialysis/app/ui/register/RegisterUI.kt:370-405 | the whole year picker as written, scrolling and taps interleaved: every report is a year on the scale, at most one per event |
| RegisterUI.Scrolls | app/src/main/java/com/dialysis/app/ui/register/RegisterUI.kt:370-371 | a scroll-only history: one `Scrolled` event per layout, in order |
| RegisterUI.ScrollsAreCollector | app/src/main/java/com/dialysis/app/ui/register/RegisterUI.kt:370-386 | without taps, from any collector memory, the picker reports exactly what the collector as written reports for the de-duplicated nearest indices |
| RegisterUI.YearPickerWithoutTaps | app/src/main/java/com/dialysis/app/ui/register/RegisterUI.kt:370-386 | from launch, a tap-free history reports exactly `YearReports` |
| RegisterUI.TapReportsSelectedYear | app/src/main/java/com/dialysis/app/ui/register/RegisterUI.kt:384-405 | tapping the item of the selected year reports that year again (line 405 has no change guard), while the scroll collector never reports the captured year |
| RegisterUI.PickerCorrectedShape | app/src/main/java/com/dialysis/app/ui/register/RegisterUI.kt:480-496 | with the collector corrected to compare against the latest selection, every report is a scale value, the first differs from the starting selection, no two in a row are equal, and there are at most as many as layouts |
| RegisterUI.PickerCorrectedFollowsCentre | app/src/main/java/com/dialysis/app/ui/register/RegisterUI.kt:480-496 | with the corrected collector the parent ends on the value last nearest the centre, or keeps its value when no item was in range |

## Left out

- Coroutines, the single-thread executor, `Dispatchers.IO`, channels as
  concurrent objects, and the order `select` picks between them. kotlinx
  `select` is biased toward its first clause, so when both channels hold a
  message the source serves the update first. The model lets each step
  serve either ready queue, a get included while an update waits. That is
  an over-approximation: every lemma holds for all schedules, the biased
  ones among them.
- `trySend` results: the channels are unlimited and never closed, so every
  send succeeds. Closing a channel or cancelling the scope (`isActive`
  turning false) is not modelled.
- The conflation and subscriber fan-out of `MutableStateFlow`: only the
  history of values the state has held is modelled. A slow subscriber that
  skips values is a scheduling effect.
- Blocks that throw: update blocks are total functions. A get callback's
  own effect is not modelled; only the call and its argument are recorded,
  in `delivered`.
- Reflection (`KProperty1.get`): extractors are plain functions.
- BaseViewModel's injectable `stateManager` parameter: only the default
  `StateManagerReal(initState)` is modelled.
- KotlinInt.Abs: integers are unbounded, so 32-bit wrap-around is not
  modelled: `abs(Int.MIN_VALUE)`, `start + end` in ViewportCenter,
  `offset + size / 2 - center` in Distance and `first + step` in Progression.
  Pixel offsets and the scale bounds (at most a few thousand) are far below
  2^31, so none of these wraps in the app.
- BaseViewModel.Tuple2 .. Tuple7 and FlowOf2 .. FlowOf7 take state types
  without references (`S(!new)`); the app's states are immutable values.
- IntroUI float arithmetic (card width, alpha, scale, page offset fraction)
  and the scroll animation. Only the target page is computed, and the
  current page is a parameter.
- IntroUI.DotClickTarget: integers are unbounded, so Int overflow at the far
  ends of the `Int.MAX_VALUE` pages is not modelled. DotClickTargetInRange
  proves that the target stays a valid page away from those ends.
- The year picker's centre `(screenWidth / 2f).value.toInt()` is floating
  point: it is the `center` parameter of `YearReports`.
- `Year.now()` is the `currentYear` parameter of `YearValues`.
- List layout, snapping and fling: the sequence of layout snapshots is an
  input. Recomposition, composables, colours, sizes and strings are left out.
- Navigation to the home screen and `finish()`: `OnClick` reports these as
  its `navigateHome` result.
- Text fields and the gender cards store what they are given, without
  validation. The model does the same.
- `CirclePicker` is never called.
- The other screens, the router, the activity and fragment bases and the
  view-model factory are presentation or Android glue.

## Findings

| source | as written | input that shows it | evidently intended | confidence | as-written member | corrected member |
|---|---|---|---|---|---|---|
| app/src/main/java/com/dialysis/app/ui/register/RegisterUI.kt:480-496 | The collector is launched under `LaunchedEffect(listState)`. It keeps the `selectedValue` captured at launch and reports an index only when its value differs from that stale value. The year picker at lines 370-386 does the same. | On a scale `[30, 31]` opened on 30, the nearest index goes 0, 1, 0: only 31 is reported, so the parent keeps 31 while 30 is under the indicator. | Compare against the latest selected value, so the parent always ends on the centred item's value. | high, not executed | RegisterUI.AsWrittenMissesReturn | RegisterUI.TrackingFollowsCentre |
