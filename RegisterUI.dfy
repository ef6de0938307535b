/**
  The decision logic of the registration wizard: a step counter moved by a
  back arrow and a primary button, the screen, label and progress bar each
  step shows, the integer scales the pickers offer, the initial scroll
  position of a picker, and the rule that turns the picker's scroll
  position into a reported value.
*/
module RegisterUI {
  import opened Sequences
  import opened Flows
  import opened KotlinInt

  /** The wizard has eight steps, 0 .. 7; the last one is the summary. */
  const TotalSteps := 8

  datatype Gender = Male | Female

  /** The content shown for a step, in wizard order. */
  datatype Screen =
    | GenderStep | WeightStep | AgeStep | NameStep
    | DialysisYearStep | SessionsStep | UrineStep | SummaryStep

  datatype ButtonLabel = Next | Finish

  /** What a press of the primary button does. */
  datatype ClickOutcome = Advance(step: int) | NavigateHome

  // ---------------------------------------------------------------------
  // Step counter

  /** The back arrow: one step back, except on the first step. */
  function Back(step: int): (r: int)
    ensures 0 <= step < TotalSteps ==> 0 <= r < TotalSteps
    ensures r == step - 1 || r == step
    ensures r == step <==> step <= 0
  {
    if step > 0 then step - 1 else step
  }

  /** The primary button: one step forward, or away to the home screen from the last step. */
  function Click(step: int): (r: ClickOutcome)
    ensures r.NavigateHome? <==> step >= TotalSteps - 1
    ensures r.Advance? ==> r.step == step + 1 && r.step < TotalSteps
  {
    if step < TotalSteps - 1 then Advance(step + 1) else NavigateHome
  }

  /** The wizard position after a click; leaving the screen keeps the step. */
  function StepAfterClick(step: int): (r: int)
    ensures 0 <= step < TotalSteps ==> r == Min(step + 1, TotalSteps - 1)
  {
    match Click(step)
    case Advance(next) => next
    case NavigateHome => step
  }

  datatype WizardEvent = BackPressed | NextPressed

  /** The step after a sequence of presses, starting at `step`. */
  function Replay(step: int, events: seq<WizardEvent>): (r: int)
    requires 0 <= step < TotalSteps
    ensures 0 <= r < TotalSteps
    decreases |events|
  {
    if events == [] then step
    else
      var next := if events[0] == BackPressed then Back(step) else StepAfterClick(step);
      Replay(next, events[1..])
  }

  /** `n` presses of the primary button walk forward one step each and stop on the summary. */
  lemma {:induction false} NextPressesReachSummary(step: int, n: nat)
    requires 0 <= step < TotalSteps
    ensures Replay(step, seq(n, _ => NextPressed)) == Min(step + n, TotalSteps - 1)
    decreases n
  {
    if n > 0 {
      var events := seq(n, _ => NextPressed);
      assert events[1..] == seq(n - 1, _ => NextPressed);
      NextPressesReachSummary(StepAfterClick(step), n - 1);
    }
  }

  /** `n` presses of the back arrow walk back one step each and stop on the first step. */
  lemma {:induction false} BackPressesReachStart(step: int, n: nat)
    requires 0 <= step < TotalSteps
    ensures Replay(step, seq(n, _ => BackPressed)) == if step - n >= 0 then step - n else 0
    decreases n
  {
    if n > 0 {
      var events := seq(n, _ => BackPressed);
      assert events[1..] == seq(n - 1, _ => BackPressed);
      BackPressesReachStart(Back(step), n - 1);
    }
  }

  /** Steps 0 .. 6 show the seven input screens in order; every other step shows the summary. */
  function ScreenFor(step: int): (r: Screen)
    ensures 0 <= step < TotalSteps ==> ScreenOrder(r) == step
    ensures !(0 <= step < TotalSteps - 1) <==> r == SummaryStep
  {
    if step == 0 then GenderStep
    else if step == 1 then WeightStep
    else if step == 2 then AgeStep
    else if step == 3 then NameStep
    else if step == 4 then DialysisYearStep
    else if step == 5 then SessionsStep
    else if step == 6 then UrineStep
    else SummaryStep
  }

  /** The position of a screen in the wizard. */
  function ScreenOrder(s: Screen): nat {
    match s
    case GenderStep => 0
    case WeightStep => 1
    case AgeStep => 2
    case NameStep => 3
    case DialysisYearStep => 4
    case SessionsStep => 5
    case UrineStep => 6
    case SummaryStep => 7
  }

  /** Every screen is shown by exactly the step at its position. */
  lemma ScreenForOrder(s: Screen, step: int)
    requires 0 <= step < TotalSteps
    ensures ScreenFor(step) == s <==> step == ScreenOrder(s)
  {
  }

  /** The primary button reads "finish" on the last step and "next" elsewhere. */
  function Label(step: int): (r: ButtonLabel)
    ensures r == Finish <==> step == TotalSteps - 1
  {
    if step == TotalSteps - 1 then Finish else Next
  }

  /** On every reachable step the button says "finish" exactly when pressing it leaves the wizard. */
  lemma FinishLabelIffNavigates(step: int)
    requires 0 <= step < TotalSteps
    ensures Label(step) == Finish <==> Click(step).NavigateHome?
  {
  }

  /** The progress bar: segment `i` of `count` is highlighted iff `i <= step`. */
  function Segments(count: nat, step: int): (r: seq<bool>)
    ensures |r| == count
    ensures forall i, j :: 0 <= i <= j < count && r[j] ==> r[i]
    ensures count > 0 ==> (r[0] <==> step >= 0) && (r[count - 1] <==> step >= count - 1)
  {
    seq(count, i => i <= step)
  }

  /** The highlighted segments are the first `step + 1`, or all of them. */
  lemma {:induction false} HighlightedSegments(count: nat, step: int)
    requires step >= 0
    ensures Occurrences(Segments(count, step), true) == Min(count, step + 1)
    decreases count
  {
    if count > 0 {
      assert Segments(count, step)[..count - 1] == Segments(count - 1, step);
      HighlightedSegments(count - 1, step);
    }
  }

  /** On step `k` of the wizard exactly `k + 1` of the eight segments are highlighted. */
  lemma ProgressOnStep(step: int)
    requires 0 <= step < TotalSteps
    ensures |Segments(TotalSteps, step)| == TotalSteps
    ensures Occurrences(Segments(TotalSteps, step), true) == step + 1
  {
    HighlightedSegments(TotalSteps, step);
  }

  // ---------------------------------------------------------------------
  // The wizard's state

  /** The state the registration screen keeps across recompositions. */
  class RegisterScreen {
    var currentStep: int
    var selectedGender: Gender
    var name: string
    var sessionsPerWeek: string
    var weight: int
    var age: int
    var dialysisYear: int
    var urinePerDay: int

    ghost predicate Valid()
      reads this
    {
      0 <= currentStep < TotalSteps
    }

    /** The wizard opens on the first step with these defaults. */
    constructor ()
      ensures Valid() && currentStep == 0
      ensures selectedGender == Male && name == "" && sessionsPerWeek == ""
      ensures weight == 50 && age == 32 && dialysisYear == 2022 && urinePerDay == 285
    {
      currentStep := 0;
      selectedGender := Male;
      name := "";
      sessionsPerWeek := "";
      weight := 50;
      age := 32;
      dialysisYear := 2022;
      urinePerDay := 285;
    }

    /** The back arrow's handler. */
    method OnBack()
      modifies this`currentStep
      ensures old(Valid()) ==> Valid()
      ensures currentStep == Back(old(currentStep))
    {
      if currentStep > 0 {
        currentStep := currentStep - 1;
      }
    }

    /** The primary button's handler; `navigateHome` reports that the home screen is opened and this one finished. */
    method OnClick() returns (navigateHome: bool)
      modifies this`currentStep
      ensures old(Valid()) ==> Valid()
      ensures navigateHome <==> Click(old(currentStep)).NavigateHome?
      ensures currentStep == StepAfterClick(old(currentStep))
    {
      if currentStep < TotalSteps - 1 {
        currentStep := currentStep + 1;
        navigateHome := false;
      } else {
        navigateHome := true;
      }
    }

    method OnGenderSelect(g: Gender)
      modifies this`selectedGender
      ensures selectedGender == g
    {
      selectedGender := g;
    }

    method OnWeightChange(v: int)
      modifies this`weight
      ensures weight == v
    {
      weight := v;
    }

    method OnAgeChange(v: int)
      modifies this`age
      ensures age == v
    {
      age := v;
    }

    method OnNameChange(s: string)
      modifies this`name
      ensures name == s
    {
      name := s;
    }

    method OnYearChange(v: int)
      modifies this`dialysisYear
      ensures dialysisYear == v
    {
      dialysisYear := v;
    }

    method OnSessionsChange(s: string)
      modifies this`sessionsPerWeek
      ensures sessionsPerWeek == s
    {
      sessionsPerWeek := s;
    }

    method OnUrineChange(v: int)
      modifies this`urinePerDay
      ensures urinePerDay == v
    {
      urinePerDay := v;
    }
  }

  // ---------------------------------------------------------------------
  // Value scales

  /**
    `(first..last step step).toList()`: from `first`, spaced `step` apart,
    up to the last value not beyond `last`.
  */
  function Progression(first: int, last: int, step: int): (r: seq<int>)
    requires step > 0
    ensures r == [] <==> first > last
    ensures r != [] ==> r[0] == first && last < r[|r| - 1] + step
    ensures forall i :: 0 <= i < |r| ==> first <= r[i] <= last
    decreases if first <= last then last - first + 1 else 0
  {
    if first > last then [] else [first] + Progression(first + step, last, step)
  }

  /** Element `i` of a progression is `first + i * step`. */
  lemma {:induction false} ProgressionElement(first: int, last: int, step: int)
    requires step > 0
    ensures forall i :: 0 <= i < |Progression(first, last, step)| ==>
                          Progression(first, last, step)[i] == first + step * i
    decreases if first <= last then last - first + 1 else 0
  {
    if first <= last {
      ProgressionElement(first + step, last, step);
      var r := Progression(first, last, step);
      var rest := Progression(first + step, last, step);
      assert r == [first] + rest;
      forall i | 1 <= i < |r|
        ensures r[i] == first + step * i
      {
        assert r[i] == rest[i - 1];
        assert 0 <= i - 1 < |rest|;
        assert rest[i - 1] == first + step + step * (i - 1);
        assert step * (i - 1) + step == step * i;
      }
    }
  }

  /** A progression is strictly increasing. */
  lemma ProgressionIncreasing(first: int, last: int, step: int)
    requires step > 0
    ensures var r := Progression(first, last, step);
            forall i, j :: 0 <= i < j < |r| ==> r[i] < r[j]
  {
    ProgressionElement(first, last, step);
    var r := Progression(first, last, step);
    forall i, j | 0 <= i < j < |r|
      ensures r[i] < r[j]
    {
      MulAtLeast(step, j - i);
      assert step * j == step * i + step * (j - i);
    }
  }

  const WeightValues := Progression(30, 150, 1)
  const AgeValues := Progression(18, 80, 1)
  const UrineValues := Progression(200, 1000, 25)

  /** `(1970..currentYear).toList()`; the current year comes from the clock. */
  function YearValues(currentYear: int): seq<int> {
    Progression(1970, currentYear, 1)
  }

  /** Weight offers 30 .. 150 kg, age 18 .. 80, urine 200 .. 1000 ml in steps of 25. */
  lemma ScaleContents()
    ensures |WeightValues| == 121 && WeightValues[0] == 30 && WeightValues[120] == 150
    ensures |AgeValues| == 63 && AgeValues[0] == 18 && AgeValues[62] == 80
    ensures |UrineValues| == 33 && UrineValues[0] == 200 && UrineValues[32] == 1000
  {
    WeightScale();
    AgeScale();
    UrineScale();
  }

  lemma WeightScale()
    ensures |WeightValues| == 121 && WeightValues[0] == 30 && WeightValues[120] == 150
  {
    ProgressionElement(30, 150, 1);
  }

  lemma AgeScale()
    ensures |AgeValues| == 63 && AgeValues[0] == 18 && AgeValues[62] == 80
  {
    ProgressionElement(18, 80, 1);
  }

  lemma UrineScale()
    ensures |UrineValues| == 33 && UrineValues[0] == 200 && UrineValues[32] == 1000
  {
    ProgressionElement(200, 1000, 25);
  }

  /** The year scale holds one entry per year from 1970 up to the current year. */
  lemma YearScale(currentYear: int)
    requires currentYear >= 1970
    ensures |YearValues(currentYear)| == currentYear - 1969
    ensures forall i :: 0 <= i < |YearValues(currentYear)| ==> YearValues(currentYear)[i] == 1970 + i
  {
    ProgressionElement(1970, currentYear, 1);
  }

  // ---------------------------------------------------------------------
  // Initial scroll position

  /** `indexOf`: the first position holding `v`, or -1. */
  function IndexOf(xs: seq<int>, v: int): (r: int)
    ensures r == -1 <==> v !in xs
    ensures r != -1 ==> 0 <= r < |xs| && xs[r] == v && v !in xs[..r]
    decreases |xs|
  {
    if xs == [] then -1
    else if xs[0] == v then 0
    else
      var k := IndexOf(xs[1..], v);
      if k == -1 then -1
      else
        assert xs[1..][..k] == xs[1..k + 1];
        k + 1
  }

  /** `indexOf(selected).coerceAtLeast(0)`: the selected value's position, or the first item when it is not on the scale. */
  function InitialIndex(values: seq<int>, selected: int): (r: nat)
    ensures selected in values ==> r < |values| && values[r] == selected && selected !in values[..r]
    ensures selected !in values ==> r == 0
  {
    var k := IndexOf(values, selected);
    if k < 0 then 0 else k
  }

  /** With the wizard's default of 50 kg the weight scale opens on its 21st item. */
  lemma DefaultWeightIndex()
    ensures InitialIndex(WeightValues, 50) == 20
  {
    ScaleContents();
    ProgressionElement(30, 150, 1);
    assert WeightValues[20] == 50;
    var r := InitialIndex(WeightValues, 50);
    assert WeightValues[r] == 30 + 1 * r;
  }

  /** With the wizard's default age of 32 the age scale opens on its 15th item. */
  lemma DefaultAgeIndex()
    ensures InitialIndex(AgeValues, 32) == 14
  {
    ScaleContents();
    ProgressionElement(18, 80, 1);
    assert AgeValues[14] == 32;
    var r := InitialIndex(AgeValues, 32);
    assert AgeValues[r] == 18 + 1 * r;
  }

  /** 285 ml is not 200 plus a multiple of 25, so the urine scale falls back to its first item. */
  lemma DefaultUrineIndex()
    ensures 285 !in UrineValues
    ensures InitialIndex(UrineValues, 285) == 0
  {
    ProgressionElement(200, 1000, 25);
  }

  /** The year picker opens on 2022 once the clock has reached it, and on 1970 before. */
  lemma DefaultYearIndex(currentYear: int)
    ensures currentYear >= 2022 ==> InitialIndex(YearValues(currentYear), 2022) == 52
    ensures currentYear < 2022 ==> InitialIndex(YearValues(currentYear), 2022) == 0
  {
    if currentYear >= 2022 {
      YearScale(currentYear);
      assert YearValues(currentYear)[52] == 2022;
    }
  }

  // ---------------------------------------------------------------------
  // Nearest visible item

  /** What the list reports about one visible item: its position in the list, its start and its width. */
  datatype VisibleItem = VisibleItem(index: int, offset: int, size: int)

  /** A snapshot of the list's layout. */
  datatype LayoutInfo = LayoutInfo(viewportStartOffset: int, viewportEndOffset: int, visibleItemsInfo: seq<VisibleItem>)

  /** `(viewportStartOffset + viewportEndOffset) / 2` with Kotlin's truncating division. */
  function ViewportCenter(layout: LayoutInfo): (c: int)
    ensures var s := layout.viewportStartOffset + layout.viewportEndOffset;
            && (s >= 0 ==> 0 <= s - 2 * c <= 1)
            && (s < 0 ==> -1 <= s - 2 * c <= 0)
  {
    Div(layout.viewportStartOffset + layout.viewportEndOffset, 2)
  }

  /** `abs((offset + size / 2) - center)`: how far an item's middle is from the centre. */
  function Distance(item: VisibleItem, center: int): (d: nat)
    ensures var middle := item.offset + Div(item.size, 2);
            && middle - center <= d && center - middle <= d
            && (d == middle - center || d == center - middle)
            && (d == 0 <==> middle == center)
  {
    Abs(item.offset + Div(item.size, 2) - center)
  }

  /** `minByOrNull`'s choice among a non-empty list: the first item of least distance. */
  function NearestPosition(items: seq<VisibleItem>, center: int): (p: nat)
    requires items != []
    ensures p < |items|
    ensures forall j :: 0 <= j < |items| ==> Distance(items[p], center) <= Distance(items[j], center)
    ensures forall j :: 0 <= j < p ==> Distance(items[p], center) < Distance(items[j], center)
    decreases |items|
  {
    if |items| == 1 then 0
    else
      var n := |items| - 1;
      var p := NearestPosition(items[..n], center);
      assert forall j :: 0 <= j < n ==> items[..n][j] == items[j];
      if Distance(items[n], center) < Distance(items[p], center) then n else p
  }

  /** `index` belongs to the first visible item of least distance from `center`. */
  ghost predicate FirstNearest(items: seq<VisibleItem>, center: int, index: int) {
    exists p :: 0 <= p < |items| && items[p].index == index &&
                (forall j :: 0 <= j < |items| ==> Distance(items[p], center) <= Distance(items[j], center)) &&
                (forall j :: 0 <= j < p ==> Distance(items[p], center) < Distance(items[j], center))
  }

  /** `closest?.index`: none when nothing is visible, otherwise the index of the first nearest item. */
  function ClosestIndex(items: seq<VisibleItem>, center: int): (r: Option<int>)
    ensures r == None <==> items == []
    ensures r != None ==> FirstNearest(items, center, r.value)
  {
    if items == [] then None else Some(items[NearestPosition(items, center)].index)
  }

  /** The scale picker measures against the middle of its viewport. */
  function SelectorIndex(layout: LayoutInfo): (r: Option<int>)
    ensures r == None <==> layout.visibleItemsInfo == []
    ensures r != None ==> FirstNearest(layout.visibleItemsInfo, ViewportCenter(layout), r.value)
  {
    ClosestIndex(layout.visibleItemsInfo, ViewportCenter(layout))
  }

  /** The year picker measures against a fixed centre derived from the screen width. */
  function YearPickerIndex(center: int): (r: LayoutInfo -> Option<int>)
    ensures forall layout :: r(layout) == None <==> layout.visibleItemsInfo == []
    ensures forall layout :: r(layout) != None ==> FirstNearest(layout.visibleItemsInfo, center, r(layout).value)
  {
    (layout: LayoutInfo) => ClosestIndex(layout.visibleItemsInfo, center)
  }

  /**
    The indices a picker's collector receives: the nearest index of every
    layout, in layout order, with repeats dropped; the first layout's index
    always arrives.
  */
  function PickerIndices(layouts: seq<LayoutInfo>, pick: LayoutInfo -> Option<int>): (r: seq<Option<int>>)
    ensures NoAdjacentRepeats(r)
    ensures IsSubsequence(r, MapSeq(layouts, pick))
    ensures |r| <= |layouts|
    ensures layouts != [] ==> r != [] && r[0] == pick(layouts[0])
  {
    var r := DistinctUntilChanged(MapSeq(layouts, pick));
    SubsequenceLength(r, MapSeq(layouts, pick));
    r
  }

  // ---------------------------------------------------------------------
  // Reporting a new value

  /** An index the collector acts on: present, within `values.indices`, and holding a value other than `v`. */
  predicate Differs(x: Option<int>, values: seq<int>, v: int) {
    x.Some? && 0 <= x.value < |values| && values[x.value] != v
  }

  /**
    The collector as written: the effect is keyed on the list state only, so
    it keeps comparing against the `selectedValue` it captured when it
    launched. An index is reported when it is present, in range and its
    value differs from that captured value.
  */
  function ReportsAsWritten(indices: seq<Option<int>>, values: seq<int>, selectedAtLaunch: int): (r: seq<int>)
    ensures |r| <= |indices|
    ensures forall k :: 0 <= k < |r| ==> r[k] != selectedAtLaunch && r[k] in values
    ensures r == [] <==> forall k :: 0 <= k < |indices| ==> !Differs(indices[k], values, selectedAtLaunch)
    decreases |indices|
  {
    if indices == [] then []
    else
      var rest := ReportsAsWritten(indices[1..], values, selectedAtLaunch);
      match indices[0]
      case None => rest
      case Some(i) => if 0 <= i < |values| && values[i] != selectedAtLaunch then [values[i]] + rest else rest
  }

  /**
    The collector comparing against the latest selected value: an index is
    reported when it is present, in range and its value differs from the
    value selected at that moment, which then becomes the selection.
  */
  function ReportsTracking(indices: seq<Option<int>>, values: seq<int>, selected: int): (r: seq<int>)
    ensures |r| <= |indices|
    ensures forall k :: 0 <= k < |r| ==> r[k] in values
    ensures r != [] ==> r[0] != selected
    ensures NoAdjacentRepeats(r)
    decreases |indices|
  {
    if indices == [] then []
    else if indices[0].Some? && 0 <= indices[0].value < |values| && values[indices[0].value] != selected then
      [values[indices[0].value]] + ReportsTracking(indices[1..], values, values[indices[0].value])
    else ReportsTracking(indices[1..], values, selected)
  }

  /** The parent's selected value after it has applied every report, in order. */
  function SelectedAfter(selected: int, reports: seq<int>): int {
    if reports == [] then selected else reports[|reports| - 1]
  }

  /** The value of the item nearest the centre at the end: the last present, in-range index's value. */
  function LastCentred(indices: seq<Option<int>>, values: seq<int>): Option<int>
    decreases |indices|
  {
    if indices == [] then None
    else
      var x := indices[|indices| - 1];
      if x.Some? && 0 <= x.value < |values| then Some(values[x.value])
      else LastCentred(indices[..|indices| - 1], values)
  }

  /** The same value, unfolded from the front. */
  lemma {:induction false} LastCentredFront(indices: seq<Option<int>>, values: seq<int>)
    requires indices != []
    ensures LastCentred(indices, values) ==
            if LastCentred(indices[1..], values).Some? then LastCentred(indices[1..], values)
            else if indices[0].Some? && 0 <= indices[0].value < |values| then Some(values[indices[0].value])
            else None
    decreases |indices|
  {
    if |indices| > 1 {
      var front := indices[..|indices| - 1];
      assert front[1..] == indices[1..][..|indices[1..]| - 1];
      assert front[0] == indices[0];
      LastCentredFront(front, values);
    }
  }

  /**
    With the latest value compared, the parent's selection always ends on
    the value of the item nearest the centre (or stays where it was when no
    item in range was ever nearest).
  */
  lemma {:induction false} TrackingFollowsCentre(indices: seq<Option<int>>, values: seq<int>, selected: int)
    ensures SelectedAfter(selected, ReportsTracking(indices, values, selected)) ==
            match LastCentred(indices, values)
            case None => selected
            case Some(v) => v
    decreases |indices|
  {
    if indices != [] {
      LastCentredFront(indices, values);
      var x := indices[0];
      if x.Some? && 0 <= x.value < |values| {
        TrackingFollowsCentre(indices[1..], values, values[x.value]);
      } else {
        TrackingFollowsCentre(indices[1..], values, selected);
      }
    }
  }

  /** The value at the last index the collector as written acts on, if any. */
  function LastDiffering(indices: seq<Option<int>>, values: seq<int>, v: int): (r: Option<int>)
    ensures r.Some? ==> r.value != v && r.value in values
    ensures r == None <==> forall k :: 0 <= k < |indices| ==> !Differs(indices[k], values, v)
    decreases |indices|
  {
    if indices == [] then None
    else
      var x := indices[|indices| - 1];
      if Differs(x, values, v) then Some(values[x.value])
      else LastDiffering(indices[..|indices| - 1], values, v)
  }

  /** The same value, unfolded from the front. */
  lemma {:induction false} LastDifferingFront(indices: seq<Option<int>>, values: seq<int>, v: int)
    requires indices != []
    ensures LastDiffering(indices, values, v) ==
            if LastDiffering(indices[1..], values, v).Some? then LastDiffering(indices[1..], values, v)
            else if Differs(indices[0], values, v) then Some(values[indices[0].value])
            else None
    decreases |indices|
  {
    if |indices| > 1 {
      var front := indices[..|indices| - 1];
      assert front[1..] == indices[1..][..|indices[1..]| - 1];
      assert front[0] == indices[0];
      LastDifferingFront(front, values, v);
    }
  }

  /**
    As written, the parent ends on the value of the last index whose value
    differed from the one captured at launch, or keeps that value when there
    was none; an index holding the captured value itself is never reported.
  */
  lemma {:induction false} AsWrittenEndState(indices: seq<Option<int>>, values: seq<int>, selectedAtLaunch: int)
    ensures SelectedAfter(selectedAtLaunch, ReportsAsWritten(indices, values, selectedAtLaunch)) ==
            match LastDiffering(indices, values, selectedAtLaunch)
            case None => selectedAtLaunch
            case Some(x) => x
    decreases |indices|
  {
    if indices != [] {
      LastDifferingFront(indices, values, selectedAtLaunch);
      AsWrittenEndState(indices[1..], values, selectedAtLaunch);
      var rest := ReportsAsWritten(indices[1..], values, selectedAtLaunch);
      if Differs(indices[0], values, selectedAtLaunch) {
        assert ReportsAsWritten(indices, values, selectedAtLaunch) == [values[indices[0].value]] + rest;
      } else {
        assert ReportsAsWritten(indices, values, selectedAtLaunch) == rest;
      }
    }
  }

  /**
    Scrolling from 30 to 31 and back to 30 on a scale that opened on 30:
    the return to 30 is compared against the captured 30 and never
    reported, so the parent keeps 31 while 30 sits under the indicator.
  */
  lemma AsWrittenMissesReturn()
    ensures var indices, values := [Some(0), Some(1), Some(0)], [30, 31];
            && NoAdjacentRepeats(indices)
            && ReportsAsWritten(indices, values, 30) == [31]
            && SelectedAfter(30, ReportsAsWritten(indices, values, 30)) == 31
            && LastCentred(indices, values) == Some(30)
            && SelectedAfter(30, ReportsTracking(indices, values, 30)) == 30
  {
    var indices: seq<Option<int>>, values := [Some(0), Some(1), Some(0)], [30, 31];
    assert indices[1..] == [Some(1), Some(0)];
    assert indices[1..][1..] == [Some(0)];
    assert indices[..2] == [Some(0), Some(1)];
  }

  /** One more index decides the value nearest the centre when it is in range, and leaves it alone otherwise. */
  lemma LastCentredSnoc(indices: seq<Option<int>>, x: Option<int>, values: seq<int>)
    ensures LastCentred(indices + [x], values) ==
            if x.Some? && 0 <= x.value < |values| then Some(values[x.value]) else LastCentred(indices, values)
  {
    assert (indices + [x])[..|indices|] == indices;
  }

  /** One step of `distinctUntilChanged` keeps the value nearest the centre in step with its input. */
  lemma LastCentredDropStep(front: seq<Option<int>>, x: Option<int>, out: seq<Option<int>>,
                            next: seq<Option<int>>, values: seq<int>)
    requires LastCentred(out, values) == LastCentred(front, values)
    requires next == if out != [] && out[|out| - 1] == x then out else out + [x]
    ensures LastCentred(next, values) == LastCentred(front + [x], values)
  {
    LastCentredSnoc(front, x, values);
    if !(out != [] && out[|out| - 1] == x) {
      LastCentredSnoc(out, x, values);
    }
  }

  /** Dropping repeated indices does not change which item is nearest the centre at the end. */
  lemma {:induction false} LastCentredIgnoresRepeats(indices: seq<Option<int>>, values: seq<int>)
    ensures LastCentred(DistinctUntilChanged(indices), values) == LastCentred(indices, values)
    decreases |indices|
  {
    if indices != [] {
      var front, x := indices[..|indices| - 1], indices[|indices| - 1];
      assert indices == front + [x];
      LastCentredIgnoresRepeats(front, values);
      DistinctUntilChangedStep(front, x);
      LastCentredDropStep(front, x, DistinctUntilChanged(front), DistinctUntilChanged(indices), values);
    }
  }

  /**
    The values a picker reports to its parent for a history of layouts, as
    written: compared against the value selected when the picker launched.
  */
  function PickerReports(layouts: seq<LayoutInfo>, pick: LayoutInfo -> Option<int>, values: seq<int>,
                         selectedAtLaunch: int): (r: seq<int>)
    ensures forall k :: 0 <= k < |r| ==> r[k] in values && r[k] != selectedAtLaunch
    ensures |r| <= |layouts|
  {
    ReportsAsWritten(PickerIndices(layouts, pick), values, selectedAtLaunch)
  }

  /**
    As written, after any history of layouts the parent holds the value of
    the item last nearest the centre among those on the scale and different
    from the launch value, or the launch value when there was none.
  */
  lemma PickerEndState(layouts: seq<LayoutInfo>, pick: LayoutInfo -> Option<int>, values: seq<int>,
                       selectedAtLaunch: int)
    ensures SelectedAfter(selectedAtLaunch, PickerReports(layouts, pick, values, selectedAtLaunch)) ==
            match LastDiffering(PickerIndices(layouts, pick), values, selectedAtLaunch)
            case None => selectedAtLaunch
            case Some(x) => x
  {
    AsWrittenEndState(PickerIndices(layouts, pick), values, selectedAtLaunch);
  }

  /** The weight, age and urine scales, as written. */
  function ScaleReports(layouts: seq<LayoutInfo>, values: seq<int>, selectedAtLaunch: int): (r: seq<int>)
    ensures forall k :: 0 <= k < |r| ==> r[k] in values && r[k] != selectedAtLaunch
    ensures |r| <= |layouts|
  {
    PickerReports(layouts, SelectorIndex, values, selectedAtLaunch)
  }

  /**
    The dialysis-year picker, as written; `center` is the screen width's
    half, which the source derives in floating point.
  */
  function YearReports(layouts: seq<LayoutInfo>, center: int, values: seq<int>, selectedAtLaunch: int)
    : (r: seq<int>)
    ensures forall k :: 0 <= k < |r| ==> r[k] in values && r[k] != selectedAtLaunch
    ensures |r| <= |layouts|
  {
    PickerReports(layouts, YearPickerIndex(center), values, selectedAtLaunch)
  }

  /** What happens on the year picker: the list settles on a new layout, or the user taps year item `index`. */
  datatype YearEvent = Scrolled(layout: LayoutInfo) | Tapped(index: int)

  /**
    The year picker as written, taps included. A layout goes through the
    scroll collector, whose `distinctUntilChanged` memory is `last`; a tap
    reports the tapped year straight away, even the selected one, and leaves
    that memory alone. Only items `0 until values.size` exist to be tapped.
  */
  function YearPickerReports(events: seq<YearEvent>, center: int, values: seq<int>, selectedAtLaunch: int,
                             last: Option<Option<int>>): (r: seq<int>)
    ensures |r| <= |events|
    ensures forall k :: 0 <= k < |r| ==> r[k] in values
    decreases |events|
  {
    if events == [] then []
    else
      match events[0]
      case Tapped(i) =>
        var rest := YearPickerReports(events[1..], center, values, selectedAtLaunch, last);
        if 0 <= i < |values| then [values[i]] + rest else rest
      case Scrolled(layout) =>
        var index := YearPickerIndex(center)(layout);
        if last == Some(index) then YearPickerReports(events[1..], center, values, selectedAtLaunch, last)
        else
          ReportsAsWritten([index], values, selectedAtLaunch) +
          YearPickerReports(events[1..], center, values, selectedAtLaunch, Some(index))
  }

  /** The events of a history made of scrolling alone. */
  function Scrolls(layouts: seq<LayoutInfo>): (r: seq<YearEvent>)
    ensures |r| == |layouts|
    ensures forall k :: 0 <= k < |r| ==> r[k] == Scrolled(layouts[k])
  {
    seq(|layouts|, k requires 0 <= k < |layouts| => Scrolled(layouts[k]))
  }

  /** The collector as written handles one index and then the rest. */
  lemma ReportsAsWrittenCons(x: Option<int>, xs: seq<Option<int>>, values: seq<int>, selectedAtLaunch: int)
    ensures ReportsAsWritten([x] + xs, values, selectedAtLaunch) ==
            ReportsAsWritten([x], values, selectedAtLaunch) + ReportsAsWritten(xs, values, selectedAtLaunch)
  {
    assert ([x] + xs)[1..] == xs;
    assert [x][1..] == [];
  }

  /** Without taps the year picker reports exactly what its scroll collector reports. */
  lemma {:induction false} ScrollsAreCollector(layouts: seq<LayoutInfo>, center: int, values: seq<int>,
                                               selectedAtLaunch: int, last: Option<Option<int>>)
    ensures YearPickerReports(Scrolls(layouts), center, values, selectedAtLaunch, last) ==
            ReportsAsWritten(Suppress(MapSeq(layouts, YearPickerIndex(center)), last), values, selectedAtLaunch)
    decreases |layouts|
  {
    if layouts != [] {
      var events := Scrolls(layouts);
      var indices := MapSeq(layouts, YearPickerIndex(center));
      var index := YearPickerIndex(center)(layouts[0]);
      assert events[0] == Scrolled(layouts[0]);
      assert events[1..] == Scrolls(layouts[1..]);
      assert indices[0] == index && indices[1..] == MapSeq(layouts[1..], YearPickerIndex(center));
      if last == Some(index) {
        ScrollsAreCollector(layouts[1..], center, values, selectedAtLaunch, last);
      } else {
        ScrollsAreCollector(layouts[1..], center, values, selectedAtLaunch, Some(index));
        ReportsAsWrittenCons(index, Suppress(indices[1..], Some(index)), values, selectedAtLaunch);
      }
    }
  }

  /** From launch, a tap-free history reports what `YearReports` describes. */
  lemma YearPickerWithoutTaps(layouts: seq<LayoutInfo>, center: int, values: seq<int>, selectedAtLaunch: int)
    ensures YearPickerReports(Scrolls(layouts), center, values, selectedAtLaunch, None) ==
            YearReports(layouts, center, values, selectedAtLaunch)
  {
    ScrollsAreCollector(layouts, center, values, selectedAtLaunch, None);
  }

  /**
    A tap is not guarded: tapping the item that holds the selected year
    reports that year again, which the scroll collector never does.
  */
  lemma TapReportsSelectedYear(layouts: seq<LayoutInfo>, center: int, values: seq<int>, i: int)
    requires 0 <= i < |values|
    ensures YearPickerReports([Tapped(i)], center, values, values[i], None) == [values[i]]
    ensures values[i] !in YearReports(layouts, center, values, values[i])
  {
  }

  /** The corrected picker: the collector compares against the latest selection. */
  function PickerReportsCorrected(layouts: seq<LayoutInfo>, pick: LayoutInfo -> Option<int>, values: seq<int>,
                                  selected: int): seq<int>
  {
    ReportsTracking(PickerIndices(layouts, pick), values, selected)
  }

  /** In the corrected picker every report is a value on the scale and differs from the selection it replaces. */
  lemma PickerCorrectedShape(layouts: seq<LayoutInfo>, pick: LayoutInfo -> Option<int>, values: seq<int>,
                             selected: int)
    ensures var r := PickerReportsCorrected(layouts, pick, values, selected);
            && NoAdjacentRepeats([selected] + r)
            && (forall k :: 0 <= k < |r| ==> r[k] in values)
            && |r| <= |layouts|
  {
    var r := PickerReportsCorrected(layouts, pick, values, selected);
    var s := [selected] + r;
    forall i | 0 <= i < |s| - 1
      ensures s[i] != s[i + 1]
    {
      if i > 0 {
        assert s[i] == r[i - 1] && s[i + 1] == r[i];
      }
    }
  }

  /**
    With the corrected picker, after any history of layouts the parent holds
    the value of the item last nearest the centre among those on the scale,
    or its original value when none ever was.
  */
  lemma PickerCorrectedFollowsCentre(layouts: seq<LayoutInfo>, pick: LayoutInfo -> Option<int>, values: seq<int>,
                                     selected: int)
    ensures SelectedAfter(selected, PickerReportsCorrected(layouts, pick, values, selected)) ==
            match LastCentred(MapSeq(layouts, pick), values)
            case None => selected
            case Some(v) => v
  {
    TrackingFollowsCentre(PickerIndices(layouts, pick), values, selected);
    LastCentredIgnoresRepeats(MapSeq(layouts, pick), values);
  }
}
