/** The onboarding screen's state handlers: recording an answer on the current
    slide (and splicing its optional slides in or out), choosing the final
    status, and the rule that un-skips the flow when the user goes back. */
module IntroScreen {
  import opened JsValues
  import opened IntroSlides

  /** An optional slide as it is inserted: each child takes its default when
      that default is truthy, and the slide takes its default whenever one is
      defined. */
  function ResetToDefaults(slide: Slide): (r: Slide)
    ensures r.(value := slide.value, children := slide.children) == slide
    ensures slide.default != Undefined ==> r.value == slide.default
    ensures slide.default == Undefined ==> r.value == slide.value
    ensures slide.children.Some? <==> r.children.Some?
    ensures slide.children.Some? ==>
      |r.children.value| == |slide.children.value|
      && forall j :: 0 <= j < |r.children.value| ==>
           var c := slide.children.value[j];
           r.children.value[j] == (if Truthy(c.default) then c.(value := c.default) else c)
  {
    var children :=
      if slide.children.Some? then
        var cs := slide.children.value;
        Some(seq(|cs|, j requires 0 <= j < |cs| => if Truthy(cs[j].default) then cs[j].(value := cs[j].default) else cs[j]))
      else None;
    slide.(children := children, value := if slide.default != Undefined then slide.default else slide.value)
  }

  function ResetAll(slides: seq<Slide>): (r: seq<Slide>)
    ensures |r| == |slides|
    ensures forall j :: 0 <= j < |r| ==> r[j] == ResetToDefaults(slides[j])
  {
    seq(|slides|, j requires 0 <= j < |slides| => ResetToDefaults(slides[j]))
  }

  /** `Array.prototype.splice(start, n)` with no insertion: removes up to n
      elements from `start`, fewer when the list ends first. */
  function SpliceOut<T>(s: seq<T>, start: nat, n: nat): (r: seq<T>)
    requires start <= |s|
    ensures |r| == |s| - (if start + n <= |s| then n else |s| - start)
    ensures r[..start] == s[..start]
    ensures forall i :: start <= i < |r| ==> r[i] == s[i + n]
  {
    if start + n <= |s| then s[..start] + s[start + n..] else s[..start]
  }

  /** The answer recorded on the current slide, before the optional-slide
      logic: a child's value when a child index is given, the slide's own
      otherwise. Reading a missing slide or child throws. */
  function SetAnswer(target: Slide, newValue: JsValue, childIndex: Option<int>): (r: Result<Slide>)
    ensures r.Ok? <==> childIndex.None? || (target.children.Some? && 0 <= childIndex.value < |target.children.value|)
    ensures r.Ok? && childIndex.None? ==> r.value == target.(value := newValue)
    ensures r.Ok? && childIndex.Some? ==>
      var cs := target.children.value;
      && r.value.(children := target.children) == target
      && r.value.children.Some? && |r.value.children.value| == |cs|
      && r.value.children.value[childIndex.value].value == newValue
      && forall j :: 0 <= j < |cs| && j != childIndex.value ==> r.value.children.value[j] == cs[j]
  {
    match childIndex
    case None => Ok(target.(value := newValue))
    case Some(ci) =>
      if target.children.None? then Err(TypeError("Cannot read properties of undefined (reading '" + "index" + "')"))
      else if !(0 <= ci < |target.children.value|) then Err(TypeError("Cannot set properties of undefined (setting 'value')"))
      else
        var cs := target.children.value;
        Ok(target.(children := Some(cs[ci := cs[ci].(value := newValue)])))
  }

  /** `handleFormState(newValue, childIndex)` on the slide list with the given
      current slide. A slide with optional slides gets them, reset to their
      defaults, inserted right after it when the new value is exactly `true`;
      any other value removes as many slides as it has optional ones from
      right after it. */
  function HandleFormState(slides: seq<Slide>, currentSlide: nat, newValue: JsValue, childIndex: Option<int>): (r: Result<seq<Slide>>)
    ensures r.Ok? <==> currentSlide < |slides| && SetAnswer(slides[currentSlide], newValue, childIndex).Ok?
    ensures r.Ok? ==> |r.value| > currentSlide && r.value[..currentSlide] == slides[..currentSlide]
    ensures r.Ok? ==> r.value[currentSlide].(optionalSlides := slides[currentSlide].optionalSlides)
                        == SetAnswer(slides[currentSlide], newValue, childIndex).value
    ensures r.Ok? && slides[currentSlide].optionalSlides.None? ==>
      |r.value| == |slides| && r.value == slides[currentSlide := SetAnswer(slides[currentSlide], newValue, childIndex).value]
    ensures r.Ok? && slides[currentSlide].optionalSlides.Some? && newValue == Bool(true) ==>
      var opts := slides[currentSlide].optionalSlides.value;
      && |r.value| == |slides| + |opts|
      && r.value[currentSlide].optionalSlides == Some(ResetAll(opts))
      && r.value[currentSlide + 1..currentSlide + 1 + |opts|] == ResetAll(opts)
      && r.value[currentSlide + 1 + |opts|..] == slides[currentSlide + 1..]
    ensures r.Ok? && slides[currentSlide].optionalSlides.Some? && newValue != Bool(true) ==>
      var n := |slides[currentSlide].optionalSlides.value|;
      var end := if currentSlide + 1 + n <= |slides| then currentSlide + 1 + n else |slides|;
      && |r.value| == |slides| - (end - currentSlide - 1)
      && r.value[currentSlide] == SetAnswer(slides[currentSlide], newValue, childIndex).value
      && r.value[currentSlide + 1..] == slides[end..]
  {
    if currentSlide >= |slides| then Err(TypeError("Cannot set properties of undefined (setting 'value')"))
    else
      match SetAnswer(slides[currentSlide], newValue, childIndex)
      case Err(e) => Err(e)
      case Ok(target) =>
        if target.optionalSlides.None? then
          Ok(slides[currentSlide := target])
        else
          var opts := target.optionalSlides.value;
          if newValue == Bool(true) then
            var reset := ResetAll(opts);
            var target' := target.(optionalSlides := Some(reset));
            Ok(slides[..currentSlide] + [target'] + reset + slides[currentSlide + 1..])
          else
            Ok(SpliceOut(slides[currentSlide := target], currentSlide + 1, |opts|))
  }

  /** Switching a slide's optional slides on and then off again restores the
      rest of the list: only the switch's own value (now the second answer)
      and its optional slides' reset values differ. */
  lemma ToggleOnThenOff(slides: seq<Slide>, currentSlide: nat, off: JsValue)
    requires currentSlide < |slides| && slides[currentSlide].optionalSlides.Some?
    requires off != Bool(true)
    ensures HandleFormState(slides, currentSlide, Bool(true), None).Ok?
    ensures var on := HandleFormState(slides, currentSlide, Bool(true), None).value;
      var back := HandleFormState(on, currentSlide, off, None);
      && back.Ok?
      && |back.value| == |slides|
      && back.value[..currentSlide] == slides[..currentSlide]
      && back.value[currentSlide + 1..] == slides[currentSlide + 1..]
      && back.value[currentSlide] == slides[currentSlide].(value := off,
           optionalSlides := Some(ResetAll(slides[currentSlide].optionalSlides.value)))
  {
    var opts := slides[currentSlide].optionalSlides.value;
    var on := HandleFormState(slides, currentSlide, Bool(true), None).value;
    var back := HandleFormState(on, currentSlide, off, None);
    assert on[currentSlide].optionalSlides == Some(ResetAll(opts));
    assert back.value[currentSlide] == on[currentSlide].(value := off);
    assert back.value[currentSlide + 1..] == on[currentSlide + 1 + |opts|..];
  }

  /** A value other than `true` on a slide whose optional slides are not
      showing still removes that many slides after it: the removal does not
      check what follows. */
  lemma OffWithoutOnRemovesFollowing(slides: seq<Slide>, currentSlide: nat, off: JsValue)
    requires currentSlide < |slides| && slides[currentSlide].optionalSlides.Some?
    requires off != Bool(true)
    requires currentSlide + 1 + |slides[currentSlide].optionalSlides.value| <= |slides|
    ensures HandleFormState(slides, currentSlide, off, None).Ok?
    ensures var r := HandleFormState(slides, currentSlide, off, None).value;
      && |r| == |slides| - |slides[currentSlide].optionalSlides.value|
      && r[currentSlide + 1..] == slides[currentSlide + 1 + |slides[currentSlide].optionalSlides.value|..]
  {
    var r := HandleFormState(slides, currentSlide, off, None).value;
    var n := |slides[currentSlide].optionalSlides.value|;
    assert forall i :: currentSlide + 1 <= i < |r| ==> r[i] == slides[i + n];
  }

  /** `introSkipped ? 'SKIPPED' : 'COMPLETE'`. */
  function IntroStatus(introSkipped: bool): (s: string)
    ensures s == "SKIPPED" <==> introSkipped
    ensures s == "SKIPPED" || s == "COMPLETE"
  {
    if introSkipped then "SKIPPED" else "COMPLETE"
  }

  /** `handleDone`: the settings object handed to `createBudget`. Unless some
      slide writes the `introStatus` key itself, it carries the status the
      skip flag selects. */
  function HandleDone(slides: seq<Slide>, introSkipped: bool): (r: Result<Settings>)
    ensures r.Ok? ==> "introStatus" in r.value
    ensures (forall i :: 0 <= i < |slides| ==> !SlideWrites(slides[i], "introStatus")) && r.Ok? ==>
      r.value["introStatus"] == Str(if introSkipped then "SKIPPED" else "COMPLETE")
  {
    var init := map["introStatus" := Str(IntroStatus(introSkipped))];
    if forall i :: 0 <= i < |slides| ==> !SlideWrites(slides[i], "introStatus") then
      DeconstructKeepsUnwritten(init, slides, "introStatus");
      DeconstructSlides(slides, IntroStatus(introSkipped))
    else DeconstructSlides(slides, IntroStatus(introSkipped))
  }

  datatype SliderState = SliderState(currentSlide: nat, introSkipped: bool)

  /** `handleSlideChange(index)`: going back to an earlier slide clears the
      skip flag; the new index becomes current. */
  function HandleSlideChange(st: SliderState, index: nat): (r: SliderState)
    ensures r.currentSlide == index
    ensures r.introSkipped <==> st.introSkipped && index >= st.currentSlide
  {
    SliderState(index, if st.introSkipped && st.currentSlide > index then false else st.introSkipped)
  }

  /** Moving forward, or staying, never clears the flag; only `HandleSkip`
      sets it. */
  lemma ForwardKeepsSkip(st: SliderState, index: nat)
    requires index >= st.currentSlide
    ensures HandleSlideChange(st, index).introSkipped == st.introSkipped
  {
  }

  /** `handleSkip()`: the skip flag is set, and the slider is asked to go to
      the last slide, `slides.length - 1`. The current index only changes
      when the slider reports the move. */
  function HandleSkip(st: SliderState, slideCount: nat): (r: (SliderState, int))
    ensures r.0.introSkipped && r.0.currentSlide == st.currentSlide
    ensures r.1 + 1 == slideCount
  {
    (st.(introSkipped := true), slideCount - 1)
  }

  /** After a skip, and once the slider reports reaching the last slide,
      finishing hands on "SKIPPED", unless a slide writes `introStatus`. */
  lemma SkipThenDone(slides: seq<Slide>, st: SliderState)
    requires st.currentSlide < |slides|
    requires forall i :: 0 <= i < |slides| ==> !SlideWrites(slides[i], "introStatus")
    ensures var skip := HandleSkip(st, |slides|);
      var moved := HandleSlideChange(skip.0, skip.1 as nat);
      && moved.currentSlide == |slides| - 1
      && (HandleDone(slides, moved.introSkipped).Ok? ==>
            HandleDone(slides, moved.introSkipped).value["introStatus"] == Str("SKIPPED"))
  {
  }

  /** Going back after a skip restores the ordinary ending: finishing hands on
      "COMPLETE", unless a slide writes `introStatus`. */
  lemma SkipThenBack(slides: seq<Slide>, st: SliderState, index: nat)
    requires index < st.currentSlide
    requires forall i :: 0 <= i < |slides| ==> !SlideWrites(slides[i], "introStatus")
    ensures var back := HandleSlideChange(HandleSkip(st, |slides|).0, index);
      && !back.introSkipped
      && (HandleDone(slides, back.introSkipped).Ok? ==>
            HandleDone(slides, back.introSkipped).value["introStatus"] == Str("COMPLETE"))
  {
  }
}
