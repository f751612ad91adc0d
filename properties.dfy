/**
 * What the component promises about its handlers, its timers and every run
 * of events from mount.
 */
module Properties {
  import opened JsString
  import opened Flow
  import opened Schedule
  import opened Views

  // ---------------------------------------------------------------------------
  // The booth form and the back buttons

  /** Continue moves to the options stage exactly when the booth text is not all
      white space; otherwise nothing at all changes. The text, the animation
      flag, the intro progress and the clock are kept either way. */
  lemma SubmitIffNotBlank(s: State)
    requires s.stage == BoothEntry
    ensures Step(s, ContinueClicked).stage == Options <==> !AllWhiteSpace(s.boothNumber)
    ensures AllWhiteSpace(s.boothNumber) ==> Step(s, ContinueClicked) == s
    ensures Step(s, ContinueClicked).boothNumber == s.boothNumber
    ensures Step(s, ContinueClicked).isAnimating == s.isAnimating
    ensures Step(s, ContinueClicked).introProgress == s.introProgress
    ensures Step(s, ContinueClicked).now == s.now
  {
  }

  /** A key press in the booth field is Continue when the key is Enter, and
      changes nothing for any other key. */
  lemma EnterIsContinue(s: State, key: string)
    ensures key == "Enter" ==> Step(s, KeyPressed(key)) == Step(s, ContinueClicked)
    ensures key != "Enter" ==> Step(s, KeyPressed(key)) == s
  {
  }

  /** The continue button is disabled exactly when pressing it would change
      nothing. */
  lemma DisabledIffSubmitIdle(s: State)
    requires s.stage == BoothEntry
    ensures ContinueDisabled(s.boothNumber) <==> Step(s, ContinueClicked) == s
  {
    SubmitIffNotBlank(s);
  }

  /** Typing replaces the booth text with the field's value and changes nothing else. */
  lemma TypingReplacesBooth(s: State, value: string)
    requires s.stage == BoothEntry
    ensures Step(s, BoothTyped(value)) == s.(boothNumber := value)
  {
  }

  /** "Access Your Orders" always opens booth entry, keeps the booth text, the
      animation flag and the intro progress, and cancels the welcome screen's
      pending settle timer. */
  lemma AccessOrdersOpensBoothEntry(s: State)
    requires s.stage == Welcome
    ensures Step(s, AccessOrdersClicked).stage == BoothEntry
    ensures Step(s, AccessOrdersClicked).boothNumber == s.boothNumber
    ensures Step(s, AccessOrdersClicked).isAnimating == s.isAnimating
    ensures Step(s, AccessOrdersClicked).introProgress == s.introProgress
    ensures forall x :: x in Step(s, AccessOrdersClicked).timers ==> !x.callback.Settle?
  {
    var r := Step(s, AccessOrdersClicked);
    ClearSpec(s.timers, Welcome);
    forall x | x in r.timers
      ensures !x.callback.Settle?
    {
      assert x in Clear(s.timers, Welcome);
    }
  }

  /** Back from booth entry returns to the welcome stage with the booth text as
      entered, and the welcome screen's settle timer starts again. */
  lemma BackToWelcomeKeepsBooth(s: State)
    requires s.stage == BoothEntry
    ensures Step(s, BackToWelcomeClicked).stage == Welcome
    ensures Step(s, BackToWelcomeClicked).boothNumber == s.boothNumber
    ensures Step(s, BackToWelcomeClicked).isAnimating == s.isAnimating
    ensures Step(s, BackToWelcomeClicked).introProgress == s.introProgress
    ensures Timer(s.now + 2000, Settle) in Step(s, BackToWelcomeClicked).timers
  {
  }

  /** Back from the options returns to booth entry with the booth text as entered. */
  lemma ChangeBoothKeepsBooth(s: State)
    requires s.stage == Options
    ensures Step(s, ChangeBoothClicked).stage == BoothEntry
    ensures Step(s, ChangeBoothClicked).boothNumber == s.boothNumber
    ensures Step(s, ChangeBoothClicked).isAnimating == s.isAnimating
    ensures Step(s, ChangeBoothClicked).introProgress == s.introProgress
  {
  }

  /** The cleanup of the intro effect leaves the nested timeout that switches
      to the welcome stage pending. */
  lemma IntroCleanupKeepsWelcomeSwitch(ts: seq<Timer>, due: nat)
    requires Timer(due, ShowWelcome) in ts
    ensures Timer(due, ShowWelcome) in Clear(ts, Intro)
  {
    ClearSpec(ts, Intro);
  }

  /** On the scheduled progress, the intro container appears at 300 ms and
      starts to fade at 3500 ms; the letters are shown from 1200 ms to 3500 ms. */
  lemma IntroScreenTimeline(t: int)
    ensures IntroShown(IntroPhaseAt(t)) <==> t >= 300
    ensures IntroLeaving(IntroPhaseAt(t)) <==> t >= 3500
    ensures LetterShown(IntroPhaseAt(t)) <==> 1200 <= t < 3500
  {
  }

  // ---------------------------------------------------------------------------
  // The intro stage is left once, by its timer

  /** Time passing can only leave the stage as it is or switch to welcome. */
  lemma {:induction false} AdvanceStage(s: State, t: nat)
    ensures AdvanceTo(s, t).stage == s.stage || AdvanceTo(s, t).stage == Welcome
    decreases Weight(s.timers)
  {
    if HasDue(s, t) {
      var f := Fire(s);
      assert f.stage == s.stage || f.stage == Welcome;
      AdvanceStage(f, t);
    }
  }

  /** No event enters the intro stage. */
  lemma NeverBackToIntro(s: State, e: Event)
    requires s.stage != Intro
    ensures Step(s, e).stage != Intro
  {
    match e
    case Elapsed(ms) => AdvanceStage(s, s.now + ms);
    case KeyPressed(key) => assert Step(s, e) == s || Step(s, e) == SubmitBooth(s);
    case ContinueClicked => assert Step(s, e) == s || Step(s, e) == SubmitBooth(s);
    case _ =>
  }

  /** The only way out of the intro stage is time passing, into the welcome stage. */
  lemma LeaveIntroOnlyByTimer(s: State, e: Event)
    requires s.stage == Intro
    requires Step(s, e).stage != Intro
    ensures e.Elapsed? && Step(s, e).stage == Welcome
  {
    if e.Elapsed? {
      AdvanceStage(s, s.now + e.ms);
    }
  }

  /** Once the intro stage is left, no run of events returns to it. */
  lemma {:induction false} RunNeverBackToIntro(s: State, es: seq<Event>)
    requires s.stage != Intro
    ensures Run(s, es).stage != Intro
    decreases |es|
  {
    if es != [] {
      NeverBackToIntro(s, es[0]);
      RunNeverBackToIntro(Step(s, es[0]), es[1..]);
    }
  }

  // ---------------------------------------------------------------------------
  // The entrance animation only ever stops

  lemma {:induction false} AdvanceKeepsSettled(s: State, t: nat)
    requires !s.isAnimating
    ensures !AdvanceTo(s, t).isAnimating
    decreases Weight(s.timers)
  {
    if HasDue(s, t) {
      AdvanceKeepsSettled(Fire(s), t);
    }
  }

  /** No event sets the animation flag back to true, re-entering welcome included. */
  lemma AnimationNeverRestarts(s: State, e: Event)
    requires !s.isAnimating
    ensures !Step(s, e).isAnimating
  {
    if e.Elapsed? {
      AdvanceKeepsSettled(s, s.now + e.ms);
    }
  }

  // ---------------------------------------------------------------------------
  // The invariant of every state reachable from mount

  /** After the intro: the intro progress stays at 4; only the welcome stage
      has a pending timer, its settle timer, due within 2000 ms and never
      before 6500 ms; on the welcome stage without it the animation is over;
      and the animation is never over before 6500 ms. */
  ghost predicate AfterIntro(s: State) {
    s.stage != Intro && s.introProgress == 4 &&
    (s.stage == Welcome ==>
       (s.timers == [] && !s.isAnimating) ||
       (|s.timers| == 1 && s.timers[0].callback == Settle &&
        s.now < s.timers[0].due <= s.now + 2000 && s.timers[0].due >= 6500)) &&
    (s.stage != Welcome ==> s.timers == []) &&
    (!s.isAnimating ==> s.now >= 6500)
  }

  /** Before 4500 ms the state is exactly the idle one (the intro screen has no
      controls); from 4500 ms on it satisfies AfterIntro. */
  ghost predicate Inv(s: State) {
    if s.now < 4500 then s == IdleAt(s.now) else AfterIntro(s)
  }

  lemma IdleInv(t: nat)
    ensures Inv(IdleAt(t))
  {
  }

  lemma {:induction false} AdvancePreservesInv(s: State, t: nat)
    requires Inv(s) && s.now <= t
    ensures Inv(AdvanceTo(s, t))
  {
    if s.now < 4500 {
      AdvanceIdle(s.now, t);
      IdleInv(t);
    } else if s.timers != [] && s.timers[0].due <= t {
      var f := Fire(s);
      assert f == s.(timers := [], now := s.timers[0].due, isAnimating := false);
      assert AdvanceTo(f, t) == f.(now := t);
    }
  }

  lemma StepPreservesInv(s: State, e: Event)
    requires Inv(s)
    ensures Inv(Step(s, e))
    ensures Step(s, e).now >= s.now
  {
    if e.Elapsed? {
      AdvancePreservesInv(s, s.now + e.ms);
    } else if Offered(s.stage, e) {
      assert s.stage != Intro;
      if e.AccessOrdersClicked? {
        ClearSpec(s.timers, Welcome);
        var c := Clear(s.timers, Welcome);
        assert c == [];
      }
    }
  }

  lemma {:induction false} RunPreservesInv(s: State, es: seq<Event>)
    requires Inv(s)
    ensures Inv(Run(s, es))
    decreases |es|
  {
    if es != [] {
      StepPreservesInv(s, es[0]);
      RunPreservesInv(Step(s, es[0]), es[1..]);
    }
  }

  /** Whatever the user does, the intro progress is the scheduled one for the
      time since mount, the stage is intro exactly before 4500 ms, and the
      entrance animation is never over before 6500 ms. */
  lemma ReachableFollowsSchedule(es: seq<Event>)
    ensures Run(Init(), es).introProgress == IntroPhaseAt(Run(Init(), es).now)
    ensures Run(Init(), es).stage == Intro <==> Run(Init(), es).now < 4500
    ensures !Run(Init(), es).isAnimating ==> Run(Init(), es).now >= 6500
  {
    assert Init() == IdleAt(0);
    RunPreservesInv(Init(), es);
  }

  /** The intro progress never decreases from one event to the next. */
  lemma ProgressNeverDecreases(s: State, e: Event)
    requires Inv(s)
    ensures Step(s, e).introProgress >= s.introProgress
  {
    StepPreservesInv(s, e);
  }

  /** The animation flag turns false only by the settle timer, which runs on
      the welcome stage, never before 6500 ms. */
  lemma AnimationStopsOnlyOnWelcome(s: State, e: Event)
    requires Inv(s) && s.isAnimating && !Step(s, e).isAnimating
    ensures e.Elapsed?
    ensures Step(s, e).stage == Welcome
    ensures Step(s, e).now >= 6500
  {
    StepPreservesInv(s, e);
    if e.Elapsed? {
      var t: nat := s.now + e.ms;
      if s.now < 4500 {
        AdvanceIdle(s.now, t);
      } else {
        AdvanceStage(s, t);
        if s.stage != Welcome {
          AdvanceUnfold(s, t);
        }
      }
    }
  }

  /** On the welcome stage, while the animation runs, exactly one settle timer
      is pending, due at most 2000 ms ahead; the flag falls exactly when the
      wait reaches that timer. */
  lemma WelcomeSettles(s: State, ms: nat)
    requires Inv(s) && s.stage == Welcome && s.isAnimating
    ensures |s.timers| == 1 && s.timers[0].callback == Settle
    ensures s.now < s.timers[0].due <= s.now + 2000
    ensures !Step(s, Elapsed(ms)).isAnimating <==> s.timers[0].due <= s.now + ms
  {
    var t: nat := s.now + ms;
    assert Step(s, Elapsed(ms)) == AdvanceTo(s, t);
    AdvanceUnfold(s, t);
    if s.timers[0].due <= t {
      var f := Fire(s);
      assert f == s.(timers := [], now := s.timers[0].due, isAnimating := false);
      AdvanceKeepsSettled(f, t);
    }
  }

  /** Coming back to the welcome stage while the animation still runs starts a
      fresh settle timer: the flag falls exactly 2000 ms after the return, not
      at the time set by an earlier visit. */
  lemma ReentrySettles(s: State, ms: nat)
    requires Inv(s) && s.stage == BoothEntry && s.isAnimating
    ensures Step(Step(s, BackToWelcomeClicked), Elapsed(ms)).isAnimating <==> ms < 2000
  {
    var w := Step(s, BackToWelcomeClicked);
    assert Clear(s.timers, BoothEntry) == [];
    assert w == s.(stage := Welcome, timers := [Timer(s.now + 2000, Settle)]);
    StepPreservesInv(s, BackToWelcomeClicked);
    WelcomeSettles(w, ms);
  }

  // ---------------------------------------------------------------------------
  // The intro letters on any run

  /** Whatever the user does, each letter of "Welcome" is delayed 120 ms per
      position exactly while the time since mount is in [1200, 3500) ms, and
      not at all otherwise. */
  lemma ReachableLetterDelay(es: seq<Event>, i: nat)
    requires i < |WelcomeLetters|
    ensures LetterDelay(Run(Init(), es).introProgress, i) ==
            if 1200 <= Run(Init(), es).now < 3500 then 120 * i else 0
  {
    var r := Run(Init(), es);
    ReachableFollowsSchedule(es);
    IntroScreenTimeline(r.now);
  }

  // ---------------------------------------------------------------------------
  // The documented walk through the flow

  lemma {:induction false} RunAppend(s: State, a: seq<Event>, b: seq<Event>)
    ensures Run(s, a + b) == Run(Run(s, a), b)
    decreases |a|
  {
    if a == [] {
      assert a + b == b;
    } else {
      assert (a + b)[0] == a[0];
      assert (a + b)[1..] == a[1..] + b;
      RunAppend(Step(s, a[0]), a[1..], b);
    }
  }

  /** From the welcome stage: open booth entry, type a booth text that is not
      all white space and continue; the options screen is headed with that text
      verbatim. Going back shows booth entry with the text still there. */
  lemma EnterBoothFromWelcome(s: State, booth: string)
    requires s.stage == Welcome && !AllWhiteSpace(booth)
    ensures Run(s, [AccessOrdersClicked, BoothTyped(booth), ContinueClicked]).stage == Options
    ensures OptionsHeader(Run(s, [AccessOrdersClicked, BoothTyped(booth), ContinueClicked]).boothNumber) == "Booth " + booth
    ensures Run(s, [AccessOrdersClicked, BoothTyped(booth), ContinueClicked, ChangeBoothClicked]).stage == BoothEntry
    ensures Run(s, [AccessOrdersClicked, BoothTyped(booth), ContinueClicked, ChangeBoothClicked]).boothNumber == booth
  {
    var s2 := Step(s, AccessOrdersClicked);
    var s3 := Step(s2, BoothTyped(booth));
    var s4 := Step(s3, ContinueClicked);
    var s5 := Step(s4, ChangeBoothClicked);
    assert s4.stage == Options && s4.boothNumber == booth;
    assert s5.stage == BoothEntry && s5.boothNumber == booth;
    assert Run(s4, []) == s4;
    assert Run(s, [AccessOrdersClicked, BoothTyped(booth), ContinueClicked]) == Run(s2, [BoothTyped(booth), ContinueClicked]);
    assert Run(s2, [BoothTyped(booth), ContinueClicked]) == Run(s3, [ContinueClicked]);
    assert Run(s, [AccessOrdersClicked, BoothTyped(booth), ContinueClicked, ChangeBoothClicked]) == Run(s2, [BoothTyped(booth), ContinueClicked, ChangeBoothClicked]);
    assert Run(s2, [BoothTyped(booth), ContinueClicked, ChangeBoothClicked]) == Run(s3, [ContinueClicked, ChangeBoothClicked]);
    assert Run(s3, [ContinueClicked, ChangeBoothClicked]) == Run(s4, [ChangeBoothClicked]);
    assert Run(s5, []) == s5;
  }

  /** The walk-through below, from any state that reaches the welcome stage
      after `wait` ms. */
  lemma WalkFrom(s0: State, wait: nat, booth: string)
    requires Step(s0, Elapsed(wait)).stage == Welcome && !AllWhiteSpace(booth)
    ensures Run(s0, [Elapsed(wait), AccessOrdersClicked, BoothTyped(booth), ContinueClicked]).stage == Options
    ensures OptionsHeader(Run(s0, [Elapsed(wait), AccessOrdersClicked, BoothTyped(booth), ContinueClicked]).boothNumber) == "Booth " + booth
    ensures Run(s0, [Elapsed(wait), AccessOrdersClicked, BoothTyped(booth), ContinueClicked, ChangeBoothClicked]).stage == BoothEntry
    ensures Run(s0, [Elapsed(wait), AccessOrdersClicked, BoothTyped(booth), ContinueClicked, ChangeBoothClicked]).boothNumber == booth
  {
    var s1 := Step(s0, Elapsed(wait));
    EnterBoothFromWelcome(s1, booth);
    var rest := [AccessOrdersClicked, BoothTyped(booth), ContinueClicked];
    RunAppend(s0, [Elapsed(wait)], rest);
    RunAppend(s0, [Elapsed(wait)], rest + [ChangeBoothClicked]);
    assert Run(s0, [Elapsed(wait)]) == Run(s1, []);
    assert [Elapsed(wait), AccessOrdersClicked, BoothTyped(booth), ContinueClicked] == [Elapsed(wait)] + rest;
    assert [Elapsed(wait), AccessOrdersClicked, BoothTyped(booth), ContinueClicked, ChangeBoothClicked]
        == [Elapsed(wait)] + (rest + [ChangeBoothClicked]);
  }

  /** Mount, wait at least 4500 ms, open booth entry, type a booth text that
      is not all white space (such as "A-123") and continue: the options screen
      is headed "Booth " and the text; back: booth entry still holds the text. */
  lemma Walkthrough(wait: nat, booth: string)
    requires wait >= 4500 && !AllWhiteSpace(booth)
    ensures Run(Init(), [Elapsed(wait), AccessOrdersClicked, BoothTyped(booth), ContinueClicked]).stage == Options
    ensures OptionsHeader(Run(Init(), [Elapsed(wait), AccessOrdersClicked, BoothTyped(booth), ContinueClicked]).boothNumber) == "Booth " + booth
    ensures Run(Init(), [Elapsed(wait), AccessOrdersClicked, BoothTyped(booth), ContinueClicked, ChangeBoothClicked]).stage == BoothEntry
    ensures Run(Init(), [Elapsed(wait), AccessOrdersClicked, BoothTyped(booth), ContinueClicked, ChangeBoothClicked]).boothNumber == booth
  {
    var s0 := Init();
    IdleFromMount(wait);
    assert s0.now + wait == wait;
    assert Step(s0, Elapsed(wait)) == AdvanceTo(s0, wait);
    WalkFrom(s0, wait, booth);
  }
}
