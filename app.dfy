/**
 * The `App` component as an object: its state variables are fields that the
 * handlers and timer callbacks assign, one event at a time. Each method is
 * proved to leave the object in the state the matching function of module
 * Flow gives, so everything proved in Schedule and Properties holds of it.
 */
module Component {
  import opened JsString
  import opened Flow

  class App {
    var stage: Stage
    var boothNumber: string
    var isAnimating: bool
    var introProgress: int
    /** Milliseconds since mount. */
    var now: nat
    /** The timers the browser still holds for the component, in scheduling order. */
    var timers: seq<Timer>

    function Snapshot(): State
      reads this
    {
      State(stage, boothNumber, isAnimating, introProgress, now, timers)
    }

    /** Mount: the initial state, and the intro effect schedules its timers. */
    constructor ()
      ensures Snapshot() == Init()
    {
      stage := Intro;
      boothNumber := "";
      isAnimating := true;
      introProgress := 0;
      now := 0;
      timers := EffectTimers(Intro, 0);
    }

    /** `setStage(st)`, with the effects re-run when the stage changes. */
    method SetStage(st: Stage)
      modifies this
      ensures Snapshot() == Flow.SetStage(old(Snapshot()), st)
    {
      if st != stage {
        timers := Clear(timers, stage) + EffectTimers(st, now);
        stage := st;
      }
    }

    /** The "Access Your Orders" button. */
    method AccessOrders()
      modifies this
      ensures Snapshot() == Flow.SetStage(old(Snapshot()), BoothEntry)
    {
      SetStage(BoothEntry);
    }

    /** The booth field's `onChange`. */
    method ChangeBoothNumber(value: string)
      modifies this
      ensures Snapshot() == old(Snapshot()).(boothNumber := value)
    {
      boothNumber := value;
    }

    /** `handleBoothSubmit`. */
    method HandleBoothSubmit()
      modifies this
      ensures Snapshot() == SubmitBooth(old(Snapshot()))
    {
      if Trim(boothNumber) != [] {
        SetStage(Options);
      }
    }

    /** `handleKeyPress`. */
    method HandleKeyPress(key: string)
      modifies this
      ensures Snapshot() == PressKey(old(Snapshot()), key)
    {
      if key == "Enter" {
        HandleBoothSubmit();
      }
    }

    /** The "Back to Welcome" button. */
    method BackToWelcome()
      modifies this
      ensures Snapshot() == Flow.SetStage(old(Snapshot()), Welcome)
    {
      SetStage(Welcome);
    }

    /** The "Change Booth Number" button. */
    method ChangeBooth()
      modifies this
      ensures Snapshot() == Flow.SetStage(old(Snapshot()), BoothEntry)
    {
      SetStage(BoothEntry);
    }

    /** The browser runs the next pending timer's callback, if there is one. */
    method FireNextTimer() returns (fired: bool)
      modifies this
      ensures fired <==> old(timers) != []
      ensures Snapshot() == if fired then Fire(old(Snapshot())) else old(Snapshot())
    {
      fired := timers != [];
      if fired {
        var i := Earliest(timers);
        var t := timers[i];
        timers := timers[..i] + timers[i + 1..];
        now := Max(now, t.due);
        match t.callback
        case IntroPhase(p) =>
          introProgress := p;
        case IntroFinish =>
          introProgress := 4;
          timers := timers + [Timer(now + 1000, ShowWelcome)];
        case ShowWelcome =>
          SetStage(Welcome);
        case Settle =>
          isAnimating := false;
      }
    }

    /** `ms` milliseconds pass: the browser runs every callback due by then. */
    method Wait(ms: nat)
      modifies this
      ensures Snapshot() == AdvanceTo(old(Snapshot()), old(now) + ms)
    {
      var until := now + ms;
      ghost var target := AdvanceTo(old(Snapshot()), until);
      while HasDue(Snapshot(), until)
        invariant AdvanceTo(Snapshot(), until) == target
        decreases Weight(timers)
      {
        ghost var before := Snapshot();
        AdvanceUnfold(before, until);
        var fired := FireNextTimer();
        assert Snapshot() == Fire(before);
      }
      AdvanceUnfold(Snapshot(), until);
      now := Max(now, until);
    }

    /** Dispatches one event to the control it comes from; a control that is
        not on screen cannot be used. */
    method Handle(e: Event)
      modifies this
      ensures Snapshot() == Step(old(Snapshot()), e)
    {
      if Offered(stage, e) {
        ghost var s := Snapshot();
        match e
        case AccessOrdersClicked =>
          assert Step(s, e) == Flow.SetStage(s, BoothEntry);
          AccessOrders();
        case BoothTyped(v) =>
          assert Step(s, e) == s.(boothNumber := v);
          ChangeBoothNumber(v);
        case KeyPressed(key) =>
          assert Step(s, e) == PressKey(s, key);
          HandleKeyPress(key);
        case ContinueClicked =>
          assert Step(s, e) == SubmitBooth(s);
          HandleBoothSubmit();
        case BackToWelcomeClicked =>
          assert Step(s, e) == Flow.SetStage(s, Welcome);
          BackToWelcome();
        case ChangeBoothClicked =>
          assert Step(s, e) == Flow.SetStage(s, BoothEntry);
          ChangeBooth();
        case Elapsed(ms) =>
          assert Step(s, e) == AdvanceTo(s, s.now + ms);
          Wait(ms);
      }
    }
  }
}
