/**
 * The view-state machine of the `App` component: its four state variables,
 * the browser's pending timers, the user's events and the passing of time.
 * Rendering is left out; the derived views are in module Views.
 */
module Flow {
  import opened JsString

  datatype Stage = Intro | Welcome | BoothEntry | Options

  /** What a pending timer does when it fires. */
  datatype Callback =
    | IntroPhase(phase: int)   // timers 1-3 of the intro effect: set the intro progress
    | IntroFinish              // timer 4: progress 4, then schedule ShowWelcome
    | ShowWelcome              // the nested timeout: switch to the welcome stage
    | Settle                   // the welcome effect's timer: stop the entrance animation

  datatype Timer = Timer(due: nat, callback: Callback)

  /** The component's state plus the runtime state it depends on: the clock
      (milliseconds since mount) and the timers still pending, in the order
      they were scheduled. */
  datatype State = State(
    stage: Stage,
    boothNumber: string,
    isAnimating: bool,
    introProgress: int,
    now: nat,
    timers: seq<Timer>)

  /** What can happen: a click, a keystroke or an edit on a control that is on
      screen, or time passing. */
  datatype Event =
    | AccessOrdersClicked
    | BoothTyped(value: string)
    | KeyPressed(key: string)
    | ContinueClicked
    | BackToWelcomeClicked
    | ChangeBoothClicked
    | Elapsed(ms: nat)

  function Max(a: nat, b: nat): nat { if a < b then b else a }

  /** The timers an effect run schedules when the stage becomes `st` at time `now`. */
  function EffectTimers(st: Stage, now: nat): seq<Timer> {
    match st
    case Intro => [Timer(now + 300, IntroPhase(1)), Timer(now + 1200, IntroPhase(2)),
                   Timer(now + 2200, IntroPhase(3)), Timer(now + 3500, IntroFinish)]
    case Welcome => [Timer(now + 2000, Settle)]
    case _ => []
  }

  /** The timers that the cleanup of stage `st`'s effect run clears. The
      nested ShowWelcome timer belongs to no effect run and is never cleared. */
  predicate ClearedBy(c: Callback, st: Stage) {
    match c
    case IntroPhase(_) => st == Intro
    case IntroFinish => st == Intro
    case ShowWelcome => false
    case Settle => st == Welcome
  }

  /** Termination measure for the timer queue: firing any timer lowers it. */
  function CallbackWeight(c: Callback): nat {
    match c
    case IntroPhase(_) => 1
    case IntroFinish => 3
    case ShowWelcome => 2
    case Settle => 1
  }

  function Weight(ts: seq<Timer>): nat {
    if ts == [] then 0 else CallbackWeight(ts[0].callback) + Weight(ts[1..])
  }

  lemma {:induction false} WeightAppend(a: seq<Timer>, b: seq<Timer>)
    ensures Weight(a + b) == Weight(a) + Weight(b)
  {
    if a != [] {
      assert (a + b)[0] == a[0];
      assert (a + b)[1..] == a[1..] + b;
      WeightAppend(a[1..], b);
    } else {
      assert a + b == b;
    }
  }

  lemma WeightRemove(ts: seq<Timer>, i: nat)
    requires i < |ts|
    ensures Weight(ts[..i] + ts[i + 1..]) + CallbackWeight(ts[i].callback) == Weight(ts)
  {
    var tail := [ts[i]] + ts[i + 1..];
    assert ts == ts[..i] + tail;
    assert tail[0] == ts[i] && tail[1..] == ts[i + 1..];
    assert Weight(tail) == CallbackWeight(ts[i].callback) + Weight(ts[i + 1..]);
    WeightAppend(ts[..i], tail);
    WeightAppend(ts[..i], ts[i + 1..]);
  }

  /** The cleanup of stage `st`'s effect run. */
  function Clear(ts: seq<Timer>, st: Stage): seq<Timer> {
    if ts == [] then []
    else if ClearedBy(ts[0].callback, st) then Clear(ts[1..], st)
    else [ts[0]] + Clear(ts[1..], st)
  }

  /** Exactly the timers the effect run owns go; the others stay. */
  lemma {:induction false} ClearSpec(ts: seq<Timer>, st: Stage)
    ensures forall x :: x in Clear(ts, st) ==> x in ts && !ClearedBy(x.callback, st)
    ensures forall x :: x in ts && !ClearedBy(x.callback, st) ==> x in Clear(ts, st)
    ensures Weight(Clear(ts, st)) <= Weight(ts)
  {
    if ts != [] {
      ClearSpec(ts[1..], st);
      assert ts == [ts[0]] + ts[1..];
      if !ClearedBy(ts[0].callback, st) {
        var r := [ts[0]] + Clear(ts[1..], st);
        assert r[0] == ts[0] && r[1..] == Clear(ts[1..], st);
      }
    }
  }

  /** `setStage(st)` followed by React's effect handling: when the value
      changes, the old stage's effect is cleaned up and the new stage's effect
      schedules its timers. Nothing but the stage and the timers changes. */
  function SetStage(s: State, st: Stage): (r: State)
    ensures r.stage == st && r.boothNumber == s.boothNumber && r.isAnimating == s.isAnimating
    ensures r.introProgress == s.introProgress && r.now == s.now
    ensures st == s.stage ==> r == s
  {
    if st == s.stage then s
    else s.(stage := st, timers := Clear(s.timers, s.stage) + EffectTimers(st, s.now))
  }

  /** Mount: stage 'intro', empty booth text, animating, progress 0, and the
      intro effect's four timers. */
  function Init(): State {
    State(Intro, "", true, 0, 0, EffectTimers(Intro, 0))
  }

  /** The index of the timer the runtime fires next. */
  function Earliest(ts: seq<Timer>): (i: nat)
    requires |ts| > 0
    ensures i < |ts|
  {
    if |ts| == 1 then 0
    else
      var j := 1 + Earliest(ts[1..]);
      if ts[0].due <= ts[j].due then 0 else j
  }

  /** The timer fired next has the smallest due time, and among those it is
      the one scheduled first. */
  lemma {:induction false} EarliestSpec(ts: seq<Timer>)
    requires |ts| > 0
    ensures forall k :: 0 <= k < |ts| ==> ts[Earliest(ts)].due <= ts[k].due
    ensures forall k :: 0 <= k < Earliest(ts) ==> ts[k].due > ts[Earliest(ts)].due
  {
    if |ts| > 1 {
      EarliestSpec(ts[1..]);
      assert forall k :: 1 <= k < |ts| ==> ts[k] == ts[1..][k - 1];
    }
  }

  /** When every other timer is due strictly later than the first, the first
      fires next. */
  lemma EarliestOfIncreasing(ts: seq<Timer>)
    requires |ts| > 0
    requires forall k :: 0 < k < |ts| ==> ts[0].due < ts[k].due
    ensures Earliest(ts) == 0
  {
    EarliestSpec(ts);
  }

  /** Runs a timer's callback in state `s`. */
  function RunCallback(s: State, c: Callback): State {
    match c
    case IntroPhase(p) => s.(introProgress := p)
    case IntroFinish => s.(introProgress := 4, timers := s.timers + [Timer(s.now + 1000, ShowWelcome)])
    case ShowWelcome => SetStage(s, Welcome)
    case Settle => s.(isAnimating := false)
  }

  /** A callback adds less weight to the queue than its own timer had. */
  lemma RunCallbackWeight(s: State, c: Callback)
    ensures Weight(RunCallback(s, c).timers) < Weight(s.timers) + CallbackWeight(c)
  {
    match c
    case IntroFinish =>
      WeightAppend(s.timers, [Timer(s.now + 1000, ShowWelcome)]);
    case ShowWelcome =>
      if s.stage != Welcome {
        ClearSpec(s.timers, s.stage);
        WeightAppend(Clear(s.timers, s.stage), EffectTimers(Welcome, s.now));
      }
    case _ =>
  }

  /** Fires the next pending timer: it leaves the queue, the clock moves to
      its due time (never backwards) and its callback runs. */
  function Fire(s: State): (r: State)
    requires s.timers != []
    ensures Weight(r.timers) < Weight(s.timers)
    ensures r.now >= s.now
    ensures r.boothNumber == s.boothNumber
  {
    var i := Earliest(s.timers);
    var t := s.timers[i];
    var rest := s.timers[..i] + s.timers[i + 1..];
    var s1 := s.(timers := rest, now := Max(s.now, t.due));
    WeightRemove(s.timers, i);
    RunCallbackWeight(s1, t.callback);
    RunCallback(s1, t.callback)
  }

  /** When the first pending timer is due strictly before all others, firing
      runs its callback with the rest of the queue. */
  lemma FireFirst(s: State)
    requires s.timers != []
    requires forall k :: 0 < k < |s.timers| ==> s.timers[0].due < s.timers[k].due
    ensures Earliest(s.timers) == 0
    ensures Fire(s) == RunCallback(s.(timers := s.timers[1..], now := Max(s.now, s.timers[0].due)), s.timers[0].callback)
  {
    EarliestOfIncreasing(s.timers);
    assert s.timers[..0] + s.timers[1..] == s.timers[1..];
  }

  /** Whether some pending timer is due by time `t`. */
  predicate HasDue(s: State, t: nat) {
    s.timers != [] && s.timers[Earliest(s.timers)].due <= t
  }

  /** Lets time pass up to `t`: every timer due by then fires, earliest first;
      afterwards the clock reads `t` (or stays, if it was already later). */
  function AdvanceTo(s: State, t: nat): (r: State)
    ensures r.now == Max(s.now, t)
    ensures r.boothNumber == s.boothNumber
    decreases Weight(s.timers)
  {
    if HasDue(s, t) then
      AdvanceTo(Fire(s), t)
    else
      s.(now := Max(s.now, t))
  }

  /** After waiting until `t`, no pending timer is due by `t`. */
  lemma {:induction false} AdvanceSpec(s: State, t: nat)
    ensures forall k :: 0 <= k < |AdvanceTo(s, t).timers| ==> AdvanceTo(s, t).timers[k].due > t
    decreases Weight(s.timers)
  {
    if HasDue(s, t) {
      AdvanceSpec(Fire(s), t);
    } else if s.timers != [] {
      EarliestSpec(s.timers);
    }
  }

  /** One unfolding of AdvanceTo. */
  lemma AdvanceUnfold(s: State, t: nat)
    ensures HasDue(s, t) ==> AdvanceTo(s, t) == AdvanceTo(Fire(s), t)
    ensures !HasDue(s, t) ==> AdvanceTo(s, t) == s.(now := Max(s.now, t))
  {
  }

  /** `handleBoothSubmit`: go to the options stage if the trimmed booth text
      is non-empty; otherwise do nothing. */
  function SubmitBooth(s: State): State {
    if Trim(s.boothNumber) != [] then SetStage(s, Options) else s
  }

  /** `handleKeyPress`: only the Enter key submits. */
  function PressKey(s: State, key: string): State {
    if key == "Enter" then SubmitBooth(s) else s
  }

  /** Whether the control an event comes from is rendered in stage `st`. The
      intro screen has no controls; time passes in every stage. */
  predicate Offered(st: Stage, e: Event) {
    match e
    case AccessOrdersClicked => st == Welcome
    case BoothTyped(_) => st == BoothEntry
    case KeyPressed(_) => st == BoothEntry
    case ContinueClicked => st == BoothEntry
    case BackToWelcomeClicked => st == BoothEntry
    case ChangeBoothClicked => st == Options
    case Elapsed(_) => true
  }

  /** One event. A user event whose control is not on screen changes nothing. */
  function Step(s: State, e: Event): State {
    if !Offered(s.stage, e) then s
    else
      match e
      case AccessOrdersClicked => SetStage(s, BoothEntry)
      case BoothTyped(v) => s.(boothNumber := v)
      case KeyPressed(key) => PressKey(s, key)
      case ContinueClicked => SubmitBooth(s)
      case BackToWelcomeClicked => SetStage(s, Welcome)
      case ChangeBoothClicked => SetStage(s, BoothEntry)
      case Elapsed(ms) => AdvanceTo(s, s.now + ms)
  }

  /** A sequence of events, in order. */
  function Run(s: State, es: seq<Event>): State
    decreases |es|
  {
    if es == [] then s else Run(Step(s, es[0]), es[1..])
  }
}
