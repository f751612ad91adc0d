/**
 * The intro schedule as a function of time, and the proof that a component
 * left alone from mount follows it: progress 1, 2, 3, 4 at 300, 1200, 2200
 * and 3500 ms, the welcome stage at 4500 ms, the entrance animation settled
 * at 6500 ms.
 */
module Schedule {
  import opened Flow

  /** The intro progress the schedule calls for `t` ms after mount. */
  function IntroPhaseAt(t: int): int {
    if t < 300 then 0
    else if t < 1200 then 1
    else if t < 2200 then 2
    else if t < 3500 then 3
    else 4
  }

  /** The intro timers still pending `t` ms after mount, for `t` < 4500. */
  function IntroTimersAt(t: nat): seq<Timer> {
    if t < 300 then
      [Timer(300, IntroPhase(1)), Timer(1200, IntroPhase(2)), Timer(2200, IntroPhase(3)), Timer(3500, IntroFinish)]
    else if t < 1200 then
      [Timer(1200, IntroPhase(2)), Timer(2200, IntroPhase(3)), Timer(3500, IntroFinish)]
    else if t < 2200 then
      [Timer(2200, IntroPhase(3)), Timer(3500, IntroFinish)]
    else if t < 3500 then
      [Timer(3500, IntroFinish)]
    else
      [Timer(4500, ShowWelcome)]
  }

  /** The whole state `t` ms after mount when the user has done nothing. */
  function IdleAt(t: nat): State {
    if t < 4500 then State(Intro, "", true, IntroPhaseAt(t), t, IntroTimersAt(t))
    else if t < 6500 then State(Welcome, "", true, 4, t, [Timer(6500, Settle)])
    else State(Welcome, "", false, 4, t, [])
  }

  /** In an idle state the first pending timer is the next to fire, and firing
      it gives the idle state at its due time. */
  lemma FireIdle(a: nat)
    requires IdleAt(a).timers != []
    ensures Earliest(IdleAt(a).timers) == 0
    ensures a < IdleAt(a).timers[0].due
    ensures Fire(IdleAt(a)) == IdleAt(IdleAt(a).timers[0].due)
  {
    if a < 3500 {
      FireIdleIntro(a);
    } else if a < 4500 {
      FireIdleFinish(a);
    } else {
      FireFirst(IdleAt(a));
    }
  }

  /** Firing one of the intro progress timers. */
  lemma FireIdleIntro(a: nat)
    requires a < 3500
    ensures Earliest(IdleAt(a).timers) == 0
    ensures a < IdleAt(a).timers[0].due
    ensures Fire(IdleAt(a)) == IdleAt(IdleAt(a).timers[0].due)
  {
    var s := IdleAt(a);
    FireFirst(s);
  }

  /** Firing the nested timeout that switches to the welcome stage. */
  lemma FireIdleFinish(a: nat)
    requires 3500 <= a < 4500
    ensures Earliest(IdleAt(a).timers) == 0
    ensures a < IdleAt(a).timers[0].due
    ensures Fire(IdleAt(a)) == IdleAt(IdleAt(a).timers[0].due)
  {
    var s := IdleAt(a);
    FireFirst(s);
    assert Clear([], Intro) == [];
  }

  /** Between two timers, an idle state only sees its clock move. */
  lemma IdleStays(a: nat, t: nat)
    requires a <= t
    requires IdleAt(a).timers == [] || t < IdleAt(a).timers[0].due
    ensures IdleAt(a).(now := t) == IdleAt(t)
  {
  }

  /** Waiting from an idle state gives the idle state at the later time. */
  lemma {:induction false} AdvanceIdle(a: nat, t: nat)
    requires a <= t
    ensures AdvanceTo(IdleAt(a), t) == IdleAt(t)
    decreases Weight(IdleAt(a).timers)
  {
    var s := IdleAt(a);
    if HasDue(s, t) {
      FireIdle(a);
      AdvanceIdle(s.timers[0].due, t);
    } else {
      if s.timers != [] {
        FireIdle(a);
      }
      IdleStays(a, t);
    }
  }

  /** Left alone from mount, the component is in the idle state of the time
      that has passed: the intro progress follows the schedule, the welcome
      stage arrives at 4500 ms and not before, and the entrance animation is
      over at 6500 ms and not before. */
  lemma IdleFromMount(t: nat)
    ensures AdvanceTo(Init(), t) == IdleAt(t)
    ensures AdvanceTo(Init(), t).introProgress == IntroPhaseAt(t)
    ensures AdvanceTo(Init(), t).stage == (if t < 4500 then Intro else Welcome)
    ensures AdvanceTo(Init(), t).isAnimating <==> t < 6500
  {
    assert Init() == IdleAt(0);
    AdvanceIdle(0, t);
  }
}
