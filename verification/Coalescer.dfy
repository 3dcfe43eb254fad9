/** The kick coalescer (internal/carrier/client.go, kick and fireCoalesceWake): the first kick of a burst
    arms a timer, later ones push it back, but never past a deadline set by the first. Timers that were
    replaced may still be armed, and a timer that fired may be reset before its goroutine gets the lock. */
module Coalescer {
  import opened Bytes

  datatype Config = Config(step: nat, max: nat)

  /** A kick nobody has been woken for, with the time of the first kick of its burst. */
  datatype Waiting = Waiting(at: nat, first: nat)

  datatype State = State(
    now: nat,
    timer: Option<nat>,          // coalesceTimer
    deadline: nat,               // coalesceDeadline
    armed: map<nat, nat>,        // every timer still to fire, and when
    nextId: nat,
    fired: nat,                  // fireCoalesceWake goroutines still to take the lock
    unlocked: nat,               // fireCoalesceWake goroutines still to broadcast
    first: nat,                  // when the burst of `timer` began
    waiting: set<Waiting>)          // kicks not followed by a broadcast yet

  datatype Event = KickNow | Pass(to: nat) | Expire(id: nat) | FireLocked | Broadcast

  const START := State(0, None, 0, map[], 0, 0, 0, 0, {})

  /** The runtime starts a timer's goroutine when the timer is due; time does not pass a due timer. */
  predicate Enabled(s: State, e: Event) {
    match e
    case KickNow => true
    case Pass(t) => t >= s.now && forall id <- s.armed :: t <= s.armed[id]
    case Expire(id) => id in s.armed && s.armed[id] <= s.now
    case FireLocked => s.fired > 0
    case Broadcast => s.unlocked > 0
  }

  /** kick() */
  function Kicked(c: Config, s: State): State {
    if c.step == 0 then s.(waiting := {})
    else if s.timer.None? then
      s.(timer := Some(s.nextId), deadline := s.now + c.max, armed := s.armed[s.nextId := s.now + c.step],
         nextId := s.nextId + 1, first := s.now, waiting := s.waiting + {Waiting(s.now, s.now)})
    else
      var fire := Min(s.now + c.step, s.deadline);
      s.(armed := if fire <= s.now then s.armed else s.armed[s.timer.value := fire],
         waiting := s.waiting + {Waiting(s.now, s.first)})
  }

  function Next(c: Config, s: State, e: Event): State
    requires Enabled(s, e)
  {
    match e
    case KickNow => Kicked(c, s)
    case Pass(t) => s.(now := t)
    case Expire(id) => s.(armed := s.armed - {id}, fired := s.fired + 1)
    case FireLocked => s.(timer := None, fired := s.fired - 1, unlocked := s.unlocked + 1)
    case Broadcast => s.(unlocked := s.unlocked - 1, waiting := {})
  }

  /** A broadcast is on its way for kick k: a goroutine is running, or the burst's own timer is armed, for no
      later than max after the burst began. */
  predicate Covered(c: Config, s: State, k: Waiting) {
    || s.fired > 0 || s.unlocked > 0
    || (s.timer.Some? && s.timer.value in s.armed && s.armed[s.timer.value] <= k.first + c.max)
  }

  ghost predicate Inv(c: Config, s: State) {
    && (forall id <- s.armed :: id < s.nextId && s.now <= s.armed[id])
    && (s.timer.Some? ==> s.timer.value < s.nextId && s.deadline == s.first + c.max && s.first <= s.now)
    && (s.timer.Some? ==> s.fired > 0 || s.timer.value in s.armed)
    && (s.timer.Some? && s.timer.value in s.armed ==> s.armed[s.timer.value] <= s.deadline)
    && (forall k <- s.waiting :: k.first <= k.at <= s.now && Covered(c, s, k))
    && (forall k <- s.waiting :: s.unlocked > 0 || (s.timer.Some? && k.first == s.first))
  }

  lemma StepInv(c: Config, s: State, e: Event)
    requires c.step <= c.max && Inv(c, s) && Enabled(s, e)
    ensures Inv(c, Next(c, s, e))
  {
  }

  function Run(c: Config, s: State, es: seq<Event>): Option<State>
    decreases |es|
  {
    if es == [] then Some(s)
    else if Enabled(s, es[0]) then Run(c, Next(c, s, es[0]), es[1..]) else None
  }

  lemma {:induction false} RunInv(c: Config, s: State, es: seq<Event>)
    requires c.step <= c.max && Inv(c, s)
    ensures Run(c, s, es).Some? ==> Inv(c, Run(c, s, es).value)
    decreases |es|
  {
    if es != [] && Enabled(s, es[0]) {
      StepInv(c, s, es[0]);
      RunInv(c, Next(c, s, es[0]), es[1..]);
    }
  }

  /** In every timed run, a kick still waiting for its broadcast has one coming: a goroutine that is
      already running, or the armed timer of its burst, which fires at most max after the burst began.
      Once that time is past, only a running goroutine is left to wait for. */
  lemma KicksAreNotLost(c: Config, es: seq<Event>)
    requires c.step <= c.max && Run(c, START, es).Some?
    ensures var s := Run(c, START, es).value;
            forall k <- s.waiting :: Covered(c, s, k) && (s.now > k.first + c.max ==> s.fired > 0 || s.unlocked > 0)
  {
    RunInv(c, START, es);
  }

  /** The timer of the current burst never stands past the burst's deadline. */
  lemma NeverPastDeadline(c: Config, es: seq<Event>)
    requires c.step <= c.max && Run(c, START, es).Some?
    ensures var s := Run(c, START, es).value;
            s.timer.Some? && s.timer.value in s.armed ==> s.armed[s.timer.value] <= s.deadline
  {
    RunInv(c, START, es);
  }

  /** In every timed run the burst's timer keeps to its deadline, and every waiting kick has a broadcast coming. */
  ghost predicate Timely(c: Config) {
    forall es: seq<Event> :: Run(c, START, es).Some? ==>
      var s := Run(c, START, es).value;
      && (s.timer.Some? && s.timer.value in s.armed ==> s.armed[s.timer.value] <= s.deadline)
      && forall k <- s.waiting :: Covered(c, s, k)
  }

  /** The condition on the configuration is exact: where step exceeds max, one kick is already late. */
  lemma TimelyIff(c: Config)
    ensures Timely(c) <==> c.step <= c.max
  {
    if c.step <= c.max {
      forall es: seq<Event> | Run(c, START, es).Some?
        ensures var s := Run(c, START, es).value;
                && (s.timer.Some? && s.timer.value in s.armed ==> s.armed[s.timer.value] <= s.deadline)
                && forall k <- s.waiting :: Covered(c, s, k)
      {
        KicksAreNotLost(c, es);
        NeverPastDeadline(c, es);
      }
    } else {
      var es := [KickNow];
      RunStep(c, START, KickNow, []);
      assert Run(c, START, es) == Some(Next(c, START, KickNow));
    }
  }

  /** What the configuration loader hands over. */
  function Loaded(stepMs: nat): Config {
    Config(stepMs * 1_000_000, stepMs * 25 * 1_000_000)
  }

  lemma LoadedIsTimely(stepMs: nat)
    ensures Timely(Loaded(stepMs))
  {
    TimelyIff(Loaded(stepMs));
  }

  /** A timer that fired can be reset before its goroutine runs; it then fires again in a later burst, and
      can wake that burst before its own timer does. */
  lemma ResetRacesFire(c: Config)
    requires 0 < c.step && 2 * c.step < c.max
    ensures var es := [KickNow, Pass(c.step), Expire(0), KickNow, FireLocked, Broadcast, KickNow, Pass(2 * c.step),
              Expire(0)];
            var r := Run(c, START, es);
            r.Some? && r.value.timer == Some(1) && 1 in r.value.armed && r.value.fired == 1
            && r.value.waiting == {Waiting(c.step, c.step)}
  {
    var s1 := Next(c, START, KickNow);
    var s2 := Next(c, s1, Pass(c.step));
    var s3 := Next(c, s2, Expire(0));
    var s4 := Next(c, s3, KickNow);
    var s5 := Next(c, s4, FireLocked);
    var s6 := Next(c, s5, Broadcast);
    var s7 := Next(c, s6, KickNow);
    var s8 := Next(c, s7, Pass(2 * c.step));
    var s9 := Next(c, s8, Expire(0));
    RunStep(c, s8, Expire(0), []);
    RunStep(c, s7, Pass(2 * c.step), [Expire(0)]);
    RunStep(c, s6, KickNow, [Pass(2 * c.step), Expire(0)]);
    RunStep(c, s5, Broadcast, [KickNow, Pass(2 * c.step), Expire(0)]);
    RunStep(c, s4, FireLocked, [Broadcast, KickNow, Pass(2 * c.step), Expire(0)]);
    RunStep(c, s3, KickNow, [FireLocked, Broadcast, KickNow, Pass(2 * c.step), Expire(0)]);
    RunStep(c, s2, Expire(0), [KickNow, FireLocked, Broadcast, KickNow, Pass(2 * c.step), Expire(0)]);
    RunStep(c, s1, Pass(c.step), [Expire(0), KickNow, FireLocked, Broadcast, KickNow, Pass(2 * c.step), Expire(0)]);
    RunStep(c, START, KickNow, [Pass(c.step), Expire(0), KickNow, FireLocked, Broadcast, KickNow, Pass(2 * c.step),
        Expire(0)]);
  }

  lemma RunStep(c: Config, s: State, e: Event, rest: seq<Event>)
    requires Enabled(s, e)
    ensures Run(c, s, [e] + rest) == Run(c, Next(c, s, e), rest)
  {
    assert ([e] + rest)[1..] == rest;
  }

  /** The fields of the client, and the timers and goroutines of the runtime they stand for. */
  class Kicker {
    const config: Config
    var coalesceTimer: Option<nat>
    var coalesceDeadline: nat
    var now: nat
    var armed: map<nat, nat>
    var nextId: nat
    ghost var fired: nat
    ghost var unlocked: nat
    ghost var first: nat
    ghost var waiting: set<Waiting>

    ghost function Now(): State
      reads this
    {
      State(now, coalesceTimer, coalesceDeadline, armed, nextId, fired, unlocked, first, waiting)
    }

    constructor (config: Config)
      ensures this.config == config && Now() == START
    {
      this.config := config;
      coalesceTimer, coalesceDeadline, now, armed, nextId := None, 0, 0, map[], 0;
      fired, unlocked, first, waiting := 0, 0, 0, {};
    }

    method Kick()
      modifies this
      ensures Now() == Next(config, old(Now()), KickNow)
    {
      if config.step <= 0 {
        waiting := {};
        return;
      }
      if coalesceTimer.None? {
        coalesceDeadline := now + config.max;
        armed := armed[nextId := now + config.step];
        coalesceTimer := Some(nextId);
        nextId := nextId + 1;
        first := now;
        waiting := waiting + {Waiting(now, now)};
        return;
      }
      waiting := waiting + {Waiting(now, first)};
      var nextFire := now + config.step;
      if nextFire > coalesceDeadline {
        nextFire := coalesceDeadline;
      }
      var wait := nextFire - now;
      if wait <= 0 {
        return;
      }
      armed := armed[coalesceTimer.value := now + wait];
    }

    /** fireCoalesceWake, under the lock; the broadcast comes after it. */
    method FireCoalesceWake()
      requires fired > 0
      modifies this
      ensures Now() == Next(config, old(Now()), FireLocked)
    {
      coalesceTimer := None;
      fired := fired - 1;
      unlocked := unlocked + 1;
    }
  }
}
