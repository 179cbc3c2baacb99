/** The timed interpolation routine of src/helper/Coroutine.js.

    The original is a generator: every `next()` samples `Date.now()`, calls
    `action(easing(progress))` and suspends, until the end time has passed;
    it then calls `action(easing(1))`, the callback, and returns. Here the
    generator's suspended state is the explicit `Phase`, the clock sample is
    the parameter `now` of each resume, and what the generator calls is
    reported as a list of `Event`s, which the owner of the routine applies in
    that order. */
module Coroutine {
  import opened Easing

  /** `Coroutine.lerp(a, b, t) = a * (1 - t) + b * t`. */
  function Lerp(a: real, b: real, t: real): (r: real)
    ensures t == 0.0 ==> r == a
    ensures t == 1.0 ==> r == b
    ensures a == b ==> r == a
  {
    a * (1.0 - t) + b * t
  }

  /** An eased value beyond 1 carries the interpolation past its target. */
  lemma LerpBeyondTarget(a: real, b: real, t: real)
    requires a < b && t > 1.0
    ensures Lerp(a, b, t) > b
  {
    assert Lerp(a, b, t) == b + (b - a) * (t - 1.0);
    MulPositive(b - a, t - 1.0);
  }

  /** The third argument of `routine`: a function, or anything else, which
      the routine then takes as its duration. */
  datatype CallbackArg = Function | NotAFunction(value: real)

  /** What a routine does once it has been set up. */
  datatype Config = Config(curve: Curve, duration: real, hasCallback: bool)

  /** Where the generator is suspended. */
  datatype Phase = NotStarted | Running(start: real, end: real) | Done

  /** What one resume calls: `action(v)` or the callback. */
  datatype Event = Action(value: real) | Callback

  /** The argument-shuffling at the top of `routine`. */
  function Configure(curve: Curve, callback: CallbackArg, duration: real): (cfg: Config)
    ensures cfg.curve == curve
    ensures cfg.hasCallback <==> callback.Function?
    ensures cfg.duration == if callback.Function? then duration else callback.value
  {
    match callback
    case Function => Config(curve, duration, true)
    case NotAFunction(d) => Config(curve, d, false)
  }

  /** How far through its duration the routine is at `now`. */
  function Progress(start: real, duration: real, now: real): (f: real)
    requires duration > 0.0
    ensures start <= now < start + duration ==> 0.0 <= f < 1.0
    ensures now == start ==> f == 0.0
  {
    if start <= now < start + duration then QuotientBelowOne(now - start, duration); (now - start) / duration
    else (now - start) / duration
  }

  lemma QuotientBelowOne(x: real, d: real)
    requires 0.0 <= x < d
    ensures 0.0 <= x / d < 1.0
  {
    assert (x / d) * d == x;
  }

  /** The calls of the last resume: `action(easing(1))`, then the callback
      when there is one. */
  function Finale(cfg: Config): (fs: seq<Event>)
    ensures |fs| >= 1 && fs[0] == Action(Apply(cfg.curve, 1.0))
    ensures cfg.hasCallback <==> Callback in fs
    ensures cfg.hasCallback ==> fs[|fs| - 1] == Callback
  {
    [Action(Apply(cfg.curve, 1.0))] + if cfg.hasCallback then [Callback] else []
  }

  /** One `next()` of the generator at clock value `now`: the new phase and
      the calls made. */
  function Step(cfg: Config, phase: Phase, now: real): (r: (Phase, seq<Event>))
    ensures phase.Done? ==> r == (Done, [])
    ensures phase.NotStarted? && cfg.duration > 0.0 ==>
              r == (Running(now, now + cfg.duration), [Action(Apply(cfg.curve, 0.0))])
    ensures phase.NotStarted? && cfg.duration <= 0.0 ==> r == (Done, Finale(cfg))
    ensures phase.Running? && now >= phase.end ==> r == (Done, Finale(cfg))
    ensures phase.Running? && now < phase.end && cfg.duration > 0.0 ==>
              r == (phase, [Action(Apply(cfg.curve, Progress(phase.start, cfg.duration, now)))])
    ensures !r.0.Done? ==> Callback !in r.1
    ensures |r.1| <= 2 && (r.1 != [] ==> r.1[0].Action?)
    ensures Callback in r.1 <==> |r.1| == 2
    ensures |r.1| == 2 ==> r.1 == [Action(1.0), Callback]
  {
    match phase
    case NotStarted =>
      // startTime := now; the loop runs while time < startTime + duration
      if now < now + cfg.duration then (Running(now, now + cfg.duration), [Action(Apply(cfg.curve, 0.0))])
      else (Done, Finale(cfg))
    case Running(start, end) =>
      if now < end && cfg.duration > 0.0 then (phase, [Action(Apply(cfg.curve, Progress(start, cfg.duration, now)))])
      else (Done, Finale(cfg))
    case Done => (Done, [])
  }

  /** The phase and every call made after resuming a fresh routine once at
      each time of `clock`, in order. */
  function Run(cfg: Config, clock: seq<real>): (r: (Phase, seq<Event>))
    decreases |clock|
  {
    if clock == [] then (NotStarted, [])
    else
      var prev := Run(cfg, clock[..|clock| - 1]);
      var next := Step(cfg, prev.0, clock[|clock| - 1]);
      (next.0, prev.1 + next.1)
  }

  function CallbackCount(es: seq<Event>): (n: nat)
    ensures n <= |es|
    ensures n == 0 <==> Callback !in es
  {
    if es == [] then 0
    else (if es[|es| - 1] == Callback then 1 else 0) + CallbackCount(es[..|es| - 1])
  }

  lemma {:induction false} CallbackCountAppend(a: seq<Event>, b: seq<Event>)
    ensures CallbackCount(a + b) == CallbackCount(a) + CallbackCount(b)
    decreases |b|
  {
    if b == [] {
      assert a + b == a;
    } else {
      assert (a + b)[..|a + b| - 1] == a + b[..|b| - 1];
      CallbackCountAppend(a, b[..|b| - 1]);
    }
  }

  /** What the calls made so far look like in each phase. */
  ghost predicate Consistent(cfg: Config, phase: Phase, trace: seq<Event>)
  {
    match phase
    case NotStarted => trace == []
    case Running(start, end) =>
      && cfg.duration > 0.0 && end == start + cfg.duration
      && |trace| >= 1 && trace[0] == Action(Apply(cfg.curve, 0.0))
      && Callback !in trace
    case Done =>
      var n := |Finale(cfg)|;
      && |trace| >= n
      && trace[|trace| - n..] == Finale(cfg)
      && Callback !in trace[..|trace| - n]
  }

  lemma {:induction false} RunConsistent(cfg: Config, clock: seq<real>)
    ensures Consistent(cfg, Run(cfg, clock).0, Run(cfg, clock).1)
    decreases |clock|
  {
    if clock != [] {
      var before := clock[..|clock| - 1];
      RunConsistent(cfg, before);
      var prev := Run(cfg, before);
      var next := Step(cfg, prev.0, clock[|clock| - 1]);
      var trace := prev.1 + next.1;
      assert Run(cfg, clock) == (next.0, trace);
      if next.0.Done? && !prev.0.Done? {
        var n := |Finale(cfg)|;
        assert trace[|trace| - n..] == Finale(cfg);
        assert trace[..|trace| - n] == prev.1;
      } else if next.0.Done? {
        assert trace == prev.1;
      }
    }
  }

  /** However the routine is resumed, the callback fires at most once, only
      when the routine is done and it has a callback, as the very last call,
      right after `action(easing(1))`; and a finished routine has made that
      final call. */
  lemma CallbackOnceAfterFinalAction(cfg: Config, clock: seq<real>)
    ensures var (phase, trace) := Run(cfg, clock);
      && CallbackCount(trace) == (if phase.Done? && cfg.hasCallback then 1 else 0)
      && (phase.Done? ==> |trace| >= 1)
      && (phase.Done? && !cfg.hasCallback ==> trace[|trace| - 1] == Action(Apply(cfg.curve, 1.0)))
      && (phase.Done? && cfg.hasCallback ==>
            |trace| >= 2 && trace[|trace| - 1] == Callback
            && trace[|trace| - 2] == Action(Apply(cfg.curve, 1.0)))
  {
    RunConsistent(cfg, clock);
    var (phase, trace) := Run(cfg, clock);
    if phase.Done? {
      var n := |Finale(cfg)|;
      assert trace == trace[..|trace| - n] + Finale(cfg);
      CallbackCountAppend(trace[..|trace| - n], Finale(cfg));
      if cfg.hasCallback {
        assert Finale(cfg) == [Action(Apply(cfg.curve, 1.0)), Callback];
        assert CallbackCount(Finale(cfg)) == 1;
      }
    }
  }

  /** A resumed generator object. `trace` holds every call it has made, in
      order; the ghost `clock` the times at which it was resumed. */
  class Routine {
    const cfg: Config
    var phase: Phase
    var trace: seq<Event>
    ghost var clock: seq<real>

    ghost predicate Valid()
      reads this
    {
      Run(cfg, clock) == (phase, trace)
    }

    /** `Coroutine.routine(action, easing, callback, duration)`: creating the
        generator runs nothing. */
    constructor (curve: Curve, callback: CallbackArg, duration: real)
      ensures Valid()
      ensures cfg == Configure(curve, callback, duration)
      ensures phase == NotStarted && trace == [] && clock == []
    {
      cfg := Configure(curve, callback, duration);
      phase := NotStarted;
      trace := [];
      clock := [];
    }

    /** `next()` with the clock reading `now`; `fired` are the calls it made. */
    method Resume(now: real) returns (fired: seq<Event>)
      requires Valid()
      modifies this
      ensures Valid()
      ensures (phase, fired) == Step(cfg, old(phase), now)
      ensures trace == old(trace) + fired
      ensures clock == old(clock) + [now]
    {
      var next := Step(cfg, phase, now);
      phase, fired := next.0, next.1;
      trace := trace + fired;
      clock := clock + [now];
      assert clock[..|clock| - 1] == old(clock);
    }
  }
}
