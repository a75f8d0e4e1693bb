/**
 The panning-gain state machine of one audio object, sample by sample: the reference that the
 block-wise component refines, and what holds over all its runs.
 */
module PanningModel {

  /** cTimeStampInfinity */
  const INFINITY: nat := 0xFFFF_FFFF_FFFF_FFFF

  type Gains = seq<real>

  datatype Obj = Obj(previousTime: nat, targetTime: nat, previousGains: Gains, targetGains: Gains,
                     pendingStart: nat, pendingDuration: nat, pendingGains: Gains)

  /** interpolationRatio */
  function InterpolationRatio(currentTime: nat, previousTime: nat, targetTime: nat): real
    requires previousTime < targetTime
  {
    if targetTime == INFINITY then 0.0
    else ((currentTime - previousTime) as real) / ((targetTime - previousTime) as real)
  }

  /** gainIncRatio */
  function GainIncRatio(previousTime: nat, targetTime: nat): real
    requires previousTime < targetTime
  {
    if targetTime == INFINITY then 0.0 else 1.0 / ((targetTime - previousTime) as real)
  }

  /** Linear interpolation between two gain rows. */
  function Mix(alpha: real, from: Gains, to: Gains): (r: Gains)
    requires |from| == |to|
    ensures |r| == |from| && forall l :: 0 <= l < |r| ==> r[l] == alpha * to[l] + (1.0 - alpha) * from[l]
  {
    seq(|from|, l requires 0 <= l < |from| => alpha * to[l] + (1.0 - alpha) * from[l])
  }

  /** What the assertions of the processing loop state, with the pending start as the last bound,
      and what makes an unbounded slope flat. */
  ghost predicate Inv(s: Obj, now: nat, speakers: nat) {
    && s.previousTime <= now < s.targetTime <= s.pendingStart <= INFINITY
    && |s.previousGains| == |s.targetGains| == |s.pendingGains| == speakers
    && (s.targetTime == INFINITY ==> s.previousGains == s.targetGains)
    && (s.pendingStart < INFINITY ==> s.pendingStart + s.pendingDuration < INFINITY)
  }

  /** The gain the slope gives sample t: the end of the slope is reached on its last sample. */
  function Applied(s: Obj, l: nat, t: nat): real
    requires s.previousTime <= t < s.targetTime && l < |s.previousGains| == |s.targetGains|
  {
    if s.targetTime == INFINITY then
      s.previousGains[l]
    else
      var ratio := ((t + 1 - s.previousTime) as real) / ((s.targetTime - s.previousTime) as real);
      s.previousGains[l] + ratio * (s.targetGains[l] - s.previousGains[l])
  }

  /** What happens when the target time is reached: the pending transition starts, or the gains
      are held until it does. */
  function Switch(s: Obj, now: nat): Obj {
    if s.pendingStart == now then
      if s.pendingDuration == 0 then
        Obj(now, INFINITY, s.pendingGains, s.pendingGains, INFINITY, INFINITY, s.pendingGains)
      else
        Obj(now, now + s.pendingDuration, s.targetGains, s.pendingGains, INFINITY, INFINITY, s.pendingGains)
    else
      s.(previousTime := now, targetTime := s.pendingStart, previousGains := s.targetGains)
  }

  /** The state after sample t was processed. */
  function Next(s: Obj, t: nat): Obj {
    if t + 1 == s.targetTime then Switch(s, t + 1) else s
  }

  /** The state after n samples from time now on. */
  function Iter(s: Obj, now: nat, n: nat): Obj {
    if n == 0 then s else Next(Iter(s, now, n - 1), now + n - 1)
  }

  /** updateTransition */
  function Message(s: Obj, now: nat, start: nat, duration: nat, gains: Gains): Obj
    requires s.previousTime <= now < s.targetTime
    requires |s.previousGains| == |s.targetGains|
  {
    if start == INFINITY || start < now then s
    else if start == now then
      if duration == 0 then
        Obj(now, INFINITY, gains, gains, INFINITY, INFINITY, gains)
      else
        var alpha := InterpolationRatio(now, now, s.targetTime);
        Obj(now, now + duration, Mix(alpha, s.previousGains, s.targetGains), gains, INFINITY, INFINITY, gains)
    else
      var s' := if start < s.targetTime
                then s.(targetGains :=
                        Mix(InterpolationRatio(now, s.previousTime, s.targetTime), s.previousGains, s.targetGains),
                        targetTime := start)
                else s;
      s'.(pendingStart := start, pendingDuration := duration, pendingGains := gains)
  }

  lemma MixEqual(alpha: real, g: Gains)
    ensures Mix(alpha, g, g) == g
  {
    forall l | 0 <= l < |g| ensures Mix(alpha, g, g)[l] == g[l] {
      assert alpha * g[l] + (1.0 - alpha) * g[l] == g[l];
    }
  }

  lemma MixZero(from: Gains, to: Gains)
    requires |from| == |to|
    ensures Mix(0.0, from, to) == from
  {}

  // ---- the invariant over every run ----

  lemma NextKeepsInv(s: Obj, t: nat, speakers: nat)
    requires Inv(s, t, speakers) && t + 1 < INFINITY
    ensures Inv(Next(s, t), t + 1, speakers)
  {}

  /** Every message, whenever it comes and whatever it asks for, keeps the invariant. */
  lemma MessageKeepsInv(s: Obj, now: nat, start: nat, duration: nat, gains: Gains, speakers: nat)
    requires Inv(s, now, speakers) && |gains| == speakers
    requires start <= INFINITY && (start < INFINITY ==> start + duration < INFINITY)
    ensures Inv(Message(s, now, start, duration, gains), now, speakers)
  {}

  lemma {:induction false} IterKeepsInv(s: Obj, now: nat, n: nat, speakers: nat)
    requires Inv(s, now, speakers) && now + n < INFINITY
    ensures Inv(Iter(s, now, n), now + n, speakers)
  {
    if n > 0 {
      IterKeepsInv(s, now, n - 1, speakers);
      NextKeepsInv(Iter(s, now, n - 1), now + n - 1, speakers);
    }
  }

  /** Cutting a stretch of samples in two changes nothing. */
  lemma {:induction false} IterSplit(s: Obj, now: nat, a: nat, b: nat)
    ensures Iter(s, now, a + b) == Iter(Iter(s, now, a), now + a, b)
  {
    if b > 0 { IterSplit(s, now, a, b - 1); }
  }

  // Before the target time nothing changes.
  lemma {:induction false} IterWithinSlope(s: Obj, now: nat, n: nat)
    requires now + n < s.targetTime || n == 0
    ensures Iter(s, now, n) == s
  {
    if n > 0 { IterWithinSlope(s, now, n - 1); }
  }

  lemma IterToTarget(s: Obj, now: nat, n: nat)
    requires n > 0 && now + n == s.targetTime
    ensures Iter(s, now, n) == Switch(s, now + n)
  {
    IterWithinSlope(s, now, n - 1);
  }

  /** Total length of a list of blocks. */
  function Total(blocks: seq<nat>): nat {
    if blocks == [] then 0 else Total(blocks[..|blocks| - 1]) + blocks[|blocks| - 1]
  }

  /** Processing block after block. */
  function Blocks(s: Obj, now: nat, blocks: seq<nat>): Obj {
    if blocks == [] then s
    else
      var init := blocks[..|blocks| - 1];
      Iter(Blocks(s, now, init), now + Total(init), blocks[|blocks| - 1])
  }

  /** The state that sample t meets when the time from now on is processed block by block. */
  function StateAt(s: Obj, now: nat, blocks: seq<nat>, t: nat): Obj
    requires now <= t
  {
    if blocks == [] then s
    else
      var init := blocks[..|blocks| - 1];
      var start := now + Total(init);
      if t < start then StateAt(s, now, init, t) else Iter(Blocks(s, now, init), start, t - start)
  }

  lemma {:induction false} BlocksAreIter(s: Obj, now: nat, blocks: seq<nat>)
    ensures Blocks(s, now, blocks) == Iter(s, now, Total(blocks))
  {
    if blocks != [] {
      var init, n := blocks[..|blocks| - 1], blocks[|blocks| - 1];
      BlocksAreIter(s, now, init);
      IterSplit(s, now, Total(init), n);
    }
  }

  /** Block-size independence: however the time is cut into blocks, every sample meets the state,
      and so gets the gain, that it would have uncut. */
  lemma {:induction false} BlockSizeIndependence(s: Obj, now: nat, blocks: seq<nat>, t: nat)
    requires now <= t <= now + Total(blocks)
    ensures StateAt(s, now, blocks, t) == Iter(s, now, t - now)
    ensures Blocks(s, now, blocks) == Iter(s, now, Total(blocks))
    decreases |blocks|
  {
    BlocksAreIter(s, now, blocks);
    if blocks != [] {
      var init := blocks[..|blocks| - 1];
      var start := now + Total(init);
      if t < start {
        BlockSizeIndependence(s, now, init, t);
      } else {
        BlocksAreIter(s, now, init);
        IterSplit(s, now, Total(init), t - start);
      }
    }
  }

  // ---- convex hull ----

  ghost predicate InHull(g: Gains, lo: real, hi: real) {
    forall l :: 0 <= l < |g| ==> lo <= g[l] <= hi
  }

  ghost predicate HullInv(s: Obj, lo: real, hi: real) {
    InHull(s.previousGains, lo, hi) && InHull(s.targetGains, lo, hi)
      && (s.pendingStart < INFINITY ==> InHull(s.pendingGains, lo, hi))
  }

  lemma Between(alpha: real, a: real, b: real, lo: real, hi: real)
    requires 0.0 <= alpha <= 1.0 && lo <= a <= hi && lo <= b <= hi
    ensures lo <= a + alpha * (b - a) <= hi
    ensures alpha * b + (1.0 - alpha) * a == a + alpha * (b - a)
  {
    NonNegativeProduct(alpha, b - lo);
    NonNegativeProduct(1.0 - alpha, a - lo);
    NonNegativeProduct(alpha, hi - b);
    NonNegativeProduct(1.0 - alpha, hi - a);
  }

  lemma NonNegativeProduct(x: real, y: real)
    requires x >= 0.0 && y >= 0.0
    ensures x * y >= 0.0
  {}

  lemma SignOfFactor(x: real, b: real)
    requires b > 0.0 && x * b >= 0.0
    ensures x >= 0.0
  {}

  lemma RatioInUnit(a: int, b: int)
    requires 0 <= a <= b && 0 < b
    ensures 0.0 <= (a as real) / (b as real) <= 1.0
  {
    var q := (a as real) / (b as real);
    assert q * (b as real) == a as real;
    SignOfFactor(q, b as real);
    SignOfFactor(1.0 - q, b as real);
  }

  lemma MixInHull(alpha: real, from: Gains, to: Gains, lo: real, hi: real)
    requires 0.0 <= alpha <= 1.0 && |from| == |to| && InHull(from, lo, hi) && InHull(to, lo, hi)
    ensures InHull(Mix(alpha, from, to), lo, hi)
  {
    forall l | 0 <= l < |from| ensures lo <= Mix(alpha, from, to)[l] <= hi {
      Between(alpha, from[l], to[l], lo, hi);
    }
  }

  /** Every gain that is ever applied lies in the hull of the gains asked for. */
  lemma AppliedInHull(s: Obj, t: nat, l: nat, speakers: nat, lo: real, hi: real)
    requires Inv(s, t, speakers) && HullInv(s, lo, hi) && l < speakers
    ensures lo <= Applied(s, l, t) <= hi
  {
    if s.targetTime != INFINITY {
      RatioInUnit(t + 1 - s.previousTime, s.targetTime - s.previousTime);
      var alpha := ((t + 1 - s.previousTime) as real) / ((s.targetTime - s.previousTime) as real);
      Between(alpha, s.previousGains[l], s.targetGains[l], lo, hi);
    }
  }

  lemma MessageKeepsHull(s: Obj, now: nat, start: nat, duration: nat, gains: Gains, speakers: nat, lo: real, hi: real)
    requires Inv(s, now, speakers) && HullInv(s, lo, hi) && |gains| == speakers && InHull(gains, lo, hi)
    ensures HullInv(Message(s, now, start, duration, gains), lo, hi)
  {
    hide Mix;
    if start == now {
      MixZero(s.previousGains, s.targetGains);
      RestartRatio(now, s.targetTime);
    } else if s.targetTime != INFINITY {
      RatioInUnit(now - s.previousTime, s.targetTime - s.previousTime);
      MixInHull(InterpolationRatio(now, s.previousTime, s.targetTime), s.previousGains, s.targetGains, lo, hi);
    } else {
      MixZero(s.previousGains, s.targetGains);
    }
  }

  lemma RestartRatio(now: nat, targetTime: nat)
    requires now < targetTime
    ensures InterpolationRatio(now, now, targetTime) == 0.0
  {
    var b := (targetTime - now) as real;
    assert 0.0 / b == 0.0;
  }

  // ---- runs of messages and samples ----

  datatype Event = Sample | Msg(start: nat, duration: nat, gains: Gains)

  ghost predicate LegalEvent(e: Event, speakers: nat) {
    e.Msg? ==> |e.gains| == speakers && e.start <= INFINITY && (e.start < INFINITY ==> e.start + e.duration < INFINITY)
  }

  /** Samples among the events, hence the time reached. */
  function Clock(now: nat, evs: seq<Event>): nat {
    if evs == [] then now else Clock(now, evs[..|evs| - 1]) + if evs[|evs| - 1].Sample? then 1 else 0
  }

  ghost predicate LegalRun(evs: seq<Event>, now: nat, speakers: nat) {
    (forall i :: 0 <= i < |evs| ==> LegalEvent(evs[i], speakers)) && Clock(now, evs) < INFINITY
  }

  ghost function RunObj(s: Obj, now: nat, evs: seq<Event>, speakers: nat): (r: Obj)
    requires Inv(s, now, speakers) && LegalRun(evs, now, speakers)
    ensures Inv(r, Clock(now, evs), speakers)
  {
    if evs == [] then s
    else
      var init, e := evs[..|evs| - 1], evs[|evs| - 1];
      var p, t := RunObj(s, now, init, speakers), Clock(now, init);
      match e
      case Sample => NextKeepsInv(p, t, speakers); Next(p, t)
      case Msg(start, d, g) => MessageKeepsInv(p, t, start, d, g, speakers); Message(p, t, start, d, g)
  }

  /** Runs compose, so a run over many blocks is one run. */
  lemma {:induction false} RunAppend(s: Obj, now: nat, a: seq<Event>, b: seq<Event>, speakers: nat)
    requires Inv(s, now, speakers) && LegalRun(a, now, speakers) && LegalRun(b, Clock(now, a), speakers)
    ensures Clock(now, a + b) == Clock(Clock(now, a), b) && LegalRun(a + b, now, speakers)
    ensures RunObj(s, now, a + b, speakers) == RunObj(RunObj(s, now, a, speakers), Clock(now, a), b, speakers)
    decreases |b|
  {
    hide Message, Next, Inv, LegalEvent;
    if b == [] {
      assert a + b == a;
    } else {
      var init := b[..|b| - 1];
      assert (a + b)[..|a + b| - 1] == a + init;
      RunAppend(s, now, a, init, speakers);
    }
  }

  /** Safety over whole runs: whatever messages arrive, also in the middle of a transition, no
      applied gain ever leaves the range the initial and requested gains span. */
  lemma {:induction false} RunStaysInHull(s: Obj, now: nat, evs: seq<Event>, speakers: nat, lo: real, hi: real)
    requires Inv(s, now, speakers) && LegalRun(evs, now, speakers) && HullInv(s, lo, hi)
    requires forall i :: 0 <= i < |evs| && evs[i].Msg? ==> InHull(evs[i].gains, lo, hi)
    ensures HullInv(RunObj(s, now, evs, speakers), lo, hi)
    ensures forall l :: 0 <= l < speakers ==> lo <= Applied(RunObj(s, now, evs, speakers), l, Clock(now, evs)) <= hi
    decreases |evs|
  {
    hide Message, Applied, InHull;
    if evs != [] {
      var init, e := evs[..|evs| - 1], evs[|evs| - 1];
      RunStaysInHull(s, now, init, speakers, lo, hi);
      if e.Msg? {
        MessageKeepsHull(RunObj(s, now, init, speakers), Clock(now, init), e.start, e.duration, e.gains, speakers,
                         lo, hi);
      }
    }
    var r, t := RunObj(s, now, evs, speakers), Clock(now, evs);
    forall l | 0 <= l < speakers ensures lo <= Applied(r, l, t) <= hi {
      AppliedInHull(r, t, l, speakers, lo, hi);
    }
  }

  // ---- the trajectory a caller asks for ----

  /** Hold `from` until `start`, move linearly for `duration` samples, stay at `to`. */
  datatype Plan = Plan(from: Gains, start: nat, duration: nat, to: Gains)

  function PlanGain(p: Plan, l: nat, t: nat): real
    requires l < |p.from| == |p.to|
  {
    if t < p.start then
      p.from[l]
    else if t < p.start + p.duration then
      p.from[l] + ((t + 1 - p.start) as real) / (p.duration as real) * (p.to[l] - p.from[l])
    else
      p.to[l]
  }

  /** The state an object is in at time now if it follows a plan. */
  ghost predicate Follows(s: Obj, p: Plan, now: nat, speakers: nat) {
    && Inv(s, now, speakers)
    && |p.from| == |p.to| == speakers && p.start + p.duration < INFINITY
    && if now < p.start then
         && s.previousGains == s.targetGains == p.from
         && s.pendingStart == p.start && s.pendingDuration == p.duration && s.pendingGains == p.to
       else if now < p.start + p.duration then
         && s.previousTime == p.start && s.targetTime == p.start + p.duration
         && s.previousGains == p.from && s.targetGains == p.to
         && s.pendingStart == INFINITY
       else
         s.previousGains == s.targetGains == p.to && s.pendingStart == INFINITY
  }

  lemma FlatSlope(s: Obj, l: nat, t: nat)
    requires s.previousTime <= t < s.targetTime && l < |s.previousGains| && s.previousGains == s.targetGains
    ensures Applied(s, l, t) == s.previousGains[l]
  {
    if s.targetTime != INFINITY {
      var q := ((t + 1 - s.previousTime) as real) / ((s.targetTime - s.previousTime) as real);
      assert q * 0.0 == 0.0;
    }
  }

  /** An object that follows a plan gets the plan's gains, and keeps following it. */
  lemma FollowingGives(s: Obj, p: Plan, now: nat, speakers: nat, l: nat)
    requires Follows(s, p, now, speakers) && l < speakers
    ensures Applied(s, l, now) == PlanGain(p, l, now)
  {
    if !(p.start <= now < p.start + p.duration) { FlatSlope(s, l, now); }
  }

  lemma FollowingStays(s: Obj, p: Plan, now: nat, speakers: nat)
    requires Follows(s, p, now, speakers) && now + 1 < INFINITY
    ensures Follows(Next(s, now), p, now + 1, speakers)
  {
    NextKeepsInv(s, now, speakers);
  }

  /** The plan after a message: gone or ignored messages change nothing, any other replaces what
      had not started yet and departs from the gains held now. */
  function Replan(p: Plan, now: nat, start: nat, duration: nat, gains: Gains): Plan {
    if start == INFINITY || start < now then p
    else Plan(if now < p.start then p.from else p.to, start, duration, gains)
  }

  /** A message that finds the gains constant makes the object follow the new plan. */
  lemma MessageStartsPlan(s: Obj, p: Plan, now: nat, start: nat, duration: nat, gains: Gains, speakers: nat)
    requires Follows(s, p, now, speakers) && |gains| == speakers
    requires start <= INFINITY && (start < INFINITY ==> start + duration < INFINITY)
    requires s.previousGains == s.targetGains
    ensures Follows(Message(s, now, start, duration, gains), Replan(p, now, start, duration, gains), now, speakers)
  {
    hide Mix;
    MessageKeepsInv(s, now, start, duration, gains, speakers);
    if start != INFINITY && start >= now {
      MixEqual(InterpolationRatio(now, now, s.targetTime), s.previousGains);
      MixEqual(InterpolationRatio(now, s.previousTime, s.targetTime), s.previousGains);
    }
  }

  function RunPlan(p: Plan, now: nat, evs: seq<Event>): Plan {
    if evs == [] then p
    else
      var init, e := evs[..|evs| - 1], evs[|evs| - 1];
      var q := RunPlan(p, now, init);
      match e
      case Sample => q
      case Msg(start, d, g) => Replan(q, Clock(now, init), start, d, g)
  }

  /** The plan holds its gains constant at time now. */
  predicate Holds(p: Plan, now: nat) {
    now < p.start || p.start + p.duration <= now || p.from == p.to
  }

  /** An object's gains are constant exactly when its plan holds them. */
  lemma ConstantIffHolds(s: Obj, p: Plan, now: nat, speakers: nat)
    requires Follows(s, p, now, speakers)
    ensures s.previousGains == s.targetGains <==> Holds(p, now)
  {}

  /** What a sender can check from its messages alone: each one comes while the plan of the
      earlier ones holds its gains, unless it is ignored anyway. */
  predicate WhileHolding(p: Plan, now: nat, evs: seq<Event>) {
    evs == [] ||
    var init, e := evs[..|evs| - 1], evs[|evs| - 1];
    var t := Clock(now, init);
    && WhileHolding(p, now, init)
    && (e.Msg? && t <= e.start != INFINITY ==> Holds(RunPlan(p, now, init), t))
  }

  lemma FollowingBounds(s: Obj, p: Plan, now: nat, speakers: nat)
    requires Follows(s, p, now, speakers)
    ensures Inv(s, now, speakers) && |p.from| == |p.to| == speakers
    ensures s.previousTime <= now < s.targetTime && |s.previousGains| == |s.targetGains| == speakers
  {}

  // One event of such a run.
  lemma StepOnPlan(s: Obj, p: Plan, t: nat, e: Event, speakers: nat)
    requires Follows(s, p, t, speakers) && LegalEvent(e, speakers)
    requires e.Sample? ==> t + 1 < INFINITY
    requires e.Msg? && t <= e.start != INFINITY ==> Holds(p, t)
    ensures Inv(s, t, speakers) && s.previousTime <= t < s.targetTime && |s.previousGains| == |s.targetGains|
    ensures e.Sample? ==> Follows(Next(s, t), p, t + 1, speakers)
    ensures e.Msg? ==> Follows(Message(s, t, e.start, e.duration, e.gains),
                               Replan(p, t, e.start, e.duration, e.gains), t, speakers)
  {
    hide Message, Replan, Next, Holds, Follows, Inv;
    FollowingBounds(s, p, t, speakers);
    if e.Sample? {
      FollowingStays(s, p, t, speakers);
    } else if t <= e.start != INFINITY {
      ConstantIffHolds(s, p, t, speakers);
      MessageStartsPlan(s, p, t, e.start, e.duration, e.gains, speakers);
    } else {
      IgnoredMessage(s, p, t, e.start, e.duration, e.gains, speakers);
    }
  }

  /** Panning trajectory: over any run whose messages come while the gains are held, every sample
      gets the gain of the plan made of the messages alone. */
  lemma {:induction false} Trajectory(s: Obj, p: Plan, now: nat, evs: seq<Event>, speakers: nat)
    requires Follows(s, p, now, speakers) && LegalRun(evs, now, speakers)
    requires WhileHolding(p, now, evs)
    ensures Follows(RunObj(s, now, evs, speakers), RunPlan(p, now, evs), Clock(now, evs), speakers)
    ensures forall l :: 0 <= l < speakers ==>
      Applied(RunObj(s, now, evs, speakers), l, Clock(now, evs)) == PlanGain(RunPlan(p, now, evs), l, Clock(now, evs))
    decreases |evs|
  {
    hide Message, Replan, Next, Applied, PlanGain, Holds, Follows, Inv;
    FollowingBounds(s, p, now, speakers);
    if evs != [] {
      var init, e := evs[..|evs| - 1], evs[|evs| - 1];
      Trajectory(s, p, now, init, speakers);
      StepOnPlan(RunObj(s, now, init, speakers), RunPlan(p, now, init), Clock(now, init), e, speakers);
    }
    FollowingBounds(RunObj(s, now, evs, speakers), RunPlan(p, now, evs), Clock(now, evs), speakers);
    forall l | 0 <= l < speakers
      ensures Applied(RunObj(s, now, evs, speakers), l, Clock(now, evs)) ==
        PlanGain(RunPlan(p, now, evs), l, Clock(now, evs))
    {
      FollowingGives(RunObj(s, now, evs, speakers), RunPlan(p, now, evs), Clock(now, evs), speakers, l);
    }
  }

  lemma IgnoredMessage(s: Obj, p: Plan, now: nat, start: nat, duration: nat, gains: Gains, speakers: nat)
    requires Inv(s, now, speakers)
    requires start < now || start == INFINITY
    ensures Message(s, now, start, duration, gains) == s && Replan(p, now, start, duration, gains) == p
  {}

  /** A freshly constructed object follows the plan of holding its initial gains. */
  function Fresh(gains: Gains): Obj {
    Obj(0, INFINITY, gains, gains, INFINITY, INFINITY, seq(|gains|, _ => 0.0))
  }

  lemma FreshFollows(gains: Gains)
    ensures Follows(Fresh(gains), Plan(gains, 0, 0, gains), 0, |gains|)
  {}

  // ---- messages in the middle of a transition ----

  /** The interpolated gains lie on the line from the previous to the target gains, at the fraction of
      the slope that has passed; without an end the slope is flat. */
  lemma OnTheLine(s: Obj, t: nat, l: nat)
    requires s.previousTime <= t < s.targetTime && l < |s.previousGains| == |s.targetGains|
    ensures Interpolated(s, t)[l] == if s.targetTime == INFINITY then s.previousGains[l] else
      s.previousGains[l] + ((t - s.previousTime) as real) / ((s.targetTime - s.previousTime) as real)
                           * (s.targetGains[l] - s.previousGains[l])
  {
    var a, b := s.previousGains[l], s.targetGains[l];
    MixAlgebra(InterpolationRatio(t, s.previousTime, s.targetTime), a, b);
  }

  lemma MixAlgebra(alpha: real, a: real, b: real)
    ensures alpha * b + (1.0 - alpha) * a == a + alpha * (b - a)
    ensures alpha == 0.0 ==> alpha * b + (1.0 - alpha) * a == a
  {}

  /** The gains from which the plan of a message departs: at once, the previous ones of the running
      slope; later, those the slope ends with, which are the ones interpolated at the time of the
      message if it is cut short. */
  function Departure(s: Obj, now: nat, start: nat): Gains
    requires s.previousTime <= now < s.targetTime && |s.previousGains| == |s.targetGains|
  {
    if start == now then s.previousGains
    else if start < s.targetTime then Interpolated(s, now)
    else s.targetGains
  }

  /** Whatever the object is doing, a message takes effect at its start: until then the object stays
      on its slope, and from then on it follows the plan of the message. */
  lemma MessageReachesPlan(s: Obj, now: nat, start: nat, duration: nat, gains: Gains, speakers: nat)
    requires Inv(s, now, speakers) && |gains| == speakers && now <= start && start + duration < INFINITY
    ensures Follows(Iter(Message(s, now, start, duration, gains), now, start - now),
                    Plan(Departure(s, now, start), start, duration, gains), start, speakers)
    ensures var r := Message(s, now, start, duration, gains);
      now < start ==>
        r.previousTime == s.previousTime && r.previousGains == s.previousGains
        && r.targetTime == (if start < s.targetTime then start else s.targetTime)
        && r.targetGains == Departure(s, now, start)
  {
    hide Mix, Follows;
    var r := Message(s, now, start, duration, gains);
    MessageKeepsInv(s, now, start, duration, gains, speakers);
    if start == now {
      NowOnPlan(s, now, duration, gains, speakers);
    } else {
      IterKeepsInv(r, now, start - now, speakers);
      PendingStarts(r, now, start, speakers);
    }
  }

  lemma NowOnPlan(s: Obj, now: nat, duration: nat, gains: Gains, speakers: nat)
    requires Inv(s, now, speakers) && |gains| == speakers && now + duration < INFINITY
    ensures Follows(Message(s, now, now, duration, gains), Plan(s.previousGains, now, duration, gains), now, speakers)
  {
    RestartRatio(now, s.targetTime);
    MixZero(s.previousGains, s.targetGains);
    MessageKeepsInv(s, now, now, duration, gains, speakers);
  }

  // A pending transition starts when its time has come, after the slope and a possible hold.
  lemma PendingStarts(r: Obj, now: nat, start: nat, speakers: nat)
    requires Inv(r, now, speakers) && r.pendingStart == start && now < start < INFINITY
    requires start + r.pendingDuration < INFINITY
    ensures Follows(Iter(r, now, start - now), Plan(r.targetGains, start, r.pendingDuration, r.pendingGains), start,
                    speakers)
  {
    if r.targetTime == start {
      IterToTarget(r, now, start - now);
    } else {
      var n := r.targetTime - now;
      IterToTarget(r, now, n);
      var held := Switch(r, r.targetTime);
      IterSplit(r, now, n, start - r.targetTime);
      IterToTarget(held, r.targetTime, start - r.targetTime);
    }
  }

  /** The gains on the line between the rows at a given time, as the documentation puts it. */
  function Interpolated(s: Obj, t: nat): Gains
    requires s.previousTime < s.targetTime && |s.previousGains| == |s.targetGains|
  {
    Mix(InterpolationRatio(t, s.previousTime, s.targetTime), s.previousGains, s.targetGains)
  }

  lemma MixIsFrom(alpha: real, from: Gains, to: Gains)
    requires |from| == |to|
    ensures Mix(alpha, from, to) == from <==> alpha == 0.0 || from == to
  {
    if alpha == 0.0 {
      MixZero(from, to);
    } else if from == to {
      MixEqual(alpha, from);
    } else {
      var l :| 0 <= l < |from| && from[l] != to[l];
      var d := to[l] - from[l];
      assert Mix(alpha, from, to)[l] == from[l] + alpha * d;
      assert alpha * d != 0.0;
    }
  }

  lemma RatioZero(a: int, b: int)
    requires 0 <= a && 0 < b
    ensures (a as real) / (b as real) == 0.0 <==> a == 0
  {
    var q := (a as real) / (b as real);
    assert q * (b as real) == a as real;
  }

  /** A transition that starts at once should depart from the interpolated gains. The code sets
      the previous time first and so departs from the previous gains: the two agree if and only
      if the running slope has only just begun or is flat. */
  lemma RestartGains(s: Obj, now: nat, duration: nat, gains: Gains, speakers: nat)
    requires Inv(s, now, speakers) && |gains| == speakers && duration > 0 && now + duration < INFINITY
    ensures Message(s, now, now, duration, gains).previousGains == s.previousGains
    ensures Message(s, now, now, duration, gains).previousGains == Interpolated(s, now) <==>
            now == s.previousTime || s.previousGains == s.targetGains
  {
    RestartRatio(now, s.targetTime);
    MixZero(s.previousGains, s.targetGains);
    var alpha := InterpolationRatio(now, s.previousTime, s.targetTime);
    MixIsFrom(alpha, s.previousGains, s.targetGains);
    if s.targetTime != INFINITY { RatioZero(now - s.previousTime, s.targetTime - s.previousTime); }
  }

  lemma MixSame(alpha: real, beta: real, from: Gains, to: Gains)
    requires |from| == |to|
    ensures Mix(alpha, from, to) == Mix(beta, from, to) <==> alpha == beta || from == to
  {
    if from == to {
      MixEqual(alpha, from);
      MixEqual(beta, from);
    } else if alpha != beta {
      var l :| 0 <= l < |from| && from[l] != to[l];
      var d := to[l] - from[l];
      assert Mix(alpha, from, to)[l] == from[l] + alpha * d && Mix(beta, from, to)[l] == from[l] + beta * d;
      assert (alpha - beta) * d != 0.0;
    }
  }

  lemma RatioInjective(a: int, c: int, b: int)
    requires 0 < b
    ensures (a as real) / (b as real) == (c as real) / (b as real) <==> a == c
  {
    var q, r := (a as real) / (b as real), (c as real) / (b as real);
    assert q * (b as real) == a as real && r * (b as real) == c as real;
  }

  /** A transition that cuts a running one short at a later start should reach the gains
      interpolated at that start. The code aims for the gains of the moment the message came: the
      two agree if and only if the running slope is flat. */
  lemma CutShortGains(s: Obj, now: nat, start: nat, duration: nat, gains: Gains, speakers: nat)
    requires Inv(s, now, speakers) && |gains| == speakers
    requires now < start < s.targetTime && start + duration < INFINITY
    ensures Message(s, now, start, duration, gains).targetGains == Interpolated(s, now)
    ensures Message(s, now, start, duration, gains).targetGains == Interpolated(s, start) <==>
            s.previousGains == s.targetGains
  {
    MixSame(InterpolationRatio(now, s.previousTime, s.targetTime),
            InterpolationRatio(start, s.previousTime, s.targetTime),
            s.previousGains, s.targetGains);
    if s.targetTime != INFINITY {
      RatioInjective(now - s.previousTime, start - s.previousTime, s.targetTime - s.previousTime);
    }
  }
}
