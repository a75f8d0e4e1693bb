/** PanningGainMatrix: the block-wise component, for all objects and loudspeakers. */
module PanningGainMatrices {
  import opened PanningModel
  import R = RealSums

  // One object's state, read off the rows of the component's buffers.
  ghost function RowOf(m: array2<real>, row: nat): (g: Gains)
    requires row < m.Length0
    reads m
    ensures |g| == m.Length1 && forall l :: 0 <= l < |g| ==> g[l] == m[row, l]
  {
    seq(m.Length1, l requires 0 <= l < m.Length1 reads m => m[row, l])
  }

  /** The contribution of the first k objects to sample n of loudspeaker l, from the states the
      objects had at time now. */
  ghost function Mixdown(states: seq<Obj>, input: seq<seq<real>>, now: nat, l: nat, n: nat, k: nat): real
    requires k <= |states| <= |input| && now + n < INFINITY
    requires forall o :: 0 <= o < |states| ==>
      n < |input[o]| && l < |states[o].previousGains| && Inv(states[o], now, |states[o].previousGains|)
  {
    if k == 0 then 0.0
    else MulAdd(GainAt(states[k - 1], now, n, l), input[k - 1][n], Mixdown(states, input, now, l, n, k - 1))
  }

  function MulAdd(gain: real, x: real, onto: real): real {
    onto + gain * x
  }

  /** What object o contributes to sample n of loudspeaker l: its sample times its gain. */
  ghost function MixTerm(states: seq<Obj>, input: seq<seq<real>>, now: nat, l: nat, n: nat): int -> real
    requires |states| <= |input| && now + n < INFINITY
    requires forall o :: 0 <= o < |states| ==>
      n < |input[o]| && l < |states[o].previousGains| && Inv(states[o], now, |states[o].previousGains|)
  {
    o => if 0 <= o < |states| then GainAt(states[o], now, n, l) * input[o][n] else 0.0
  }

  /** The contributions of the objects add up. */
  lemma {:induction false} MixdownIsSum(states: seq<Obj>, input: seq<seq<real>>, now: nat, l: nat, n: nat, k: nat)
    requires k <= |states| <= |input| && now + n < INFINITY
    requires forall o :: 0 <= o < |states| ==>
      n < |input[o]| && l < |states[o].previousGains| && Inv(states[o], now, |states[o].previousGains|)
    ensures Mixdown(states, input, now, l, n, k) == R.Sum(k, MixTerm(states, input, now, l, n))
  {
    hide GainAt, Inv;
    if k > 0 { MixdownIsSum(states, input, now, l, n, k - 1); }
  }

  lemma MulAddIs(gain: real, x: real, onto: real)
    ensures MulAdd(gain, x, onto) == onto + gain * x
  {}

  /** vectorRampScaling's gain for sample i, over the ramp 1, 2, 3, ... */
  function RampGain(gainStart: real, gainInc: real, i: nat): real {
    gainStart + gainInc * (1.0 + i as real)
  }

  lemma RampGainIs(gainStart: real, gainInc: real, i: nat)
    ensures RampGain(gainStart, gainInc, i) == gainStart + gainInc * (1.0 + i as real)
  {}

  /** The gain of loudspeaker l at sample n of a block that starts at time now. */
  ghost function GainAt(s: Obj, now: nat, n: nat, l: nat): real
    requires Inv(s, now, |s.previousGains|) && l < |s.previousGains| && now + n < INFINITY
  {
    IterKeepsInv(s, now, n, |s.previousGains|);
    Applied(Iter(s, now, n), l, now + n)
  }

  /** vectorRampScaling gives sample i of a stretch that starts at t the slope's gain. */
  lemma SlopeGain(s: Obj, l: nat, t: nat, i: nat, from: real, to: real, startRatio: real, incRatio: real)
    requires s.previousTime <= t && t + i < s.targetTime && l < |s.previousGains| == |s.targetGains|
    requires from == s.previousGains[l] && to == s.targetGains[l]
    requires startRatio == InterpolationRatio(t, s.previousTime, s.targetTime)
    requires incRatio == GainIncRatio(s.previousTime, s.targetTime)
    ensures RampGain(from + startRatio * (to - from), incRatio * (to - from), i) == Applied(s, l, t + i)
  {
    var d := to - from;
    if s.targetTime == INFINITY {
      assert 0.0 * d == 0.0;
    } else {
      SlopeAlgebra((t - s.previousTime) as real, (1 + i) as real, (s.targetTime - s.previousTime) as real, d);
      assert (t - s.previousTime) as real + (1 + i) as real == (t + i + 1 - s.previousTime) as real;
    }
  }

  lemma SlopeAlgebra(a: real, c: real, b: real, d: real)
    requires b != 0.0
    ensures (a / b) * d + ((1.0 / b) * d) * c == ((a + c) / b) * d
  {
    assert a / b == a * (1.0 / b) && (a + c) / b == (a + c) * (1.0 / b);
    var r := 1.0 / b;
    assert (a * r) * d + (r * d) * c == ((a + c) * r) * d;
  }

  ghost function InformedObject(s: Obj, now: nat, msg: Event, speakers: nat): (r: Obj)
    requires Inv(s, now, speakers) && msg.Msg? && LegalEvent(msg, speakers)
    ensures s.previousTime <= now < s.targetTime && |s.previousGains| == |s.targetGains|
    ensures r == Message(s, now, msg.start, msg.duration, msg.gains) && Inv(r, now, speakers)
  {
    MessageKeepsInv(s, now, msg.start, msg.duration, msg.gains, speakers);
    Message(s, now, msg.start, msg.duration, msg.gains)
  }

  /** The objects' states after a parameter update at time now. */
  ghost function Informed(states: seq<Obj>, now: nat, starts: seq<nat>, durations: seq<nat>, gains: seq<Gains>,
                          speakers: nat): (r: seq<Obj>)
    requires |states| == |starts| == |durations| == |gains|
    requires forall o :: 0 <= o < |states| ==>
      Inv(states[o], now, speakers) && LegalEvent(Msg(starts[o], durations[o], gains[o]), speakers)
    ensures |r| == |states| && forall o :: 0 <= o < |r| ==> Inv(r[o], now, speakers)
  {
    seq(|states|, o requires 0 <= o < |states| =>
        InformedObject(states[o], now, Msg(starts[o], durations[o], gains[o]), speakers))
  }

  lemma MessageCases(s: Obj, now: nat, start: nat, duration: nat, gains: Gains)
    requires s.previousTime <= now < s.targetTime && |s.previousGains| == |s.targetGains|
    ensures start == INFINITY || start < now ==> Message(s, now, start, duration, gains) == s
  {}

  lemma InvBounds(s: Obj, now: nat, speakers: nat)
    requires Inv(s, now, speakers)
    ensures s.previousTime <= now < s.targetTime <= s.pendingStart <= INFINITY
    ensures |s.previousGains| == |s.targetGains| == speakers
  {}

  lemma StartOfBlock(s: Obj, now: nat, speakers: nat)
    requires Inv(s, now, speakers)
    ensures Iter(s, now, 0) == s && |s.previousGains| == speakers
  {}

  // A sample before the next target time gets the gain of the slope the object is on.
  lemma Segment(s: Obj, now: nat, off: nat, n: nat, l: nat)
    requires Inv(s, now, |s.previousGains|) && l < |s.previousGains| && now + n < INFINITY
    requires off <= n && now + n < Iter(s, now, off).targetTime
    ensures |Iter(s, now, off).previousGains| == |Iter(s, now, off).targetGains| == |s.previousGains|
    ensures Iter(s, now, off).previousTime <= now + off
    ensures GainAt(s, now, n, l) == Applied(Iter(s, now, off), l, now + n)
  {
    hide Applied, Iter, Inv, Next, Switch;
    IterKeepsInv(s, now, off, |s.previousGains|);
    InvBounds(Iter(s, now, off), now + off, |s.previousGains|);
    IterSplit(s, now, off, n - off);
    IterWithinSlope(Iter(s, now, off), now + off, n - off);
  }

  // The state after a segment.
  lemma SegmentEnd(s: Obj, now: nat, off: nat, duration: nat, speakers: nat)
    requires Inv(s, now, speakers) && now + off + duration < INFINITY && duration > 0
    requires now + off + duration <= Iter(s, now, off).targetTime
    ensures Inv(Iter(s, now, off + duration), now + off + duration, speakers)
    ensures var r := Iter(s, now, off);
      Iter(s, now, off + duration) == if now + off + duration == r.targetTime then Switch(r, now + off + duration)
        else r
  {
    hide Iter, Inv, Next, Switch;
    var r := Iter(s, now, off);
    IterKeepsInv(s, now, off + duration, speakers);
    IterSplit(s, now, off, duration);
    if now + off + duration == r.targetTime {
      IterToTarget(r, now + off, duration);
    } else {
      IterWithinSlope(r, now + off, duration);
    }
  }

  function Samples(n: nat): (evs: seq<Event>)
    ensures |evs| == n && forall i :: 0 <= i < n ==> evs[i] == Sample
  {
    seq(n, _ => Sample)
  }

  /** Event-wise processing of a block's samples is Iter. */
  lemma {:induction false} BlockRun(s: Obj, now: nat, msg: seq<Event>, n: nat, speakers: nat)
    requires Inv(s, now, speakers) && now + n < INFINITY
    requires msg == [] || (|msg| == 1 && msg[0].Msg? && LegalEvent(msg[0], speakers))
    ensures Clock(now, msg + Samples(n)) == now + n
    ensures LegalRun(msg + Samples(n), now, speakers)
    ensures s.previousTime <= now < s.targetTime && |s.previousGains| == |s.targetGains|
    ensures RunObj(s, now, msg + Samples(n), speakers) ==
      Iter(if msg == [] then s else Message(s, now, msg[0].start, msg[0].duration, msg[0].gains), now, n)
  {
    hide Message, Next;
    InvBounds(s, now, speakers);
    if n == 0 {
      NoSamples(s, now, msg, speakers);
    } else {
      BlockRun(s, now, msg, n - 1, speakers);
      OneMoreSample(s, now, msg + Samples(n - 1), msg + Samples(n), speakers);
    }
  }

  lemma NoSamples(s: Obj, now: nat, msg: seq<Event>, speakers: nat)
    requires Inv(s, now, speakers)
    requires msg == [] || (|msg| == 1 && msg[0].Msg? && LegalEvent(msg[0], speakers))
    ensures msg + Samples(0) == msg
    ensures Clock(now, msg) == now && LegalRun(msg, now, speakers)
    ensures s.previousTime <= now < s.targetTime && |s.previousGains| == |s.targetGains|
    ensures RunObj(s, now, msg, speakers) ==
      if msg == [] then s else Message(s, now, msg[0].start, msg[0].duration, msg[0].gains)
  {
    hide Message;
    assert Samples(0) == [];
    if msg != [] {
      assert msg[..|msg| - 1] == [];
      assert RunObj(s, now, [], speakers) == s;
    }
  }

  lemma OneMoreSample(s: Obj, now: nat, init: seq<Event>, evs: seq<Event>, speakers: nat)
    requires Inv(s, now, speakers) && LegalRun(init, now, speakers) && Clock(now, init) + 1 < INFINITY
    requires |evs| == |init| + 1 && evs[..|init|] == init && evs[|init|] == Sample
    ensures Clock(now, evs) == Clock(now, init) + 1 && LegalRun(evs, now, speakers)
    ensures RunObj(s, now, evs, speakers) == Next(RunObj(s, now, init, speakers), Clock(now, init))
  {
    hide Message, Next, Inv;
    assert evs[..|evs| - 1] == init;
    forall i | 0 <= i < |evs| ensures LegalEvent(evs[i], speakers) {
      if i < |init| { assert evs[i] == init[i]; }
    }
  }

  // ---- reachable states in which the code and its documentation differ ----

  // A fresh object at gain 0 is sent to gain 1 over ten samples; half of them have passed.
  lemma Halfway() returns (r: Obj)
    ensures var evs := [Msg(0, 10, [1.0])] + Samples(5);
      LegalRun(evs, 0, 1) && Clock(0, evs) == 5 && r == RunObj(Fresh([0.0]), 0, evs, 1)
    ensures Inv(r, 5, 1) && r.previousTime == 0 && r.targetTime == 10
    ensures r.previousGains == [0.0] && r.targetGains == [1.0]
  {
    var s := Fresh([0.0]);
    BlockRun(s, 0, [Msg(0, 10, [1.0])], 5, 1);
    var started := Message(s, 0, 0, 10, [1.0]);
    IterWithinSlope(started, 0, 5);
    RestartRatio(0, s.targetTime);
    MixZero(s.previousGains, s.targetGains);
    r := RunObj(s, 0, [Msg(0, 10, [1.0])] + Samples(5), 1);
  }

  /** A new transition that starts at once throws the object back: its gain had reached one half,
      its slope departs from zero, and the next sample gets one tenth. */
  lemma RestartJumps() returns (r: Obj)
    ensures var evs := [Msg(0, 10, [1.0])] + Samples(5);
      LegalRun(evs, 0, 1) && Clock(0, evs) == 5 && r == RunObj(Fresh([0.0]), 0, evs, 1)
    ensures Inv(r, 5, 1) && r.previousTime == 0 && Interpolated(r, 5) == [0.5] && Applied(r, 0, 4) == 0.5
    ensures var s := Message(r, 5, 5, 10, [1.0]);
      Inv(s, 5, 1) && s.previousGains == [0.0] && Applied(s, 0, 5) == 0.1
  {
    r := Halfway();
    RestartRatio(5, 10);
    MixZero(r.previousGains, r.targetGains);
    assert Interpolated(r, 5)[0] == 0.5;
    MessageKeepsInv(r, 5, 5, 10, [1.0], 1);
  }

  /** A transition that starts at sample 7 cuts the running one short there: the gains reached
      should be those of sample 7, but they are the ones of sample 5, at which the message came. */
  lemma CutShortMisses() returns (r: Obj)
    ensures var evs := [Msg(0, 10, [1.0])] + Samples(5);
      LegalRun(evs, 0, 1) && Clock(0, evs) == 5 && r == RunObj(Fresh([0.0]), 0, evs, 1)
    ensures Inv(r, 5, 1) && Interpolated(r, 7) == [0.7]
    ensures Message(r, 5, 7, 10, [0.0]).targetGains == [0.5]
  {
    r := Halfway();
    assert Interpolated(r, 7)[0] == 0.7;
    assert Interpolated(r, 5)[0] == 0.5;
  }

  class PanningGainMatrix {
    const objects: nat
    const speakers: nat
    const period: nat
    const previousTime: array<nat>
    const targetTime: array<nat>
    const previousGains: array2<real>
    const targetGains: array2<real>
    const pendingStart: array<nat>
    const pendingDuration: array<nat>
    const pendingGains: array2<real>
    const scalingRamp: seq<real>

    ghost const Repr: set<object>

    ghost predicate Shape() {
      && previousTime.Length == targetTime.Length == pendingStart.Length == pendingDuration.Length == objects
      && previousGains.Length0 == targetGains.Length0 == pendingGains.Length0 == objects
      && previousGains.Length1 == targetGains.Length1 == pendingGains.Length1 == speakers
      && previousTime != targetTime && previousTime != pendingStart && previousTime != pendingDuration
      && targetTime != pendingStart && targetTime != pendingDuration && pendingStart != pendingDuration
      && previousGains != targetGains && previousGains != pendingGains && targetGains != pendingGains
      && |scalingRamp| == period && (forall i :: 0 <= i < period ==> scalingRamp[i] == 1.0 + i as real)
      && Repr == {previousTime, targetTime, pendingStart, pendingDuration, previousGains, targetGains, pendingGains}
    }

    ghost function Object(o: nat): (s: Obj)
      requires Shape() && o < objects
      reads Repr
    {
      Obj(previousTime[o], targetTime[o], RowOf(previousGains, o), RowOf(targetGains, o),
          pendingStart[o], pendingDuration[o], RowOf(pendingGains, o))
    }

    ghost function Objects(): (ss: seq<Obj>)
      requires Shape()
      reads Repr
      ensures |ss| == objects && forall o :: 0 <= o < objects ==> ss[o] == Object(o)
    {
      seq(objects, o requires 0 <= o < objects reads Repr => Object(o))
    }

    ghost predicate Valid(now: nat)
      reads Repr
    {
      Shape() && forall o :: 0 <= o < objects ==> Inv(Object(o), now, speakers)
    }

    constructor (numberOfObjects: nat, numberOfLoudspeakers: nat, blockSize: nat, initialGains: seq<seq<real>>)
      requires |initialGains| == numberOfObjects
      requires forall o :: 0 <= o < numberOfObjects ==> |initialGains[o]| == numberOfLoudspeakers
      ensures objects == numberOfObjects && speakers == numberOfLoudspeakers && period == blockSize
      ensures Valid(0) && fresh(Repr)
      ensures forall o :: 0 <= o < objects ==> Object(o) == Fresh(initialGains[o])
    {
      objects, speakers, period := numberOfObjects, numberOfLoudspeakers, blockSize;
      var pt := new nat[numberOfObjects](_ => 0);
      var tt := new nat[numberOfObjects](_ => INFINITY);
      var ps := new nat[numberOfObjects](_ => INFINITY);
      var pd := new nat[numberOfObjects](_ => INFINITY);
      var pg := new real[numberOfObjects, numberOfLoudspeakers](
        (o, l) requires 0 <= o < numberOfObjects && 0 <= l < numberOfLoudspeakers => initialGains[o][l]);
      var tg := new real[numberOfObjects, numberOfLoudspeakers](
        (o, l) requires 0 <= o < numberOfObjects && 0 <= l < numberOfLoudspeakers => initialGains[o][l]);
      var qg := new real[numberOfObjects, numberOfLoudspeakers]((o, l) => 0.0);
      previousTime, targetTime, pendingStart, pendingDuration := pt, tt, ps, pd;
      previousGains, targetGains, pendingGains := pg, tg, qg;
      scalingRamp := seq(blockSize, i => 1.0 + i as real);
      Repr := {pt, tt, ps, pd, pg, tg, qg};
      new;
      forall o | 0 <= o < objects ensures Object(o) == Fresh(initialGains[o]) {
        FreshObject(o, initialGains[o]);
      }
    }

    lemma FreshObject(o: nat, gains: Gains)
      requires Shape() && o < objects && |gains| == speakers
      requires previousTime[o] == 0 && targetTime[o] == pendingStart[o] == pendingDuration[o] == INFINITY
      requires forall l :: 0 <= l < speakers ==>
        previousGains[o, l] == targetGains[o, l] == gains[l] && pendingGains[o, l] == 0.0
      ensures Object(o) == Fresh(gains)
    {
      assert RowOf(previousGains, o) == gains && RowOf(targetGains, o) == gains;
      assert RowOf(pendingGains, o) == seq(speakers, _ => 0.0);
    }

    // copyRow
    method CopyRow(dest: array2<real>, o: nat, src: Gains)
      requires o < dest.Length0 && |src| == dest.Length1
      modifies dest
      ensures RowOf(dest, o) == src
      ensures forall r :: 0 <= r < dest.Length0 && r != o ==> RowOf(dest, r) == old(RowOf(dest, r))
    {
      for l := 0 to |src|
        invariant forall c :: 0 <= c < l ==> dest[o, c] == src[c]
        invariant forall r, c :: 0 <= r < dest.Length0 && 0 <= c < dest.Length1 && r != o ==>
          dest[r, c] == old(dest[r, c])
      {
        dest[o, l] := src[l];
      }
      forall r | 0 <= r < dest.Length0 && r != o ensures RowOf(dest, r) == old(RowOf(dest, r)) {
        assert forall c :: 0 <= c < dest.Length1 ==> RowOf(dest, r)[c] == old(RowOf(dest, r))[c];
      }
      assert RowOf(dest, o) == src;
    }

    /** Interpolates two rows element by element into one of them. */
    method MixRow(dest: array2<real>, o: nat, alpha: real, from: array2<real>, to: array2<real>)
      requires from != to && (dest == from || dest == to)
      requires o < from.Length0 == to.Length0 && from.Length1 == to.Length1
      modifies dest
      ensures RowOf(dest, o) == Mix(alpha, old(RowOf(from, o)), old(RowOf(to, o)))
      ensures forall r :: 0 <= r < dest.Length0 && r != o ==> RowOf(dest, r) == old(RowOf(dest, r))
    {
      ghost var f, t := RowOf(from, o), RowOf(to, o);
      for l := 0 to dest.Length1
        invariant forall c :: 0 <= c < l ==> dest[o, c] == Mix(alpha, f, t)[c]
        invariant forall c :: l <= c < dest.Length1 ==> from[o, c] == f[c] && to[o, c] == t[c]
        invariant forall r, c :: 0 <= r < dest.Length0 && 0 <= c < dest.Length1 && r != o ==>
          dest[r, c] == old(dest[r, c])
      {
        dest[o, l] := alpha * to[o, l] + (1.0 - alpha) * from[o, l];
      }
      forall r | 0 <= r < dest.Length0 && r != o ensures RowOf(dest, r) == old(RowOf(dest, r)) {
        assert forall c :: 0 <= c < dest.Length1 ==> RowOf(dest, r)[c] == old(RowOf(dest, r))[c];
      }
      assert RowOf(dest, o) == Mix(alpha, f, t);
    }

    method ReadRow(m: array2<real>, o: nat) returns (g: Gains)
      requires o < m.Length0
      ensures g == RowOf(m, o)
    {
      g := seq(m.Length1, l requires 0 <= l < m.Length1 reads m => m[o, l]);
    }

    /** The end of a slope: the pending transition starts or the gains are held. */
    method SwitchObject(o: nat, now: nat)
      requires Shape() && o < objects
      modifies Repr
      ensures Object(o) == old(Switch(Object(o), now))
      ensures forall r :: 0 <= r < objects && r != o ==> Object(r) == old(Object(r))
    {
      hide RowOf;
      previousTime[o] := now;
      var nextStartTime := pendingStart[o];
      var pending := ReadRow(pendingGains, o);
      var target := ReadRow(targetGains, o);
      if nextStartTime == now {
        var transitionTime := pendingDuration[o];
        if transitionTime == 0 {
          CopyRow(previousGains, o, pending);
          targetTime[o] := INFINITY;
        } else {
          CopyRow(previousGains, o, target);
          targetTime[o] := now + transitionTime;
        }
        CopyRow(targetGains, o, pending);
        pendingStart[o] := INFINITY;
        pendingDuration[o] := INFINITY;
      } else {
        targetTime[o] := nextStartTime;
        CopyRow(previousGains, o, target);
      }
    }

    /** updateTransition; false is the error status for a time stamp in the past. */
    method UpdateTransition(o: nat, now: nat, start: nat, duration: nat, gains: Gains) returns (ok: bool)
      requires Valid(now) && o < objects && |gains| == speakers
      requires start <= INFINITY && (start < INFINITY ==> start + duration < INFINITY)
      modifies Repr
      ensures Valid(now)
      ensures ok <==> start >= now || start == INFINITY
      ensures Object(o) == old(Message(Object(o), now, start, duration, gains))
      ensures forall r :: 0 <= r < objects && r != o ==> Object(r) == old(Object(r))
    {
      hide Inv, Mix, Message;
      InvBounds(Object(o), now, speakers);
      MessageKeepsInv(Object(o), now, start, duration, gains, speakers);
      MessageCases(Object(o), now, start, duration, gains);
      if start == INFINITY { return true; }
      if start < now { return false; }
      if start == now {
        StartNow(o, now, duration, gains);
      } else {
        StartLater(o, now, start, duration, gains);
      }
      ok := true;
    }

    method StartNow(o: nat, now: nat, duration: nat, gains: Gains)
      requires Shape() && o < objects && |gains| == speakers
      requires previousTime[o] <= now < targetTime[o] && now + duration < INFINITY
      modifies Repr
      ensures Object(o) == old(Message(Object(o), now, now, duration, gains))
      ensures forall r :: 0 <= r < objects && r != o ==> Object(r) == old(Object(r))
    {
      hide Mix, RowOf;
      previousTime[o] := now;
      if duration == 0 {
        CopyRow(previousGains, o, gains);
        CopyRow(targetGains, o, gains);
        targetTime[o] := INFINITY;
      } else {
        var alpha := InterpolationRatio(now, previousTime[o], targetTime[o]);
        MixRow(previousGains, o, alpha, previousGains, targetGains);
        CopyRow(targetGains, o, gains);
        targetTime[o] := now + duration;
      }
      pendingStart[o] := INFINITY;
      pendingDuration[o] := INFINITY;
      var target := ReadRow(targetGains, o);
      CopyRow(pendingGains, o, target);
    }

    method StartLater(o: nat, now: nat, start: nat, duration: nat, gains: Gains)
      requires Shape() && o < objects && |gains| == speakers
      requires previousTime[o] <= now < targetTime[o] && now < start < INFINITY
      modifies Repr
      ensures Object(o) == old(Message(Object(o), now, start, duration, gains))
      ensures forall r :: 0 <= r < objects && r != o ==> Object(r) == old(Object(r))
    {
      hide Mix;
      if start < targetTime[o] {
        var alpha := InterpolationRatio(now, previousTime[o], targetTime[o]);
        MixRow(targetGains, o, alpha, previousGains, targetGains);
        targetTime[o] := start;
      }
      pendingStart[o] := start;
      pendingDuration[o] := duration;
      CopyRow(pendingGains, o, gains);
    }

    /** updateTransitions; failed lists the objects whose time stamp was in the past. */
    method UpdateTransitions(now: nat, starts: seq<nat>, durations: seq<nat>, gains: seq<Gains>)
      returns (failed: seq<nat>)
      requires Valid(now) && |starts| == |durations| == |gains| == objects
      requires forall o :: 0 <= o < objects ==> LegalEvent(Msg(starts[o], durations[o], gains[o]), speakers)
      modifies Repr
      ensures Valid(now)
      ensures forall o :: 0 <= o < objects ==> (o in failed <==> starts[o] < now)
      ensures forall o :: 0 <= o < objects ==>
        Object(o) == old(Message(Object(o), now, starts[o], durations[o], gains[o]))
    {
      hide Inv, Message;
      failed := [];
      forall o | 0 <= o < objects ensures Object(o).previousTime <= now < Object(o).targetTime <= INFINITY {
        InvBounds(Object(o), now, speakers);
      }
      ghost var was := Objects();
      for o := 0 to objects
        invariant Valid(now)
        invariant forall r :: 0 <= r < o ==>
          Object(r) == old(Message(Object(r), now, starts[r], durations[r], gains[r]))
        invariant forall r :: 0 <= r < o ==> (r in failed <==> starts[r] < now)
        invariant forall r :: r in failed ==> r < o
        invariant forall r :: o <= r < objects ==> Object(r) == was[r]
      {
        assert LegalEvent(Msg(starts[o], durations[o], gains[o]), speakers);
        var ok := UpdateTransition(o, now, starts[o], durations[o], gains[o]);
        if !ok { failed := failed + [o]; }
      }
    }

    /** scaleSignal: a ramp of gains applied to a stretch of the block, by vectorRampScaling. */
    method ScaleSignal(input: seq<real>, output: array2<real>, l: nat, startIdx: nat, duration: nat,
                       gainStart: real, gainInc: real, accumulate: bool)
      requires Shape() && |input| == output.Length1 == period && l < output.Length0 && startIdx + duration <= period
      modifies output
      ensures forall r, n :: 0 <= r < output.Length0 && 0 <= n < period ==>
        output[r, n] == if r == l && startIdx <= n < startIdx + duration
                        then (if accumulate then old(output[r, n]) else 0.0)
                          + RampGain(gainStart, gainInc, n - startIdx) * input[n]
                        else old(output[r, n])
    {
      hide MulAdd, RampGain;
      for i := 0 to duration
        invariant forall r, n :: 0 <= r < output.Length0 && 0 <= n < period ==>
          output[r, n] == if r == l && startIdx <= n < startIdx + i
                          then MulAdd(RampGain(gainStart, gainInc, n - startIdx), input[n],
                                      if accumulate then old(output[r, n]) else 0.0)
                          else old(output[r, n])
      {
        var gain := gainStart + gainInc * scalingRamp[i];
        assert scalingRamp[i] == 1.0 + i as real;
        RampGainIs(gainStart, gainInc, i);
        assert gain == RampGain(gainStart, gainInc, i);
        output[l, startIdx + i] :=
          MulAdd(gain, input[startIdx + i], if accumulate then output[l, startIdx + i] else 0.0);
      }
      forall n | startIdx <= n < startIdx + duration
        ensures output[l, n] == (if accumulate then old(output[l, n]) else 0.0)
                                + RampGain(gainStart, gainInc, n - startIdx) * input[n]
      {
        MulAddIs(RampGain(gainStart, gainInc, n - startIdx), input[n], if accumulate then old(output[l, n]) else 0.0);
      }
    }

    /** processAudioSingleSlope */
    method ProcessAudioSingleSlope(o: nat, t: nat, startIdx: nat, duration: nat, input: seq<real>,
                                   output: array2<real>, accumulate: bool)
      requires Shape() && o < objects && output !in Repr
      requires |input| == output.Length1 == period && output.Length0 == speakers && startIdx + duration <= period
      requires previousTime[o] <= t && t + duration <= targetTime[o] && 0 < duration
      modifies output
      ensures forall l, n :: 0 <= l < speakers && 0 <= n < period ==>
        output[l, n] == if startIdx <= n < startIdx + duration
                        then (if accumulate then old(output[l, n]) else 0.0)
                          + Applied(Object(o), l, t + (n - startIdx)) * input[n]
                        else old(output[l, n])
    {
      hide Applied, MulAdd, RampGain, InterpolationRatio, GainIncRatio;
      ghost var s := Object(o);
      var startRatio := InterpolationRatio(t, previousTime[o], targetTime[o]);
      var incRatio := GainIncRatio(previousTime[o], targetTime[o]);
      for k := 0 to speakers
        invariant forall l, n :: 0 <= l < speakers && 0 <= n < period ==>
          output[l, n] == if l < k && startIdx <= n < startIdx + duration
                          then MulAdd(Applied(s, l, t + (n - startIdx)), input[n],
                                      if accumulate then old(output[l, n]) else 0.0)
                          else old(output[l, n])
      {
        var from, to := previousGains[o, k], targetGains[o, k];
        var startGain := from + startRatio * (to - from);
        var gainInc := incRatio * (to - from);
        forall i: nat | i < duration ensures RampGain(startGain, gainInc, i) == Applied(s, k, t + i) {
          SlopeGain(s, k, t, i, from, to, startRatio, incRatio);
        }
        label Before:
        ScaleSignal(input, output, k, startIdx, duration, startGain, gainInc, accumulate);
        forall n | startIdx <= n < startIdx + duration
          ensures output[k, n] == MulAdd(Applied(s, k, t + (n - startIdx)), input[n],
                                         if accumulate then old(output[k, n]) else 0.0)
        {
          MulAddIs(RampGain(startGain, gainInc, n - startIdx), input[n],
                   if accumulate then old@Before(output[k, n]) else 0.0);
          assert RampGain(startGain, gainInc, n - startIdx) == Applied(s, k, t + (n - startIdx));
        }
      }
      forall l, n | 0 <= l < speakers && startIdx <= n < startIdx + duration
        ensures output[l, n] == (if accumulate then old(output[l, n]) else 0.0)
                                + Applied(s, l, t + (n - startIdx)) * input[n]
      {
        MulAddIs(Applied(s, l, t + (n - startIdx)), input[n], if accumulate then old(output[l, n]) else 0.0);
      }
    }

    /** One object's pass over the block, slope by slope; the assertions in the loop are those of
        the source. */
    method ProcessObject(o: nat, now: nat, input: seq<real>, output: array2<real>, accumulate: bool)
      requires Shape() && o < objects && output !in Repr && now + period < INFINITY
      requires Inv(Object(o), now, speakers)
      requires |input| == output.Length1 == period && output.Length0 == speakers
      modifies Repr, output
      ensures Object(o) == Iter(old(Object(o)), now, period)
      ensures forall r :: 0 <= r < objects && r != o ==> Object(r) == old(Object(r))
      ensures forall l, n :: 0 <= l < speakers && 0 <= n < period ==>
        output[l, n] == (if accumulate then old(output[l, n]) else 0.0) + GainAt(old(Object(o)), now, n, l) * input[n]
    {
      hide Applied, MulAdd, Inv, Iter, GainAt, Switch;
      ghost var s := Object(o);
      var currentTime := now;
      var blockEndTime := currentTime + period;
      var bufferOffset := 0;
      StartOfBlock(s, now, speakers);
      while currentTime < blockEndTime
        invariant bufferOffset <= period && currentTime == now + bufferOffset
        invariant Object(o) == Iter(s, now, bufferOffset) && Inv(Object(o), currentTime, speakers)
        invariant forall r :: 0 <= r < objects && r != o ==> Object(r) == old(Object(r))
        invariant forall l, n :: 0 <= l < speakers && 0 <= n < period ==>
          output[l, n] == if n < bufferOffset
                          then MulAdd(GainAt(s, now, n, l), input[n], if accumulate then old(output[l, n]) else 0.0)
                          else old(output[l, n])
        decreases blockEndTime - currentTime
      {
        ghost var r := Object(o);
        InvBounds(r, currentTime, speakers);
        assert previousTime[o] < targetTime[o];
        assert currentTime >= previousTime[o];
        assert currentTime < targetTime[o];
        assert pendingStart[o] > currentTime;
        var duration := (if targetTime[o] < blockEndTime then targetTime[o] else blockEndTime) - currentTime;
        assert duration > 0;
        forall l, n | 0 <= l < speakers && bufferOffset <= n < bufferOffset + duration
          ensures GainAt(s, now, n, l) == Applied(r, l, currentTime + (n - bufferOffset))
        {
          Segment(s, now, bufferOffset, n, l);
        }
        SegmentEnd(s, now, bufferOffset, duration, speakers);
        label Before:
        ProcessAudioSingleSlope(o, currentTime, bufferOffset, duration, input, output, accumulate);
        forall l, n | 0 <= l < speakers && bufferOffset <= n < bufferOffset + duration
          ensures output[l, n] == MulAdd(GainAt(s, now, n, l), input[n], if accumulate then old(output[l, n]) else 0.0)
        {
          MulAddIs(Applied(r, l, currentTime + (n - bufferOffset)), input[n],
                   if accumulate then old@Before(output[l, n]) else 0.0);
        }
        currentTime := currentTime + duration;
        bufferOffset := bufferOffset + duration;
        if currentTime == targetTime[o] {
          SwitchObject(o, currentTime);
        }
      }
      forall l, n | 0 <= l < speakers && 0 <= n < period
        ensures output[l, n] == (if accumulate then old(output[l, n]) else 0.0) + GainAt(s, now, n, l) * input[n]
      {
        MulAddIs(GainAt(s, now, n, l), input[n], if accumulate then old(output[l, n]) else 0.0);
      }
    }

    /** processAudio: every sample of every loudspeaker is the mix of the objects' samples under the
        gains of the sample-by-sample reference, and every object ends in the reference's state. */
    method ProcessAudio(now: nat, input: seq<seq<real>>, output: array2<real>)
      requires Valid(now) && now + period < INFINITY && output !in Repr
      requires |input| == objects && forall o :: 0 <= o < objects ==> |input[o]| == period
      requires output.Length0 == speakers && output.Length1 == period
      modifies Repr, output
      ensures Valid(now + period)
      ensures forall o :: 0 <= o < objects ==> Object(o) == Iter(old(Object(o)), now, period)
      ensures forall l, n :: 0 <= l < speakers && 0 <= n < period ==>
        output[l, n] == Mixdown(old(Objects()), input, now, l, n, objects)
          == R.Sum(objects, MixTerm(old(Objects()), input, now, l, n))
    {
      hide Iter, GainAt, MulAdd, Inv;
      ghost var states := Objects();
      forall o | 0 <= o < objects
        ensures |states[o].previousGains| == speakers && Inv(Iter(states[o], now, period), now + period, speakers)
      {
        InvBounds(states[o], now, speakers);
        IterKeepsInv(states[o], now, period, speakers);
      }
      if objects == 0 {
        ZeroOutput(output);
      } else {
        for o := 0 to objects
          invariant forall r :: 0 <= r < o ==> Object(r) == Iter(states[r], now, period)
          invariant forall r :: o <= r < objects ==> Object(r) == states[r]
          invariant o > 0 ==> forall l, n :: 0 <= l < speakers && 0 <= n < period ==>
            output[l, n] == Mixdown(states, input, now, l, n, o)
        {
          label Before:
          ProcessObject(o, now, input[o], output, o != 0);
          forall l, n | 0 <= l < speakers && 0 <= n < period
            ensures output[l, n] == Mixdown(states, input, now, l, n, o + 1)
          {
            MulAddIs(GainAt(states[o], now, n, l), input[o][n], if o != 0 then old@Before(output[l, n]) else 0.0);
          }
        }
      }
      forall l, n | 0 <= l < speakers && 0 <= n < period
        ensures Mixdown(states, input, now, l, n, objects) == R.Sum(objects, MixTerm(states, input, now, l, n))
      {
        MixdownIsSum(states, input, now, l, n, objects);
      }
    }

    static method ZeroOutput(output: array2<real>)
      modifies output
      ensures forall l, n :: 0 <= l < output.Length0 && 0 <= n < output.Length1 ==> output[l, n] == 0.0
    {
      for l := 0 to output.Length0
        invariant forall r, n :: 0 <= r < l && 0 <= n < output.Length1 ==> output[r, n] == 0.0
      {
        for n := 0 to output.Length1
          invariant forall r, c :: 0 <= r < l && 0 <= c < output.Length1 ==> output[r, c] == 0.0
          invariant forall c :: 0 <= c < n ==> output[l, c] == 0.0
        {
          output[l, n] := 0.0;
        }
      }
    }

    /** process: a parameter update, if there is one, and a block of audio. Per object this is a
        message followed by one sample step per sample, so what is proved of such runs holds of
        the component. */
    method Process(now: nat, changed: bool, starts: seq<nat>, durations: seq<nat>, gains: seq<Gains>,
                   input: seq<seq<real>>, output: array2<real>)
      requires Valid(now) && now + period < INFINITY && output !in Repr
      requires |starts| == |durations| == |gains| == objects
      requires forall o :: 0 <= o < objects ==> LegalEvent(Msg(starts[o], durations[o], gains[o]), speakers)
      requires |input| == objects && forall o :: 0 <= o < objects ==> |input[o]| == period
      requires output.Length0 == speakers && output.Length1 == period
      modifies Repr, output
      ensures Valid(now + period)
      ensures forall o :: 0 <= o < objects ==>
        var evs := (if changed then [Msg(starts[o], durations[o], gains[o])] else []) + Samples(period);
        LegalRun(evs, now, speakers) && Object(o) == RunObj(old(Object(o)), now, evs, speakers)
      ensures forall l, n :: 0 <= l < speakers && 0 <= n < period ==>
        var states := if changed then Informed(old(Objects()), now, starts, durations, gains, speakers)
          else old(Objects());
        output[l, n] == Mixdown(states, input, now, l, n, objects)
          == R.Sum(objects, MixTerm(states, input, now, l, n))
    {
      hide Iter, Inv, Message, Mixdown, RunObj, LegalRun, LegalEvent;
      ghost var states := Objects();
      if changed {
        forall o | 0 <= o < objects
          ensures states[o].previousTime <= now < states[o].targetTime
            && |states[o].previousGains| == |states[o].targetGains|
        {
          InvBounds(states[o], now, speakers);
        }
        var failed := UpdateTransitions(now, starts, durations, gains);
      }
      assert Objects() == if !changed then states else Informed(states, now, starts, durations, gains, speakers);
      ProcessAudio(now, input, output);
      forall o | 0 <= o < objects
        ensures var evs := (if changed then [Msg(starts[o], durations[o], gains[o])] else []) + Samples(period);
          LegalRun(evs, now, speakers) && Object(o) == RunObj(states[o], now, evs, speakers)
      {
        if changed {
          BlockRun(states[o], now, [Msg(starts[o], durations[o], gains[o])], period, speakers);
        } else {
          BlockRun(states[o], now, [], period, speakers);
        }
      }
    }
  }
}
