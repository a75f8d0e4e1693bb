/**
 What a caller of the panning component gets, in terms of the messages alone: the gains of the
 trajectories they describe, and outputs no larger than the gains asked for allow.
 */
module PanningOutputs {
  import opened PanningModel
  import opened PanningGainMatrices
  import opened PanningRuns
  import R = RealSums

  // ---- the events of an object in a run ----

  /** The events of object o up to sample n of the call after a run. */
  ghost function EventsUpTo(blocks: seq<Block>, b: Block, o: nat, n: nat, objects: nat, speakers: nat, period: nat):
    seq<Event>
    requires AllFit(blocks, objects, speakers, period) && Fits(b, objects, speakers, period) && o < objects
  {
    Events(blocks, o, objects, speakers, period) + (MessageOf(b, o) + Samples(n))
  }

  lemma {:induction false} EventsLegal(s: Obj, now: nat, blocks: seq<Block>, o: nat, objects: nat, speakers: nat,
                                       period: nat)
    requires Inv(s, now, speakers) && AllFit(blocks, objects, speakers, period) && o < objects
    requires TimeAfter(now, |blocks|, period) < INFINITY
    ensures LegalRun(Events(blocks, o, objects, speakers, period), now, speakers)
    ensures Clock(now, Events(blocks, o, objects, speakers, period)) == TimeAfter(now, |blocks|, period)
  {
    hide Fits, LegalEvent, Inv;
    if blocks != [] {
      var init, b := blocks[..|blocks| - 1], blocks[|blocks| - 1];
      TimeGrows(now, |init|, |blocks|, period);
      EventsLegal(s, now, init, o, objects, speakers, period);
      assert Fits(b, objects, speakers, period);
      OneMoreCall(s, now, Events(init, o, objects, speakers, period), TimeAfter(now, |init|, period), b, o, period,
                  objects, speakers, period);
    }
  }

  lemma UpToLegal(s: Obj, now: nat, blocks: seq<Block>, b: Block, o: nat, n: nat, objects: nat, speakers: nat,
                  period: nat)
    requires Inv(s, now, speakers) && AllFit(blocks, objects, speakers, period) && Fits(b, objects, speakers, period)
    requires o < objects && n <= period && TimeAfter(now, |blocks| + 1, period) < INFINITY
    ensures LegalRun(EventsUpTo(blocks, b, o, n, objects, speakers, period), now, speakers)
    ensures Clock(now, EventsUpTo(blocks, b, o, n, objects, speakers, period)) == TimeAfter(now, |blocks|, period) + n
  {
    hide Fits, LegalEvent, Inv, LegalRun, Clock, Events;
    EventsLegal(s, now, blocks, o, objects, speakers, period);
    OneMoreCall(s, now, Events(blocks, o, objects, speakers, period), TimeAfter(now, |blocks|, period), b, o, n,
                objects, speakers, period);
  }

  // Up to the last sample these are all events of the longer run; up to an earlier one, a part.
  lemma UpToIsPrefix(blocks: seq<Block>, b: Block, o: nat, n: nat, objects: nat, speakers: nat, period: nat)
    requires AllFit(blocks, objects, speakers, period) && Fits(b, objects, speakers, period) && o < objects
    requires n <= period
    ensures AllFit(blocks + [b], objects, speakers, period)
    ensures var all := Events(blocks + [b], o, objects, speakers, period);
      var k := |all| - period + n;
      0 <= k <= |all| && EventsUpTo(blocks, b, o, n, objects, speakers, period) == all[..k]
  {
    hide Fits, Events;
    forall i | 0 <= i <= |blocks| ensures Fits((blocks + [b])[i], objects, speakers, period) {}
    LastCall(blocks, b, o, objects, speakers, period);
    FitsBounds(b, objects, speakers, period);
    var e, msg := Events(blocks, o, objects, speakers, period), MessageOf(b, o);
    assert (e + (msg + Samples(period)))[..|e| + |msg| + n] == e + (msg + Samples(n));
  }

  lemma LastCall(blocks: seq<Block>, b: Block, o: nat, objects: nat, speakers: nat, period: nat)
    requires AllFit(blocks, objects, speakers, period) && Fits(b, objects, speakers, period) && o < objects
    requires AllFit(blocks + [b], objects, speakers, period)
    ensures Events(blocks + [b], o, objects, speakers, period) ==
      Events(blocks, o, objects, speakers, period) + (MessageOf(b, o) + Samples(period))
  {
    hide Fits;
    assert (blocks + [b])[..|blocks|] == blocks;
  }

  // ---- trajectories ----

  lemma {:induction false} WhileHoldingPrefix(p: Plan, now: nat, evs: seq<Event>, k: nat)
    requires WhileHolding(p, now, evs) && k <= |evs|
    ensures WhileHolding(p, now, evs[..k])
  {
    hide Holds, Clock, RunPlan;
    if k == |evs| {
      assert evs[..k] == evs;
    } else {
      WhileHoldingPrefix(p, now, evs[..|evs| - 1], k);
      assert evs[..|evs| - 1][..k] == evs[..k];
    }
  }

  /** The gain the plan made of the messages has at the time of the next sample. */
  function PlannedGain(p: Plan, now: nat, evs: seq<Event>, l: nat): real {
    var q := RunPlan(p, now, evs);
    if l < |q.from| == |q.to| then PlanGain(q, l, Clock(now, evs)) else 0.0
  }

  lemma HeardIsPlanned(s: Obj, p: Plan, now: nat, evs: seq<Event>, l: nat, speakers: nat)
    requires Follows(s, p, now, speakers) && LegalRun(evs, now, speakers) && WhileHolding(p, now, evs) && l < speakers
    ensures HeardGain(s, now, evs, l, speakers) == PlannedGain(p, now, evs, l)
  {
    hide LegalRun, WhileHolding, RunObj, RunPlan, Clock, Applied, PlanGain;
    Trajectory(s, p, now, evs, speakers);
  }

  /** Sample n of loudspeaker l: the first k objects' samples under the gains of their plans. */
  ghost function PlannedMix(plans: seq<Plan>, now: nat, blocks: seq<Block>, b: Block, l: nat, n: nat,
                            speakers: nat, period: nat, k: nat): real
    requires AllFit(blocks, |plans|, speakers, period) && Fits(b, |plans|, speakers, period)
    requires k <= |plans| && n < period
  {
    if k == 0 then 0.0
    else
      MulAdd(PlannedGain(plans[k - 1], now, EventsUpTo(blocks, b, k - 1, n, |plans|, speakers, period), l),
             b.input[k - 1][n], PlannedMix(plans, now, blocks, b, l, n, speakers, period, k - 1))
  }

  /** What object o contributes: its sample times the gain of its plan. */
  ghost function PlannedTerm(plans: seq<Plan>, now: nat, blocks: seq<Block>, b: Block, l: nat, n: nat,
                             speakers: nat, period: nat): int -> real
    requires AllFit(blocks, |plans|, speakers, period) && Fits(b, |plans|, speakers, period) && n < period
  {
    o => if 0 <= o < |plans|
         then PlannedGain(plans[o], now, EventsUpTo(blocks, b, o, n, |plans|, speakers, period), l) * b.input[o][n]
         else 0.0
  }

  lemma {:induction false} PlannedMixIsSum(plans: seq<Plan>, now: nat, blocks: seq<Block>, b: Block, l: nat, n: nat,
                                           speakers: nat, period: nat, k: nat)
    requires AllFit(blocks, |plans|, speakers, period) && Fits(b, |plans|, speakers, period)
    requires k <= |plans| && n < period
    ensures PlannedMix(plans, now, blocks, b, l, n, speakers, period, k) ==
      R.Sum(k, PlannedTerm(plans, now, blocks, b, l, n, speakers, period))
    decreases k
  {
    hide Fits, PlannedGain, EventsUpTo;
    FitsBounds(b, |plans|, speakers, period);
    if k > 0 { PlannedMixIsSum(plans, now, blocks, b, l, n, speakers, period, k - 1); }
  }

  /** Every object starts on its plan, and each of its messages comes while the plan made of the
      earlier ones holds its gains. */
  ghost predicate OnPlans(states: seq<Obj>, plans: seq<Plan>, now: nat, blocks: seq<Block>, speakers: nat, period: nat)
    requires AllFit(blocks, |states|, speakers, period)
  {
    |plans| == |states| && forall o :: 0 <= o < |states| ==>
      Follows(states[o], plans[o], now, speakers)
      && WhileHolding(plans[o], now, Events(blocks, o, |states|, speakers, period))
  }

  lemma {:induction false} MixIsPlanned(states: seq<Obj>, plans: seq<Plan>, now: nat, blocks: seq<Block>, b: Block,
                                        l: nat, n: nat, speakers: nat, period: nat, k: nat)
    requires AllFit(blocks, |states|, speakers, period) && Fits(b, |states|, speakers, period)
    requires AllFit(blocks + [b], |states|, speakers, period)
    requires OnPlans(states, plans, now, blocks + [b], speakers, period)
    requires k <= |states| && n < period && l < speakers && TimeAfter(now, |blocks| + 1, period) < INFINITY
    ensures RunMix(states, now, blocks, b, l, n, speakers, period, k) ==
      PlannedMix(plans, now, blocks, b, l, n, speakers, period, k)
    decreases k
  {
    hide Fits, LegalRun, WhileHolding, HeardGain, PlannedGain, MulAdd, Events, Inv, Clock;
    if k > 0 {
      var o, objects := k - 1, |states|;
      MixIsPlanned(states, plans, now, blocks, b, l, n, speakers, period, o);
      UpToLegal(states[o], now, blocks, b, o, n, objects, speakers, period);
      UpToIsPrefix(blocks, b, o, n, objects, speakers, period);
      var all := Events(blocks + [b], o, objects, speakers, period);
      WhileHoldingPrefix(plans[o], now, all, |all| - period + n);
      HeardIsPlanned(states[o], plans[o], now, EventsUpTo(blocks, b, o, n, objects, speakers, period), l, speakers);
    }
  }

  /** The component plays trajectories: if all messages come while the gains are held, every output
      sample is the mix of the objects under the piecewise linear gains the messages describe. */
  method PlayTrajectories(p: PanningGainMatrix, now: nat, blocks: seq<Block>, b: Block, output: array2<real>,
                          ghost plans: seq<Plan>)
    requires p.Valid(now) && AllFit(blocks + [b], p.objects, p.speakers, p.period)
    requires OnPlans(p.Objects(), plans, now, blocks + [b], p.speakers, p.period)
    requires TimeAfter(now, |blocks| + 1, p.period) < INFINITY
    requires output !in p.Repr && output.Length0 == p.speakers && output.Length1 == p.period
    modifies p.Repr, output
    ensures p.Valid(TimeAfter(now, |blocks| + 1, p.period))
    ensures |plans| == p.objects
    ensures AllFit(blocks, p.objects, p.speakers, p.period) && Fits(b, p.objects, p.speakers, p.period)
    ensures forall l, n :: 0 <= l < p.speakers && 0 <= n < p.period ==>
      output[l, n] == R.Sum(p.objects, PlannedTerm(plans, now, blocks, b, l, n, p.speakers, p.period))
  {
    hide Fits, Inv, RunMix, PlannedMix, OnPlans;
    ghost var states := p.Objects();
    SplitFit(blocks, b, p.objects, p.speakers, p.period);
    PerformAndProcess(p, now, blocks, b, output);
    OnPlansSize(states, plans, now, blocks + [b], p.speakers, p.period);
    forall l, n | 0 <= l < p.speakers && 0 <= n < p.period
      ensures output[l, n] == R.Sum(p.objects, PlannedTerm(plans, now, blocks, b, l, n, p.speakers, p.period))
    {
      PlannedMixIsSum(plans, now, blocks, b, l, n, p.speakers, p.period, p.objects);
      MixIsPlanned(states, plans, now, blocks, b, l, n, p.speakers, p.period, p.objects);
    }
  }

  lemma SplitFit(blocks: seq<Block>, b: Block, objects: nat, speakers: nat, period: nat)
    requires AllFit(blocks + [b], objects, speakers, period)
    ensures AllFit(blocks, objects, speakers, period) && Fits(b, objects, speakers, period)
  {
    hide Fits;
    assert (blocks + [b])[|blocks|] == b;
    forall i | 0 <= i < |blocks| ensures Fits(blocks[i], objects, speakers, period) {
      assert (blocks + [b])[i] == blocks[i];
    }
  }

  lemma OnPlansSize(states: seq<Obj>, plans: seq<Plan>, now: nat, blocks: seq<Block>, speakers: nat, period: nat)
    requires AllFit(blocks, |states|, speakers, period) && OnPlans(states, plans, now, blocks, speakers, period)
    ensures |plans| == |states|
  {}

  // ---- bounds ----

  /** All gains asked for in a call lie between lo and hi. */
  ghost predicate AsksWithin(b: Block, lo: real, hi: real) {
    b.changed ==> forall o :: 0 <= o < |b.gains| ==> InHull(b.gains[o], lo, hi)
  }

  ghost predicate MessagesWithin(evs: seq<Event>, lo: real, hi: real) {
    forall i :: 0 <= i < |evs| && evs[i].Msg? ==> InHull(evs[i].gains, lo, hi)
  }

  lemma {:induction false} EventsWithin(blocks: seq<Block>, o: nat, objects: nat, speakers: nat, period: nat,
                                        lo: real, hi: real)
    requires AllFit(blocks, objects, speakers, period) && o < objects
    requires forall i :: 0 <= i < |blocks| ==> AsksWithin(blocks[i], lo, hi)
    ensures MessagesWithin(Events(blocks, o, objects, speakers, period), lo, hi)
  {
    hide LegalEvent, InHull;
    if blocks != [] {
      var init, b := blocks[..|blocks| - 1], blocks[|blocks| - 1];
      EventsWithin(init, o, objects, speakers, period, lo, hi);
      assert Fits(b, objects, speakers, period) && AsksWithin(b, lo, hi);
    }
  }

  /** No gain heard in a run leaves the range that the initial gains and those asked for span. */
  lemma HeardWithin(s: Obj, now: nat, blocks: seq<Block>, b: Block, o: nat, n: nat, l: nat, objects: nat,
                    speakers: nat, period: nat, lo: real, hi: real)
    requires Inv(s, now, speakers) && HullInv(s, lo, hi)
    requires AllFit(blocks, objects, speakers, period) && Fits(b, objects, speakers, period)
    requires o < objects && n <= period && l < speakers && TimeAfter(now, |blocks| + 1, period) < INFINITY
    requires AsksWithin(b, lo, hi) && forall i :: 0 <= i < |blocks| ==> AsksWithin(blocks[i], lo, hi)
    ensures lo <= HeardGain(s, now, EventsUpTo(blocks, b, o, n, objects, speakers, period), l, speakers) <= hi
  {
    hide LegalRun, LegalEvent, Inv, HullInv, InHull, RunObj, Clock, Applied, Events;
    UpToLegal(s, now, blocks, b, o, n, objects, speakers, period);
    EventsWithin(blocks, o, objects, speakers, period, lo, hi);
    RunStaysInHull(s, now, EventsUpTo(blocks, b, o, n, objects, speakers, period), speakers, lo, hi);
  }

  // k summands, none larger than x.
  function UpperBound(k: nat, x: real): real { if k == 0 then 0.0 else UpperBound(k - 1, x) + x }

  lemma {:induction false} UpperBoundIs(k: nat, x: real)
    ensures UpperBound(k, x) == (k as real) * x
  {
    if k > 0 {
      UpperBoundIs(k - 1, x);
      assert (k as real) * x == ((k - 1) as real) * x + x;
    }
  }

  lemma ProductWithin(c: real, x: real, g: real, a: real)
    requires -g <= c <= g && -a <= x <= a
    ensures -(g * a) <= c * x <= g * a
  {
    NonNegativeProduct(g - c, a + x);
    NonNegativeProduct(g + c, a - x);
    NonNegativeProduct(g - c, a - x);
    NonNegativeProduct(g + c, a + x);
  }

  lemma ProductAdds(c: real, s: real, onto: real, bound: real, g: real, a: real, x: real)
    requires -g <= c <= g && -a <= s <= a && x == g * a && -bound <= onto <= bound
    ensures -(bound + x) <= MulAdd(c, s, onto) <= bound + x
  {
    ProductWithin(c, s, g, a);
  }

  lemma {:induction false} MixWithinBound(states: seq<Obj>, now: nat, blocks: seq<Block>, b: Block, l: nat, n: nat,
                                     speakers: nat, period: nat, k: nat, g: real, a: real, x: real)
    requires AllFit(blocks, |states|, speakers, period) && Fits(b, |states|, speakers, period)
    requires x == g * a
    requires k <= |states| && n < period && l < speakers && TimeAfter(now, |blocks| + 1, period) < INFINITY
    requires forall o :: 0 <= o < |states| ==> Inv(states[o], now, speakers) && HullInv(states[o], -g, g)
    requires AsksWithin(b, -g, g) && forall i :: 0 <= i < |blocks| ==> AsksWithin(blocks[i], -g, g)
    requires forall o :: 0 <= o < |states| ==> -a <= b.input[o][n] <= a
    ensures -UpperBound(k, x) <= RunMix(states, now, blocks, b, l, n, speakers, period, k) <= UpperBound(k, x)
    decreases k
  {
    hide LegalEvent, Inv, HullInv, HeardGain, Events, AsksWithin, MulAdd;
    if k > 0 {
      MixWithinBound(states, now, blocks, b, l, n, speakers, period, k - 1, g, a, x);
      HeardWithin(states[k - 1], now, blocks, b, k - 1, n, l, |states|, speakers, period, -g, g);
      ProductAdds(HeardGain(states[k - 1], now, EventsUpTo(blocks, b, k - 1, n, |states|, speakers, period), l,
                            speakers), b.input[k - 1][n],
                  RunMix(states, now, blocks, b, l, n, speakers, period, k - 1), UpperBound(k - 1, x), g, a, x);
    }
  }

  /** Outputs are bounded over every run: with gains up to g and samples up to a in size, no output
      sample is larger than g * a for each object. */
  lemma MixWithin(states: seq<Obj>, now: nat, blocks: seq<Block>, b: Block, l: nat, n: nat,
                  speakers: nat, period: nat, k: nat, g: real, a: real)
    requires AllFit(blocks, |states|, speakers, period) && Fits(b, |states|, speakers, period)
    requires k <= |states| && n < period && l < speakers && TimeAfter(now, |blocks| + 1, period) < INFINITY
    requires forall o :: 0 <= o < |states| ==> Inv(states[o], now, speakers) && HullInv(states[o], -g, g)
    requires AsksWithin(b, -g, g) && forall i :: 0 <= i < |blocks| ==> AsksWithin(blocks[i], -g, g)
    requires forall o :: 0 <= o < |states| ==> -a <= b.input[o][n] <= a
    ensures -((k as real) * (g * a)) <= RunMix(states, now, blocks, b, l, n, speakers, period, k) <=
            (k as real) * (g * a)
  {
    hide LegalEvent, Inv, HullInv, HeardGain, Events, AsksWithin, RunMix, InHull;
    UpperBoundIs(k, g * a);
    MixWithinBound(states, now, blocks, b, l, n, speakers, period, k, g, a, g * a);
  }
}
