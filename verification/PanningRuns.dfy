/** Whole runs of the panning component: successive process calls, with and without messages. */
module PanningRuns {
  import opened PanningModel
  import opened PanningGainMatrices
  import R = RealSums

  /** What one process call is given. */
  datatype Block = Block(changed: bool, starts: seq<nat>, durations: seq<nat>, gains: seq<Gains>, input: seq<seq<real>>)

  ghost predicate Fits(b: Block, objects: nat, speakers: nat, period: nat) {
    && |b.starts| == |b.durations| == |b.gains| == |b.input| == objects
    && (forall o :: 0 <= o < objects ==> LegalEvent(Msg(b.starts[o], b.durations[o], b.gains[o]), speakers))
    && (forall o :: 0 <= o < objects ==> |b.input[o]| == period)
  }

  ghost predicate AllFit(blocks: seq<Block>, objects: nat, speakers: nat, period: nat) {
    forall i :: 0 <= i < |blocks| ==> Fits(blocks[i], objects, speakers, period)
  }

  function TimeAfter(now: nat, k: nat, period: nat): nat {
    if k == 0 then now else TimeAfter(now, k - 1, period) + period
  }

  lemma {:induction false} TimeGrows(now: nat, j: nat, k: nat, period: nat)
    requires j <= k
    ensures TimeAfter(now, j, period) <= TimeAfter(now, k, period)
  {
    if j < k { TimeGrows(now, j, k - 1, period); }
  }

  /** The message of a call for object o, if there is one. */
  function MessageOf(b: Block, o: nat): seq<Event>
    requires o < |b.starts| == |b.durations| == |b.gains|
  {
    if b.changed then [Msg(b.starts[o], b.durations[o], b.gains[o])] else []
  }

  /** All events of object o in the calls of a run. */
  ghost function Events(blocks: seq<Block>, o: nat, objects: nat, speakers: nat, period: nat): seq<Event>
    requires AllFit(blocks, objects, speakers, period) && o < objects
  {
    if blocks == [] then []
    else
      var init, b := blocks[..|blocks| - 1], blocks[|blocks| - 1];
      assert Fits(b, objects, speakers, period);
      Events(init, o, objects, speakers, period) + (MessageOf(b, o) + Samples(period))
  }

  /** The gain loudspeaker l of an object gets for the sample after a list of events. */
  ghost function HeardGain(s: Obj, now: nat, evs: seq<Event>, l: nat, speakers: nat): real {
    if Inv(s, now, speakers) && LegalRun(evs, now, speakers) && l < speakers
    then Applied(RunObj(s, now, evs, speakers), l, Clock(now, evs)) else 0.0
  }

  /** Sample n of loudspeaker l in a call after a run: the first k objects' samples under the gains
      their events alone prescribe. */
  ghost function RunMix(states: seq<Obj>, now: nat, blocks: seq<Block>, b: Block, l: nat, n: nat,
                        speakers: nat, period: nat, k: nat): real
    requires AllFit(blocks, |states|, speakers, period) && Fits(b, |states|, speakers, period)
    requires k <= |states| && n < period
  {
    if k == 0 then 0.0
    else
      var evs := Events(blocks, k - 1, |states|, speakers, period) + (MessageOf(b, k - 1) + Samples(n));
      MulAdd(HeardGain(states[k - 1], now, evs, l, speakers), b.input[k - 1][n],
             RunMix(states, now, blocks, b, l, n, speakers, period, k - 1))
  }

  /** What object o contributes: its sample times the gain its events prescribe. */
  ghost function HeardTerm(states: seq<Obj>, now: nat, blocks: seq<Block>, b: Block, l: nat, n: nat,
                           speakers: nat, period: nat): int -> real
    requires AllFit(blocks, |states|, speakers, period) && Fits(b, |states|, speakers, period) && n < period
  {
    o => if 0 <= o < |states|
         then HeardGain(states[o], now, Events(blocks, o, |states|, speakers, period) + (MessageOf(b, o) + Samples(n)),
                        l, speakers) * b.input[o][n]
         else 0.0
  }

  lemma {:induction false} RunMixIsSum(states: seq<Obj>, now: nat, blocks: seq<Block>, b: Block, l: nat, n: nat,
                                       speakers: nat, period: nat, k: nat)
    requires AllFit(blocks, |states|, speakers, period) && Fits(b, |states|, speakers, period)
    requires k <= |states| && n < period
    ensures RunMix(states, now, blocks, b, l, n, speakers, period, k) ==
      R.Sum(k, HeardTerm(states, now, blocks, b, l, n, speakers, period))
    decreases k
  {
    hide Fits, HeardGain, Events;
    FitsBounds(b, |states|, speakers, period);
    if k > 0 { RunMixIsSum(states, now, blocks, b, l, n, speakers, period, k - 1); }
  }

  // One more call after a run, for one object: n samples of it.
  lemma OneMoreCall(s: Obj, now: nat, evs: seq<Event>, t: nat, b: Block, o: nat, n: nat, objects: nat,
                    speakers: nat, period: nat)
    requires Inv(s, now, speakers) && LegalRun(evs, now, speakers) && Clock(now, evs) == t
    requires Fits(b, objects, speakers, period) && o < objects && t + n < INFINITY
    ensures Clock(now, evs + (MessageOf(b, o) + Samples(n))) == t + n
    ensures LegalRun(evs + (MessageOf(b, o) + Samples(n)), now, speakers)
    ensures LegalRun(MessageOf(b, o) + Samples(n), t, speakers)
    ensures RunObj(s, now, evs + (MessageOf(b, o) + Samples(n)), speakers) ==
            RunObj(RunObj(s, now, evs, speakers), t, MessageOf(b, o) + Samples(n), speakers)
  {
    hide Inv, LegalRun, LegalEvent, RunObj;
    BlockRun(RunObj(s, now, evs, speakers), t, MessageOf(b, o), n, speakers);
    RunAppend(s, now, evs, MessageOf(b, o) + Samples(n), speakers);
  }

  /** A caller: process call after process call. Every object goes through the run its events
      describe. */
  method Perform(p: PanningGainMatrix, now: nat, blocks: seq<Block>, output: array2<real>)
    requires p.Valid(now) && AllFit(blocks, p.objects, p.speakers, p.period)
    requires TimeAfter(now, |blocks|, p.period) < INFINITY
    requires output !in p.Repr && output.Length0 == p.speakers && output.Length1 == p.period
    modifies p.Repr, output
    ensures p.Valid(TimeAfter(now, |blocks|, p.period))
    ensures forall o :: 0 <= o < p.objects ==>
      var evs := Events(blocks, o, p.objects, p.speakers, p.period);
      && Inv(old(p.Object(o)), now, p.speakers) && LegalRun(evs, now, p.speakers)
      && Clock(now, evs) == TimeAfter(now, |blocks|, p.period)
      && p.Object(o) == RunObj(old(p.Object(o)), now, evs, p.speakers)
  {
    hide Inv, LegalRun, LegalEvent, RunObj, Fits, Clock, Mixdown;
    ghost var states := p.Objects();
    NothingRun(states, now, p.speakers);
    for k := 0 to |blocks|
      invariant p.Valid(TimeAfter(now, k, p.period))
      invariant forall o :: 0 <= o < p.objects ==>
        HasRun(p.Object(o), states[o], now, Events(blocks[..k], o, p.objects, p.speakers, p.period),
               TimeAfter(now, k, p.period), p.speakers)
    {
      var t := TimeAfter(now, k, p.period);
      TimeGrows(now, k + 1, |blocks|, p.period);
      ghost var before := p.Objects();
      var b := blocks[k];
      FitsBounds(b, p.objects, p.speakers, p.period);
      p.Process(t, b.changed, b.starts, b.durations, b.gains, b.input, output);
      assert blocks[..k + 1][..k] == blocks[..k];
      forall o | 0 <= o < p.objects
        ensures HasRun(p.Object(o), states[o], now, Events(blocks[..k + 1], o, p.objects, p.speakers, p.period),
                       t + p.period, p.speakers)
      {
        OneMoreCall(states[o], now, Events(blocks[..k], o, p.objects, p.speakers, p.period), t, b, o, p.period,
                    p.objects, p.speakers, p.period);
      }
    }
    assert blocks[..|blocks|] == blocks;
  }

  // r is what s has become after the events evs, which took until time t.
  ghost predicate HasRun(r: Obj, s: Obj, now: nat, evs: seq<Event>, t: nat, speakers: nat) {
    Inv(s, now, speakers) && LegalRun(evs, now, speakers) && Clock(now, evs) == t && r == RunObj(s, now, evs, speakers)
  }

  lemma NothingRun(states: seq<Obj>, now: nat, speakers: nat)
    requires forall o :: 0 <= o < |states| ==> Inv(states[o], now, speakers)
    ensures forall o :: 0 <= o < |states| ==> HasRun(states[o], states[o], now, [], now, speakers)
  {
    if states != [] { InvBounds(states[0], now, speakers); }
  }

  lemma FitsBounds(b: Block, objects: nat, speakers: nat, period: nat)
    requires Fits(b, objects, speakers, period)
    ensures |b.starts| == |b.durations| == |b.gains| == |b.input| == objects
    ensures forall o :: 0 <= o < objects ==> LegalEvent(Msg(b.starts[o], b.durations[o], b.gains[o]), speakers)
    ensures forall o :: 0 <= o < objects ==> |b.input[o]| == period
  {
    hide LegalEvent;
  }

  // The gain at sample n of the next call, from the object's state before it and from the run.
  lemma GainOfRun(s: Obj, now: nat, evs: seq<Event>, t: nat, r: Obj, b: Block, o: nat, n: nat, l: nat,
                  objects: nat, speakers: nat, period: nat)
    requires HasRun(r, s, now, evs, t, speakers) && Inv(r, t, speakers)
    requires Fits(b, objects, speakers, period) && o < objects && t + n < INFINITY && l < speakers
    ensures var q := if b.changed then InformedObject(r, t, Msg(b.starts[o], b.durations[o], b.gains[o]), speakers)
      else r;
      && |q.previousGains| == speakers && Inv(q, t, speakers)
      && GainAt(q, t, n, l) == HeardGain(s, now, evs + (MessageOf(b, o) + Samples(n)), l, speakers)
  {
    hide Inv, LegalRun, LegalEvent, RunObj, Message, Iter, Applied, Clock;
    FitsBounds(b, objects, speakers, period);
    OneMoreCall(s, now, evs, t, b, o, n, objects, speakers, period);
    BlockRun(r, t, MessageOf(b, o), n, speakers);
    var q := if b.changed then InformedObject(r, t, Msg(b.starts[o], b.durations[o], b.gains[o]), speakers) else r;
    InvBounds(q, t, speakers);
  }

  lemma {:induction false} MixOfRun(states: seq<Obj>, held: seq<Obj>, qs: seq<Obj>, now: nat, blocks: seq<Block>,
                                    b: Block,
                                    t: nat, l: nat, n: nat, speakers: nat, period: nat, k: nat)
    requires AllFit(blocks, |states|, speakers, period) && Fits(b, |states|, speakers, period)
    requires k <= |states| == |held| == |qs| && n < period && l < speakers && t + n < INFINITY
    requires forall o :: 0 <= o < |states| ==> Inv(held[o], t, speakers)
    requires forall o :: 0 <= o < |states| ==>
      HasRun(held[o], states[o], now, Events(blocks, o, |states|, speakers, period), t, speakers)
    requires forall o :: 0 <= o < |states| ==> |qs[o].previousGains| == speakers && Inv(qs[o], t, speakers)
    requires |b.starts| == |b.durations| == |b.gains| == |b.input| == |states|
    requires forall o :: 0 <= o < |states| ==> LegalEvent(Msg(b.starts[o], b.durations[o], b.gains[o]), speakers)
    requires forall o :: 0 <= o < |states| ==>
      qs[o] == if b.changed then InformedObject(held[o], t, Msg(b.starts[o], b.durations[o], b.gains[o]), speakers)
        else held[o]
    requires forall o :: 0 <= o < |states| ==> |b.input[o]| == period
    ensures Mixdown(qs, b.input, t, l, n, k) == RunMix(states, now, blocks, b, l, n, speakers, period, k)
    decreases k
  {
    hide Inv, LegalEvent, HasRun, Message, GainAt, HeardGain, Fits, MulAdd, InformedObject;
    if k > 0 {
      MixOfRun(states, held, qs, now, blocks, b, t, l, n, speakers, period, k - 1);
      GainOfRun(states[k - 1], now, Events(blocks, k - 1, |states|, speakers, period), t, held[k - 1], b, k - 1, n, l,
                |states|, speakers, period);
    }
  }

  /** Whole runs of the component: after any calls, every output sample of the next one is the mix
      of the objects' samples under the gains that the events of the run prescribe. */
  method PerformAndProcess(p: PanningGainMatrix, now: nat, blocks: seq<Block>, b: Block, output: array2<real>)
    requires p.Valid(now) && AllFit(blocks, p.objects, p.speakers, p.period) && Fits(b, p.objects, p.speakers, p.period)
    requires TimeAfter(now, |blocks| + 1, p.period) < INFINITY
    requires output !in p.Repr && output.Length0 == p.speakers && output.Length1 == p.period
    modifies p.Repr, output
    ensures p.Valid(TimeAfter(now, |blocks| + 1, p.period))
    ensures forall l, n :: 0 <= l < p.speakers && 0 <= n < p.period ==>
      output[l, n] == RunMix(old(p.Objects()), now, blocks, b, l, n, p.speakers, p.period, p.objects)
        == R.Sum(p.objects, HeardTerm(old(p.Objects()), now, blocks, b, l, n, p.speakers, p.period))
  {
    hide Inv, LegalRun, LegalEvent, RunObj, Fits, Clock, Mixdown, RunMix, Events, InformedObject;
    ghost var states := p.Objects();
    var t := TimeAfter(now, |blocks|, p.period);
    Perform(p, now, blocks, output);
    FitsBounds(b, p.objects, p.speakers, p.period);
    ghost var held := p.Objects();
    ghost var qs := if b.changed then Informed(held, t, b.starts, b.durations, b.gains, p.speakers) else held;
    forall o | 0 <= o < p.objects ensures |held[o].previousGains| == p.speakers && |qs[o].previousGains| == p.speakers {
      InvBounds(held[o], t, p.speakers);
      InvBounds(qs[o], t, p.speakers);
    }
    p.Process(t, b.changed, b.starts, b.durations, b.gains, b.input, output);
    forall l, n | 0 <= l < p.speakers && 0 <= n < p.period
      ensures output[l, n] == RunMix(states, now, blocks, b, l, n, p.speakers, p.period, p.objects)
      ensures output[l, n] == R.Sum(p.objects, HeardTerm(states, now, blocks, b, l, n, p.speakers, p.period))
    {
      RunMixIsSum(states, now, blocks, b, l, n, p.speakers, p.period, p.objects);
      MixOfRun(states, held, qs, now, blocks, b, t, l, n, p.speakers, p.period, p.objects);
    }
  }
}
