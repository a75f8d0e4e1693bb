/**
 What the crossfading convolver is meant to do, on values: the fade curves, the state kept per
 filter index, and whole runs of calls, including changes of filters and routings, described by
 their history alone.
 */
module CrossfadeModel {
  import opened Arithmetic
  import opened Complex
  import opened PartitionedFir
  import opened RoutingTables
  import R = RealSums

  /** Row 0 of the crossfading ramps at sample i after the start of a transition. */
  function FadeIn(T: nat, i: nat): (r: real) {
    if i < T then ((i + 1) as real) / (T as real) else 1.0
  }

  /** Row 1. */
  function FadeOut(T: nat, i: nat): real {
    if i < T then 1.0 - ((i + 1) as real) / (T as real) else 0.0
  }

  /** The two rows add up to one, and both stay between zero and one. */
  lemma FadeBounds(T: nat, i: nat)
    ensures FadeIn(T, i) + FadeOut(T, i) == 1.0
    ensures 0.0 <= FadeOut(T, i) <= 1.0 && 0.0 < FadeIn(T, i) <= 1.0
  {
    if i < T {
      var a, b := (i + 1) as real, T as real;
      assert a <= b && 0.0 < a;
      RatioBounds(a, b);
    }
  }

  lemma RatioBounds(a: real, b: real)
    requires 0.0 < a <= b
    ensures 0.0 < a / b <= 1.0
  {}

  /** A transition of T samples fades in by the same step at every sample, the first one included,
      and is complete with its last one. */
  lemma FadeSteps(T: nat, i: nat)
    ensures T > 0 ==> FadeIn(T, 0) == 1.0 / (T as real) && FadeIn(T, T - 1) == 1.0
    ensures i + 1 < T ==> FadeIn(T, i + 1) - FadeIn(T, i) == 1.0 / (T as real)
    ensures i >= T ==> FadeIn(T, i) == 1.0 && FadeOut(T, i) == 0.0
  {
    if i + 1 < T { StepOf((i + 1) as real, T as real); }
  }

  lemma StepOf(a: real, b: real)
    requires b != 0.0
    ensures (a + 1.0) / b - a / b == 1.0 / b
  {}

  /** mNumRampBlocks */
  function RampBlocks(T: nat, B: nat): (k: nat)
    requires B >= 1
    ensures k >= 1 && T <= (k - 1) * B
    ensures k >= 2 ==> (k - 2) * B < T
  {
    var q := (T + B - 1) / B;
    var r := (T + B - 1) % B;
    assert q * B == T + B - 1 - r;
    q + 1
  }

  /** Per filter index: the response faded in, the one faded out, and the block of the ramp. */
  datatype FilterState = FilterState(newIr: seq<real>, oldIr: seq<real>, ramp: nat)

  datatype Model = Model(inputs: seq<seq<real>>, filters: seq<FilterState>, routing: seq<Routing>)

  /** The calls of a run: process, setImpulseResponse, setTransformedFilter with the spectra of a
      response, setRoutingEntry, clearRoutingTable and initRoutingTable. */
  datatype Event =
    | Process(rows: seq<seq<real>>)
    | SetIr(filter: nat, ir: seq<real>, startTransition: bool)
    | SetSpectra(filter: nat, ir: seq<real>, startTransition: bool, spectra: seq<Cx>)
    | SetRouting(entry: Routing)
    | ClearRoutings
    | InitRoutings(list: seq<Routing>)

  ghost predicate Legal(e: Event, channels: nat, filters: nat, B: nat) {
    match e
    case Process(rows) => |rows| == channels && forall ch :: 0 <= ch < channels ==> |rows[ch]| == B
    case SetIr(f, _, _) => f < filters
    case SetSpectra(f, _, _, _) => f < filters
    case _ => true
  }

  /** The call sets a response for filter index f. */
  predicate SetsFilter(e: Event, f: nat) {
    (e.SetIr? || e.SetSpectra?) && e.filter == f
  }

  function Feed(inputs: seq<seq<real>>, rows: seq<seq<real>>): (r: seq<seq<real>>)
    requires |rows| == |inputs|
    ensures |r| == |inputs| && forall ch :: 0 <= ch < |inputs| ==> r[ch] == inputs[ch] + rows[ch]
  {
    seq(|inputs|, ch requires 0 <= ch < |inputs| => inputs[ch] + rows[ch])
  }

  function Tick(s: FilterState, last: nat): FilterState {
    s.(ramp := if s.ramp + 1 < last then s.ramp + 1 else last)
  }

  function TickAll(filters: seq<FilterState>, last: nat): (r: seq<FilterState>)
    ensures |r| == |filters| && forall f :: 0 <= f < |filters| ==> r[f] == Tick(filters[f], last)
  {
    seq(|filters|, f requires 0 <= f < |filters| => Tick(filters[f], last))
  }

  function SwitchTo(s: FilterState, ir: seq<real>, start: bool): FilterState {
    FilterState(ir, s.newIr, if start then 0 else s.ramp)
  }

  /** One call: the state after it. */
  ghost function Step(m: Model, e: Event, lim: Limits, B: nat, last: nat): (r: Model)
    requires Legal(e, |m.inputs|, |m.filters|, B)
    ensures |r.inputs| == |m.inputs| && |r.filters| == |m.filters|
  {
    match e
    case Process(rows) => Model(Feed(m.inputs, rows), TickAll(m.filters, last), m.routing)
    case SetIr(f, ir, start) => m.(filters := m.filters[f := SwitchTo(m.filters[f], ir, start)])
    case SetSpectra(f, ir, start, _) => m.(filters := m.filters[f := SwitchTo(m.filters[f], ir, start)])
    case _ => m.(routing := TableStep(m.routing, e, lim))
  }

  /** One call: the routing table after it. */
  ghost function TableStep(rs: seq<Routing>, e: Event, lim: Limits): seq<Routing> {
    match e
    case SetRouting(r) => SetEntry(rs, r, lim)
    case ClearRoutings => []
    case InitRoutings(list) => Installed(list, lim)
    case _ => rs
  }

  ghost predicate LegalRun(evs: seq<Event>, channels: nat, filters: nat, B: nat) {
    forall i :: 0 <= i < |evs| ==> Legal(evs[i], channels, filters, B)
  }

  ghost function Run(m: Model, evs: seq<Event>, lim: Limits, B: nat, last: nat): (r: Model)
    requires LegalRun(evs, |m.inputs|, |m.filters|, B)
    ensures |r.inputs| == |m.inputs| && |r.filters| == |m.filters|
  {
    if evs == [] then m else Step(Run(m, evs[..|evs| - 1], lim, B, last), evs[|evs| - 1], lim, B, last)
  }

  /** The routing table after a run: the table calls alone determine it. */
  ghost function TableAfter(rs: seq<Routing>, evs: seq<Event>, lim: Limits): seq<Routing> {
    if evs == [] then rs else TableStep(TableAfter(rs, evs[..|evs| - 1], lim), evs[|evs| - 1], lim)
  }

  /** Whenever process is called, the table names filters of one bank only. */
  ghost predicate UsableRun(rs: seq<Routing>, evs: seq<Event>, lim: Limits, filters: nat) {
    evs == [] ||
    var init, e := evs[..|evs| - 1], evs[|evs| - 1];
    && UsableRun(rs, init, lim, filters)
    && (e.Process? ==> FiltersBelow(TableAfter(rs, init, lim), filters))
  }

  lemma {:induction false} UsableAt(rs: seq<Routing>, evs: seq<Event>, k: nat, lim: Limits, filters: nat)
    requires UsableRun(rs, evs, lim, filters) && k < |evs| && evs[k].Process?
    ensures FiltersBelow(TableAfter(rs, evs[..k], lim), filters)
  {
    hide TableAfter, FiltersBelow;
    if k < |evs| - 1 {
      UsableAt(rs, evs[..|evs| - 1], k, lim, filters);
      assert evs[..|evs| - 1][..k] == evs[..k];
    }
  }

  lemma {:induction false} RunTable(m: Model, evs: seq<Event>, lim: Limits, B: nat, last: nat)
    requires LegalRun(evs, |m.inputs|, |m.filters|, B)
    ensures Run(m, evs, lim, B, last).routing == TableAfter(m.routing, evs, lim)
  {
    hide SetEntry, Installed;
    if evs != [] { RunTable(m, evs[..|evs| - 1], lim, B, last); }
  }

  /** A response that is too long is refused. */
  predicate Refused(e: Event, maxLength: nat) {
    e.SetIr? && |e.ir| > maxLength
  }

  /** The calls of a run without those that set a response which is too long. */
  function Accepted(evs: seq<Event>, maxLength: nat): seq<Event> {
    if evs == [] then []
    else
      var init, e := evs[..|evs| - 1], evs[|evs| - 1];
      if Refused(e, maxLength) then Accepted(init, maxLength) else Accepted(init, maxLength) + [e]
  }

  lemma {:induction false} AcceptedTable(rs: seq<Routing>, evs: seq<Event>, maxLength: nat, lim: Limits)
    ensures TableAfter(rs, Accepted(evs, maxLength), lim) == TableAfter(rs, evs, lim)
  {
    hide SetEntry, Installed;
    if evs != [] {
      var init, e := evs[..|evs| - 1], evs[|evs| - 1];
      AcceptedTable(rs, init, maxLength, lim);
      assert (Accepted(init, maxLength) + [e])[..|Accepted(init, maxLength)|] == Accepted(init, maxLength);
    }
  }

  lemma RunOneMore(m: Model, evs: seq<Event>, e: Event, lim: Limits, B: nat, last: nat)
    requires LegalRun(evs, |m.inputs|, |m.filters|, B) && Legal(e, |m.inputs|, |m.filters|, B)
    ensures LegalRun(evs + [e], |m.inputs|, |m.filters|, B)
    ensures Run(m, evs + [e], lim, B, last) == Step(Run(m, evs, lim, B, last), e, lim, B, last)
  {
    hide Step;
    assert (evs + [e])[..|evs|] == evs;
  }

  /** r is what m becomes by the calls evs, of which the refused ones change nothing. */
  ghost predicate RunsTo(m: Model, evs: seq<Event>, r: Model, maxLength: nat, lim: Limits, B: nat, last: nat) {
    && LegalRun(Accepted(evs, maxLength), |m.inputs|, |m.filters|, B)
    && r == Run(m, Accepted(evs, maxLength), lim, B, last)
  }

  lemma RunsToItself(m: Model, maxLength: nat, lim: Limits, B: nat, last: nat)
    ensures RunsTo(m, [], m, maxLength, lim, B, last)
  {}

  lemma RunsToNext(m: Model, evs: seq<Event>, k: nat, r: Model, maxLength: nat, lim: Limits, B: nat, last: nat)
    requires k < |evs| && LegalRun(evs, |m.inputs|, |m.filters|, B)
    requires RunsTo(m, evs[..k], r, maxLength, lim, B, last)
    ensures Legal(evs[k], |r.inputs|, |r.filters|, B)
    ensures RunsTo(m, evs[..k + 1], if Refused(evs[k], maxLength) then r else Step(r, evs[k], lim, B, last),
                   maxLength, lim, B, last)
  {
    hide Legal, Step, Refused;
    assert evs[..k + 1][..k] == evs[..k];
    assert Legal(evs[k], |m.inputs|, |m.filters|, B);
    if !Refused(evs[k], maxLength) { RunOneMore(m, Accepted(evs[..k], maxLength), evs[k], lim, B, last); }
  }

  lemma RunsToIs(m: Model, evs: seq<Event>, r: Model, maxLength: nat, lim: Limits, B: nat, last: nat)
    requires RunsTo(m, evs, r, maxLength, lim, B, last)
    ensures LegalRun(Accepted(evs, maxLength), |m.inputs|, |m.filters|, B)
    ensures r == Run(m, Accepted(evs, maxLength), lim, B, last)
  {}

  lemma RunsToTable(m: Model, evs: seq<Event>, r: Model, maxLength: nat, lim: Limits, B: nat, last: nat)
    requires RunsTo(m, evs, r, maxLength, lim, B, last)
    ensures r.routing == TableAfter(m.routing, evs, lim)
  {
    RunTable(m, Accepted(evs, maxLength), lim, B, last);
    AcceptedTable(m.routing, evs, maxLength, lim);
  }

  // ---- the same, read off the history ----

  /** Everything ever fed to a channel. */
  function Heard(evs: seq<Event>, ch: nat): seq<real> {
    if evs == [] then []
    else
      var e := evs[|evs| - 1];
      Heard(evs[..|evs| - 1], ch) + if e.Process? && ch < |e.rows| then e.rows[ch] else []
  }

  /** The responses set for a filter index, in order. */
  function Sets(evs: seq<Event>, f: nat): seq<seq<real>> {
    if evs == [] then []
    else
      var e := evs[|evs| - 1];
      Sets(evs[..|evs| - 1], f) + if SetsFilter(e, f) then [e.ir] else []
  }

  /** process calls since the last transition of f was started; -1 if none was. */
  function BlocksSince(evs: seq<Event>, f: nat): int {
    if evs == [] then -1
    else
      var e := evs[|evs| - 1];
      var b := BlocksSince(evs[..|evs| - 1], f);
      if SetsFilter(e, f) && e.startTransition then 0
      else if e.Process? && b >= 0 then b + 1
      else b
  }

  /** The fade-in factor of sample n of the block processed after the calls evs: it depends on
      the time since the last started transition only, and is one if there was none. */
  function FadeAfter(evs: seq<Event>, f: nat, T: nat, B: nat, n: nat): real {
    var b := BlocksSince(evs, f);
    if b < 0 then 1.0 else FadeIn(T, b * B + n)
  }

  // ---- what these say of the single calls ----

  /** The response heard in full at the end is the one set last, by whichever call. */
  lemma {:induction false} LastSet(evs: seq<Event>, f: nat, i: nat)
    requires i < |evs| && (evs[i].SetIr? || evs[i].SetSpectra?) && evs[i].filter == f
    requires forall j :: i < j < |evs| ==> !((evs[j].SetIr? || evs[j].SetSpectra?) && evs[j].filter == f)
    ensures Sets(evs, f) == Sets(evs[..i], f) + [evs[i].ir]
    decreases |evs|
  {
    if i < |evs| - 1 {
      var init := evs[..|evs| - 1];
      LastSet(init, f, i);
      assert init[..i] == evs[..i];
    }
  }

  lemma {:induction false} NoneSet(evs: seq<Event>, f: nat)
    requires forall j :: 0 <= j < |evs| ==> !((evs[j].SetIr? || evs[j].SetSpectra?) && evs[j].filter == f)
    ensures Sets(evs, f) == [] && BlocksSince(evs, f) == -1
  {
    if evs != [] { NoneSet(evs[..|evs| - 1], f); }
  }

  function ProcessCalls(evs: seq<Event>): nat {
    if evs == [] then 0 else ProcessCalls(evs[..|evs| - 1]) + if evs[|evs| - 1].Process? then 1 else 0
  }

  /** The time a fade has been running is that of the process calls since the last call that started
      it. */
  lemma {:induction false} SinceStart(evs: seq<Event>, f: nat, i: nat)
    requires i < |evs| && (evs[i].SetIr? || evs[i].SetSpectra?) && evs[i].filter == f && evs[i].startTransition
    requires forall j :: i < j < |evs| ==>
      !((evs[j].SetIr? || evs[j].SetSpectra?) && evs[j].filter == f && evs[j].startTransition)
    ensures BlocksSince(evs, f) == ProcessCalls(evs[i + 1..])
    decreases |evs|
  {
    if i == |evs| - 1 {
      assert evs[i + 1..] == [];
    } else {
      var init := evs[..|evs| - 1];
      SinceStart(init, f, i);
      assert evs[i + 1..][..|evs| - i - 2] == init[i + 1..];
    }
  }

  /** A channel hears the blocks of the process calls one after the other: sample n of the block of
      call i comes after those of the process calls before it. */
  lemma {:induction false} HeardAt(evs: seq<Event>, ch: nat, channels: nat, filters: nat, B: nat, i: nat, n: nat)
    requires LegalRun(evs, channels, filters, B) && ch < channels
    requires i < |evs| && evs[i].Process? && n < B
    ensures |Heard(evs, ch)| == ProcessCalls(evs) * B
    ensures 0 <= ProcessCalls(evs[..i]) * B + n < |Heard(evs, ch)|
    ensures Legal(evs[i], channels, filters, B) && Heard(evs, ch)[ProcessCalls(evs[..i]) * B + n] == evs[i].rows[ch][n]
    decreases |evs|
  {
    assert Legal(evs[i], channels, filters, B);
    var init, e := evs[..|evs| - 1], evs[|evs| - 1];
    HeardLength(init, ch, channels, filters, B);
    HeardLength(evs, ch, channels, filters, B);
    if i < |evs| - 1 {
      HeardAt(init, ch, channels, filters, B, i, n);
      assert init[..i] == evs[..i];
    } else {
      MulMono(0, ProcessCalls(init), B);
    }
  }

  lemma {:induction false} HeardLength(evs: seq<Event>, ch: nat, channels: nat, filters: nat, B: nat)
    requires LegalRun(evs, channels, filters, B) && ch < channels
    ensures |Heard(evs, ch)| == ProcessCalls(evs) * B
  {
    if evs != [] {
      var init, e := evs[..|evs| - 1], evs[|evs| - 1];
      HeardLength(init, ch, channels, filters, B);
      assert Legal(e, channels, filters, B);
      assert (ProcessCalls(init) + 1) * B == ProcessCalls(init) * B + B;
    }
  }

  /** Everything the state knows, from the history. */
  ghost predicate MatchesHistory(m0: Model, m: Model, evs: seq<Event>, last: nat)
    requires |m.inputs| == |m0.inputs| && |m.filters| == |m0.filters|
  {
    && (forall ch :: 0 <= ch < |m.inputs| ==> m.inputs[ch] == m0.inputs[ch] + Heard(evs, ch))
    && forall f :: 0 <= f < |m.filters| ==> FilterMatches(m0.filters[f], m.filters[f], evs, f, last)
  }

  ghost predicate FilterMatches(s0: FilterState, s: FilterState, evs: seq<Event>, f: nat, last: nat) {
    var all := [s0.oldIr, s0.newIr] + Sets(evs, f);
    var b := BlocksSince(evs, f);
    && s.newIr == all[|all| - 1]
    && s.oldIr == all[|all| - 2]
    && s.ramp == if 0 <= b < last then b else last
  }

  lemma StepMatches(s0: FilterState, s: FilterState, evs: seq<Event>, e: Event, f: nat, last: nat)
    requires FilterMatches(s0, s, evs, f, last)
    ensures e.Process? ==> FilterMatches(s0, Tick(s, last), evs + [e], f, last)
    ensures SetsFilter(e, f) ==> FilterMatches(s0, SwitchTo(s, e.ir, e.startTransition), evs + [e], f, last)
    ensures !e.Process? && !SetsFilter(e, f) ==> FilterMatches(s0, s, evs + [e], f, last)
  {
    var evs' := evs + [e];
    assert evs'[..|evs'| - 1] == evs;
    var all := [s0.oldIr, s0.newIr] + Sets(evs, f);
    if SetsFilter(e, f) {
      assert [s0.oldIr, s0.newIr] + Sets(evs', f) == all + [e.ir];
    } else {
      assert Sets(evs', f) == Sets(evs, f) + [];
    }
  }

  /** Every run leaves the state its history prescribes: the last two responses set for each
      index, the input heard so far, and the ramp block counted from the last transition. */
  lemma {:induction false} RunMatchesHistory(m: Model, evs: seq<Event>, lim: Limits, B: nat, last: nat)
    requires LegalRun(evs, |m.inputs|, |m.filters|, B)
    requires forall f :: 0 <= f < |m.filters| ==> m.filters[f].ramp == last
    ensures MatchesHistory(m, Run(m, evs, lim, B, last), evs, last)
  {
    if evs != [] {
      var init, e := evs[..|evs| - 1], evs[|evs| - 1];
      RunMatchesHistory(m, init, lim, B, last);
      var r, r' := Run(m, init, lim, B, last), Run(m, evs, lim, B, last);
      assert init + [e] == evs;
      forall f | 0 <= f < |m.filters| ensures FilterMatches(m.filters[f], r'.filters[f], evs, f, last) {
        StepMatches(m.filters[f], r.filters[f], init, e, f, last);
      }
    }
  }

  /** The factor taken from the saturated ramp counter is the one the history prescribes. */
  lemma RampIsHistory(evs: seq<Event>, f: nat, T: nat, B: nat, ramp: nat, n: nat)
    requires B >= 1 && n < B
    requires var b, last := BlocksSince(evs, f), RampBlocks(T, B) - 1; ramp == if 0 <= b < last then b else last
    ensures FadeIn(T, ramp * B + n) == FadeAfter(evs, f, T, B, n)
  {
    var b, last := BlocksSince(evs, f), RampBlocks(T, B) - 1;
    if b >= last {
      MulMono(last, b, B);
    }
  }

  // ceil(T / B) process calls after the last transition started the fade is complete.
  lemma FadeEnds(evs: seq<Event>, f: nat, T: nat, B: nat, n: nat)
    requires B >= 1 && n < B
    requires BlocksSince(evs, f) < 0 || BlocksSince(evs, f) >= RampBlocks(T, B) - 1
    ensures FadeAfter(evs, f, T, B, n) == 1.0
  {
    var b := BlocksSince(evs, f);
    if b >= 0 { MulMono(RampBlocks(T, B) - 1, b, B); }
  }

  // ---- outputs ----

  /** One routing's share of sample n of the newest block. */
  function Share(r: Routing, x: seq<real>, s: FilterState, T: nat, B: nat, scale: real, n: nat): real {
    var i := s.ramp * B + n;
    FadeIn(T, i) * Output(s.newIr, x, n, B, r.gain, scale) + FadeOut(T, i) * Output(s.oldIr, x, n, B, r.gain, scale)
  }

  ghost predicate Routable(rs: seq<Routing>, channels: nat, filters: nat) {
    forall i :: 0 <= i < |rs| ==> rs[i].input < channels && rs[i].filter < filters
  }

  /** Sample n of output o: the shares of all routings that end there. */
  function Mixed(rs: seq<Routing>, m: Model, T: nat, B: nat, scale: real, o: nat, n: nat): real
    requires Routable(rs, |m.inputs|, |m.filters|)
  {
    if rs == [] then 0.0
    else
      var r := rs[|rs| - 1];
      Mixed(rs[..|rs| - 1], m, T, B, scale, o, n) +
      if r.output == o then Share(r, m.inputs[r.input], m.filters[r.filter], T, B, scale, n) else 0.0
  }

  /** The textbook output: each routing contributes gain * (r (x * h_new) + (1 - r) (x * h_old))
      with the fade r, the signal x and the responses all taken from the history. */
  function HistoryShare(r: Routing, s0: FilterState, evs: seq<Event>, rows: seq<seq<real>>, T: nat, B: nat,
                        scale: real, n: nat): real
    requires r.input < |rows|
  {
    var all := [s0.oldIr, s0.newIr] + Sets(evs, r.filter);
    var x := Heard(evs, r.input) + rows[r.input];
    var t := |x| - B + n;
    var fade := FadeAfter(evs, r.filter, T, B, n);
    r.gain * (scale * (fade * Fir(all[|all| - 1], x, t) + (1.0 - fade) * Fir(all[|all| - 2], x, t)))
  }

  /** ceil(T / B) process calls after the last transition started, a routing's share of the output
      is direct filtering with the response set last, and no other one is heard. */
  lemma TransitionEnds(r: Routing, s0: FilterState, evs: seq<Event>, rows: seq<seq<real>>, T: nat, B: nat,
                       scale: real, n: nat)
    requires B >= 1 && n < B && r.input < |rows|
    requires BlocksSince(evs, r.filter) < 0 || BlocksSince(evs, r.filter) >= RampBlocks(T, B) - 1
    ensures var all, x := [s0.newIr] + Sets(evs, r.filter), Heard(evs, r.input) + rows[r.input];
      HistoryShare(r, s0, evs, rows, T, B, scale, n) == r.gain * (scale * Fir(all[|all| - 1], x, |x| - B + n))
  {
    hide Fir, FadeAfter, Sets, Heard, BlocksSince;
    FadeEnds(evs, r.filter, T, B, n);
    var last, all := [s0.newIr] + Sets(evs, r.filter), [s0.oldIr, s0.newIr] + Sets(evs, r.filter);
    assert all[|all| - 1] == last[|last| - 1];
  }

  /** While a transition of T samples runs, b blocks after it was started, sample i of it weights the
      new response by (i + 1) / T and the old one by the rest. */
  lemma FadingShare(r: Routing, s0: FilterState, evs: seq<Event>, rows: seq<seq<real>>, T: nat, B: nat,
                    scale: real, n: nat)
    requires r.input < |rows| && BlocksSince(evs, r.filter) >= 0
    requires BlocksSince(evs, r.filter) * B + n < T && n < B
    ensures var w := ((BlocksSince(evs, r.filter) * B + n + 1) as real) / (T as real);
      var x := Heard(evs, r.input) + rows[r.input];
      var all := [s0.oldIr, s0.newIr] + Sets(evs, r.filter);
      HistoryShare(r, s0, evs, rows, T, B, scale, n) ==
        r.gain * (scale * (w * Fir(all[|all| - 1], x, |x| - B + n) + (1.0 - w) * Fir(all[|all| - 2], x, |x| - B + n)))
  {
    hide Fir, Heard, Sets, BlocksSince;
  }

  function HistoryOutput(rs: seq<Routing>, m: Model, evs: seq<Event>, rows: seq<seq<real>>,
                         T: nat, B: nat, scale: real, o: nat, n: nat): real
    requires Routable(rs, |rows|, |m.filters|)
  {
    if rs == [] then 0.0
    else
      var r := rs[|rs| - 1];
      HistoryOutput(rs[..|rs| - 1], m, evs, rows, T, B, scale, o, n) +
      if r.output == o then HistoryShare(r, m.filters[r.filter], evs, rows, T, B, scale, n) else 0.0
  }

  /** What routing i of a list adds to output o. */
  ghost function RoutingTerm(rs: seq<Routing>, m: Model, evs: seq<Event>, rows: seq<seq<real>>, T: nat, B: nat,
                             scale: real, o: nat, n: nat): int -> real
    requires Routable(rs, |rows|, |m.filters|)
  {
    i => if 0 <= i < |rs| && rs[i].output == o
         then HistoryShare(rs[i], m.filters[rs[i].filter], evs, rows, T, B, scale, n)
         else 0.0
  }

  /** The output is the sum over the routings that end there. */
  lemma {:induction false} HistoryIsSum(rs: seq<Routing>, m: Model, evs: seq<Event>, rows: seq<seq<real>>, T: nat,
                                        B: nat, scale: real, o: nat, n: nat)
    requires Routable(rs, |rows|, |m.filters|)
    ensures HistoryOutput(rs, m, evs, rows, T, B, scale, o, n) ==
      R.Sum(|rs|, RoutingTerm(rs, m, evs, rows, T, B, scale, o, n))
  {
    hide HistoryShare;
    if rs != [] {
      var init := rs[..|rs| - 1];
      HistoryIsSum(init, m, evs, rows, T, B, scale, o, n);
      R.SumCongr(|init|, RoutingTerm(init, m, evs, rows, T, B, scale, o, n),
                 RoutingTerm(rs, m, evs, rows, T, B, scale, o, n));
    }
  }

  function OneShare(r: Routing, m: Model, evs: seq<Event>, rows: seq<seq<real>>, T: nat, B: nat, scale: real,
                    o: nat, n: nat): real
    requires r.input < |rows| && r.filter < |m.filters|
  {
    if r.output == o then HistoryShare(r, m.filters[r.filter], evs, rows, T, B, scale, n) else 0.0
  }

  lemma HistoryLast(rs: seq<Routing>, r: Routing, m: Model, evs: seq<Event>, rows: seq<seq<real>>, T: nat, B: nat,
                    scale: real, o: nat, n: nat)
    requires Routable(rs + [r], |rows|, |m.filters|)
    ensures Routable(rs, |rows|, |m.filters|) && r.input < |rows| && r.filter < |m.filters|
    ensures HistoryOutput(rs + [r], m, evs, rows, T, B, scale, o, n) ==
      HistoryOutput(rs, m, evs, rows, T, B, scale, o, n) + OneShare(r, m, evs, rows, T, B, scale, o, n)
  {
    hide HistoryShare;
    assert (rs + [r])[|rs|] == r && (rs + [r])[..|rs|] == rs;
    assert forall i :: 0 <= i < |rs| ==> (rs + [r])[i] == rs[i];
  }

  // It does not matter where in the table a routing stands.
  lemma {:induction false} HistoryInsert(lower: seq<Routing>, r: Routing, upper: seq<Routing>, m: Model,
                                         evs: seq<Event>, rows: seq<seq<real>>, T: nat, B: nat, scale: real,
                                         o: nat, n: nat)
    requires Routable(lower + [r] + upper, |rows|, |m.filters|)
    ensures Routable(lower + upper, |rows|, |m.filters|) && r.input < |rows| && r.filter < |m.filters|
    ensures HistoryOutput(lower + [r] + upper, m, evs, rows, T, B, scale, o, n) ==
      HistoryOutput(lower + upper, m, evs, rows, T, B, scale, o, n) + OneShare(r, m, evs, rows, T, B, scale, o, n)
    decreases |upper|
  {
    hide HistoryShare, HistoryOutput, OneShare;
    if upper == [] {
      assert lower + [r] + upper == lower + [r] && lower + upper == lower;
      HistoryLast(lower, r, m, evs, rows, T, B, scale, o, n);
    } else {
      var init, last := upper[..|upper| - 1], upper[|upper| - 1];
      assert lower + [r] + upper == (lower + [r] + init) + [last] && lower + upper == (lower + init) + [last];
      HistoryLast(lower + [r] + init, last, m, evs, rows, T, B, scale, o, n);
      HistoryInsert(lower, r, init, m, evs, rows, T, B, scale, o, n);
      RoutableAppend(lower + init, last, |rows|, |m.filters|);
      HistoryLast(lower + init, last, m, evs, rows, T, B, scale, o, n);
    }
  }

  lemma RoutableAppend(rs: seq<Routing>, r: Routing, channels: nat, filters: nat)
    requires Routable(rs, channels, filters) && r.input < channels && r.filter < filters
    ensures Routable(rs + [r], channels, filters)
  {}

  /** The output of a table made from a list of distinct pairs is that of the list itself: every entry
      counts, with the gain it has there. */
  lemma {:induction false} ListOutput(list: seq<Routing>, m: Model, evs: seq<Event>, rows: seq<seq<real>>, T: nat,
                                      B: nat, scale: real, o: nat, n: nat)
    requires DistinctPairs(list) && Routable(list, |rows|, |m.filters|)
    ensures Routable(PutAll([], list), |rows|, |m.filters|)
    ensures HistoryOutput(PutAll([], list), m, evs, rows, T, B, scale, o, n) ==
      HistoryOutput(list, m, evs, rows, T, B, scale, o, n)
  {
    hide HistoryShare, HistoryOutput, OneShare, Put, Sorted, HasKey;
    if list != [] {
      var init, r := list[..|list| - 1], list[|list| - 1];
      assert list == init + [r];
      ListOutput(init, m, evs, rows, T, B, scale, o, n);
      PutAllHolds(init);
      PutAllDistinct(init);
      NewPair(init, r, list, PutAll([], init));
      var lower, upper := Parts(PutAll([], init), r);
      RoutablePart(lower, upper, r, |rows|, |m.filters|);
      HistoryInsert(lower, r, upper, m, evs, rows, T, B, scale, o, n);
      HistoryLast(init, r, m, evs, rows, T, B, scale, o, n);
    }
  }

  lemma RoutablePart(lower: seq<Routing>, upper: seq<Routing>, r: Routing, channels: nat, filters: nat)
    requires Routable(lower + upper, channels, filters) && r.input < channels && r.filter < filters
    ensures Routable(lower + [r] + upper, channels, filters)
  {
    var all := lower + [r] + upper;
    forall i | 0 <= i < |all| ensures all[i].input < channels && all[i].filter < filters {
      if i < |lower| {
        assert all[i] == (lower + upper)[i];
      } else if i > |lower| {
        assert all[i] == (lower + upper)[i - 1];
      }
    }
  }

  /** The table stays as it is while no call changes it. */
  lemma {:induction false} NoTableCalls(rs: seq<Routing>, evs: seq<Event>, lim: Limits)
    requires forall i :: 0 <= i < |evs| ==> evs[i].Process? || evs[i].SetIr? || evs[i].SetSpectra?
    ensures TableAfter(rs, evs, lim) == rs
  {
    if evs != [] { NoTableCalls(rs, evs[..|evs| - 1], lim); }
  }

  lemma ShareAlgebra(a: real, b: real, g: real, c: real, p: real, q: real)
    requires b == 1.0 - a
    ensures a * (g * (c * p)) + b * (g * (c * q)) == g * (c * (a * p + (1.0 - a) * q))
  {
    assert a * (g * (c * p)) == g * (c * (a * p));
    assert b * (g * (c * q)) == g * (c * (b * q));
    assert g * (c * (a * p + b * q)) == g * (c * (a * p)) + g * (c * (b * q));
  }

  /** One routing after a whole run, in terms of its history. */
  lemma ShareIsHistory(r: Routing, m: Model, evs: seq<Event>, lim: Limits, rows: seq<seq<real>>, T: nat, B: nat,
                       scale: real, n: nat)
    requires B >= 1 && n < B && |rows| == |m.inputs| && r.input < |rows| && r.filter < |m.filters|
    requires LegalRun(evs, |m.inputs|, |m.filters|, B)
    requires forall f :: 0 <= f < |m.filters| ==> m.filters[f].ramp == RampBlocks(T, B) - 1
    requires forall ch :: 0 <= ch < |m.inputs| ==> m.inputs[ch] == []
    ensures var s := Run(m, evs, lim, B, RampBlocks(T, B) - 1);
      Share(r, Feed(s.inputs, rows)[r.input], s.filters[r.filter], T, B, scale, n) ==
      HistoryShare(r, m.filters[r.filter], evs, rows, T, B, scale, n)
  {
    hide Fir, FadeIn, FadeOut, FadeAfter, RampBlocks, Run, Heard, Sets, BlocksSince;
    var last := RampBlocks(T, B) - 1;
    RunMatchesHistory(m, evs, lim, B, last);
    var st := Run(m, evs, lim, B, last);
    var s := st.filters[r.filter];
    assert FilterMatches(m.filters[r.filter], s, evs, r.filter, last);
    RampIsHistory(evs, r.filter, T, B, s.ramp, n);
    FadeBounds(T, s.ramp * B + n);
    var x := Heard(evs, r.input) + rows[r.input];
    assert Feed(st.inputs, rows)[r.input] == x by { assert st.inputs[r.input] == [] + Heard(evs, r.input); }
    ShareAlgebra(FadeIn(T, s.ramp * B + n), FadeOut(T, s.ramp * B + n), r.gain, scale,
                 Fir(s.newIr, x, |x| - B + n), Fir(s.oldIr, x, |x| - B + n));
  }

  /** After any run of calls, the next block of every output is the textbook convolution crossfaded
      between the last two filters, for any routing table. */
  lemma {:induction false} OutputIsHistory(rs: seq<Routing>, m: Model, evs: seq<Event>, lim: Limits,
                                           rows: seq<seq<real>>, T: nat, B: nat, scale: real, o: nat, n: nat)
    requires B >= 1 && n < B && |rows| == |m.inputs|
    requires Routable(rs, |m.inputs|, |m.filters|) && LegalRun(evs, |m.inputs|, |m.filters|, B)
    requires forall f :: 0 <= f < |m.filters| ==> m.filters[f].ramp == RampBlocks(T, B) - 1
    requires forall ch :: 0 <= ch < |m.inputs| ==> m.inputs[ch] == []
    ensures var s := Run(m, evs, lim, B, RampBlocks(T, B) - 1);
      Mixed(rs, Model(Feed(s.inputs, rows), s.filters, s.routing), T, B, scale, o, n) ==
      HistoryOutput(rs, m, evs, rows, T, B, scale, o, n)
    decreases |rs|
  {
    hide Share, HistoryShare, RampBlocks, Run;
    if rs != [] {
      OutputIsHistory(rs[..|rs| - 1], m, evs, lim, rows, T, B, scale, o, n);
      ShareIsHistory(rs[|rs| - 1], m, evs, lim, rows, T, B, scale, n);
    }
  }
}
