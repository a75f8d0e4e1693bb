/** CrossfadingConvolverUniform: two banks of filters over one core convolver. */
module CrossfadingConvolvers {
  import opened Complex
  import opened FftContract
  import opened PartitionedFir
  import opened CircularBuffers
  import opened CoreConvolvers
  import opened CrossfadeModel
  import opened RoutingTables
  import R = RealSums

  // vectorRamp with the start value excluded and the end value included.
  function RampValue(i: nat, T: nat, start: real, end: real): real
    requires T >= 1
  {
    start + ((i + 1) as real) * ((end - start) / (T as real))
  }

  /** The values are evenly spaced from the start, which is left out, to the end. */
  lemma RampSteps(i: nat, T: nat, start: real, end: real)
    requires T >= 1
    ensures RampValue(0, T, start, end) == start + (end - start) / (T as real)
    ensures RampValue(i + 1, T, start, end) == RampValue(i, T, start, end) + (end - start) / (T as real)
    ensures RampValue(T - 1, T, start, end) == end
  {
    var d, t := end - start, T as real;
    assert t * (d / t) == d;
    assert ((i + 2) as real) * (d / t) == ((i + 1) as real) * (d / t) + d / t;
  }

  method VectorRamp(m: array2<real>, row: nat, T: nat, start: real, end: real)
    requires row < m.Length0 && T <= m.Length1
    modifies m
    ensures forall r, c :: 0 <= r < m.Length0 && 0 <= c < m.Length1 ==>
      m[r, c] == if r == row && c < T then RampValue(c, T, start, end) else old(m[r, c])
  {
    if T == 0 { return; }
    if T == 1 {
      m[row, 0] := end;
      assert RampValue(0, 1, start, end) == end;
      return;
    }
    var step := (end - start) / (T as real);
    for i := 0 to T
      invariant forall r, c :: 0 <= r < m.Length0 && 0 <= c < m.Length1 ==>
        m[r, c] == if r == row && c < i then RampValue(c, T, start, end) else old(m[r, c])
    {
      m[row, i] := start + ((i + 1) as real) * step;
    }
  }

  method VectorFill(m: array2<real>, row: nat, from: nat, to: nat, value: real)
    requires row < m.Length0 && from <= to <= m.Length1
    modifies m
    ensures forall r, c :: 0 <= r < m.Length0 && 0 <= c < m.Length1 ==>
      m[r, c] == if r == row && from <= c < to then value else old(m[r, c])
  {
    for i := from to to
      invariant forall r, c :: 0 <= r < m.Length0 && 0 <= c < m.Length1 ==>
        m[r, c] == if r == row && from <= c < i then value else old(m[r, c])
    {
      m[row, i] := value;
    }
  }

  /** The two rows of mCrossoverRamps. */
  method CrossoverRamps(T: nat, n: nat) returns (ramps: array2<real>)
    requires T <= n
    ensures fresh(ramps) && ramps.Length0 == 2 && ramps.Length1 == n
    ensures forall i :: 0 <= i < n ==> ramps[0, i] == FadeIn(T, i) && ramps[1, i] == FadeOut(T, i)
    ensures RampTable(ramps, T)
  {
    hide FadeIn, FadeOut, RampValue;
    ramps := new real[2, n];
    VectorRamp(ramps, 0, T, 0.0, 1.0);
    VectorFill(ramps, 0, T, n, 1.0);
    VectorRamp(ramps, 1, T, 1.0, 0.0);
    VectorFill(ramps, 1, T, n, 0.0);
    forall i | 0 <= i < n ensures ramps[0, i] == FadeIn(T, i) && ramps[1, i] == FadeOut(T, i) {
      RampValues(T, i);
    }
  }

  // vectorMultiplyInplace with the fade-in ramp, then vectorMultiplyAddInplace with the
  // fade-out one.
  method ApplyFade(timeOut: array2<real>, ramps: array2<real>, start: nat)
    requires timeOut != ramps && timeOut.Length0 == 2 && ramps.Length0 == 2 && start + timeOut.Length1 <= ramps.Length1
    modifies timeOut
    ensures forall n :: 0 <= n < timeOut.Length1 ==>
      timeOut[0, n] == ramps[0, start + n] * old(timeOut[0, n]) + ramps[1, start + n] * old(timeOut[1, n])
  {
    hide SMul;
    for i := 0 to timeOut.Length1
      invariant forall n :: 0 <= n < timeOut.Length1 ==>
        timeOut[0, n] == if n < i then SMul(ramps[0, start + n], old(timeOut[0, n])) else old(timeOut[0, n])
      invariant forall n :: 0 <= n < timeOut.Length1 ==> timeOut[1, n] == old(timeOut[1, n])
    {
      timeOut[0, i] := SMul(ramps[0, start + i], timeOut[0, i]);
    }
    for i := 0 to timeOut.Length1
      invariant forall n :: 0 <= n < timeOut.Length1 ==>
        timeOut[0, n] == SMul(ramps[0, start + n], old(timeOut[0, n])) +
                         if n < i then SMul(ramps[1, start + n], old(timeOut[1, n])) else 0.0
      invariant forall n :: 0 <= n < timeOut.Length1 ==> timeOut[1, n] == old(timeOut[1, n])
    {
      timeOut[0, i] := timeOut[0, i] + SMul(ramps[1, start + i], timeOut[1, i]);
    }
    forall n | 0 <= n < timeOut.Length1
      ensures timeOut[0, n] == ramps[0, start + n] * old(timeOut[0, n]) + ramps[1, start + n] * old(timeOut[1, n])
    {
      SMulIs(ramps[0, start + n], old(timeOut[0, n]));
      SMulIs(ramps[1, start + n], old(timeOut[1, n]));
    }
  }

  lemma SMulIs(a: real, b: real)
    ensures SMul(a, b) == a * b
  {}

  // vectorZero of every output channel.
  method ZeroFill(output: array2<real>)
    modifies output
    ensures forall o, n :: 0 <= o < output.Length0 && 0 <= n < output.Length1 ==> output[o, n] == 0.0
  {
    for o := 0 to output.Length0
      invariant forall r, n :: 0 <= r < o && 0 <= n < output.Length1 ==> output[r, n] == 0.0
    {
      for n := 0 to output.Length1
        invariant forall r, i :: 0 <= r <= o && 0 <= i < output.Length1 && (r < o || i < n) ==> output[r, i] == 0.0
      {
        output[o, n] := 0.0;
      }
    }
  }

  lemma FadedIsShare(r: Routing, x: seq<real>, s: FilterState, T: nat, B: nat, scale: real, n: nat,
                     fadeIn: real, fadeOut: real, newOut: real, oldOut: real)
    requires fadeIn == FadeIn(T, s.ramp * B + n) && fadeOut == FadeOut(T, s.ramp * B + n)
    requires newOut == Output(s.newIr, x, n, B, r.gain, scale) && oldOut == Output(s.oldIr, x, n, B, r.gain, scale)
    ensures fadeIn * newOut + fadeOut * oldOut == Share(r, x, s, T, B, scale, n)
  {
    hide FadeIn, FadeOut, Output;
  }

  // vectorAddInplace of row 0 of a block to one output channel.
  method AddToOutput(output: array2<real>, o: nat, timeOut: array2<real>)
    requires output != timeOut && o < output.Length0 && timeOut.Length0 >= 1 && timeOut.Length1 == output.Length1
    modifies output
    ensures forall r, n :: 0 <= r < output.Length0 && 0 <= n < output.Length1 ==>
      output[r, n] == old(output[r, n]) + if r == o then timeOut[0, n] else 0.0
  {
    for i := 0 to output.Length1
      invariant forall r, n :: 0 <= r < output.Length0 && 0 <= n < output.Length1 ==>
        output[r, n] == old(output[r, n]) + if r == o && n < i then timeOut[0, n] else 0.0
    {
      output[o, i] := output[o, i] + timeOut[0, i];
    }
  }

  lemma RampValues(T: nat, i: nat)
    ensures i < T ==> RampValue(i, T, 0.0, 1.0) == FadeIn(T, i) && RampValue(i, T, 1.0, 0.0) == FadeOut(T, i)
    ensures i >= T ==> FadeIn(T, i) == 1.0 && FadeOut(T, i) == 0.0
  {
    if i < T {
      var a, b := (i + 1) as real, T as real;
      assert a * ((1.0 - 0.0) / b) == a / b;
      assert a * ((0.0 - 1.0) / b) == -(a / b);
    }
  }

  ghost predicate RampTable(ramps: array2<real>, T: nat)
    requires ramps.Length0 == 2
    reads ramps
  {
    forall i :: 0 <= i < ramps.Length1 ==> ramps[0, i] == FadeIn(T, i) && ramps[1, i] == FadeOut(T, i)
  }

  /** The steady state of a filter index before the first call. */
  function Initial(initialFilters: seq<seq<real>>, maxEntries: nat, T: nat, B: nat, f: nat): FilterState
    requires f < maxEntries && B >= 1
  {
    var irs := Loaded(initialFilters, 2 * maxEntries);
    FilterState(irs[f], irs[f + maxEntries], RampBlocks(T, B) - 1)
  }

  class CrossfadingConvolver {
    const core: CoreConvolver
    const maxRoutings: nat
    const maxFilters: nat
    const transitionSamples: nat
    const rampBlocks: nat
    const freqOut: array2<Cx>
    const timeOut: array2<real>
    const ramps: array2<real>
    const currentFilterOutput: array<nat>
    const currentRampBlock: array<nat>
    var routing: seq<Routing>

    /** Both ramps are laid out in full, and every index starts in its steady state. */
    constructor (numIn: nat, numOut: nat, B: nat, maxLength: nat, maxRoutingPoints: nat, maxEntries: nat,
                 transition: nat, initialRoutings: seq<Routing>, initialFilters: seq<seq<real>>, numberOfColumns: nat,
                 alignment: nat, transform: Fft)
      requires B >= 1 && maxLength >= 1
      requires |initialRoutings| <= maxRoutingPoints
      requires RoutingsInRange(initialRoutings, Limits(numIn, numOut, 2 * maxEntries, maxRoutingPoints))
      requires IsFft(transform) && transform.size == 2 * B && transform.bins == B + 1
      requires forall f :: 0 <= f < |initialFilters| ==> |initialFilters[f]| == numberOfColumns
      requires |initialFilters| <= 2 * maxEntries && numberOfColumns <= maxLength
      ensures Valid() && routing == PutAll([], initialRoutings)
      ensures FiltersBelow(initialRoutings, maxEntries) ==> Usable()
      ensures maxRoutings == maxRoutingPoints && maxFilters == maxEntries
      ensures core.numberOfInputs == numIn && core.numberOfOutputs == numOut && core.blockLength == B
      ensures core.fft == transform && transitionSamples == transition && core.maxFilterLength == maxLength
      ensures core.inputBuffers.stream == seq(numIn, _ => []) && core.irs == Loaded(initialFilters, 2 * maxEntries)
      ensures core.padded == NextAlignedSize(B + 1, alignment / 2)
      ensures core.partitions == NumberOfPartitions(maxLength, B)
      ensures forall f :: 0 <= f < maxEntries ==> currentFilterOutput[f] == 0 && currentRampBlock[f] == rampBlocks - 1
      ensures fresh(core) && fresh(core.inputBuffers) && fresh(core.inputBuffers.buffer) && fresh(core.inputFdl)
      ensures fresh(core.filters) && fresh(core.accumulator) && fresh(core.timeBuffer)
      ensures fresh(freqOut) && fresh(timeOut) && fresh(ramps)
      ensures fresh(currentFilterOutput) && fresh(currentRampBlock)
    {
      hide IsFft, FilterScale, FadeIn, FadeOut, RampValue, Window, Taps, RampBlocks, Sorted, PutAll, ColumnOf,
        FirstOutOfRange, Place, Slot, Loaded, RampTable, GoodPrefix, DistinctPairs, Installed, CoreConvolver.Valid;
      EmptyTable();
      var c := new CoreConvolver(numIn, numOut, B, maxLength, 2 * maxEntries, initialFilters, numberOfColumns,
                                 alignment, transform);
      c.ValidShape();
      core := c;
      maxRoutings, maxFilters, transitionSamples := maxRoutingPoints, maxEntries, transition;
      var k := RampBlocks(transition, B);
      rampBlocks := k;
      freqOut := new Cx[2, c.padded];
      timeOut := new real[2, B];
      assert (k - 1) * B + B == B * k;
      var r := CrossoverRamps(transition, B * k);
      ramps := r;
      currentFilterOutput := new nat[maxEntries](_ => 0);
      currentRampBlock := new nat[maxEntries](_ => k - 1);
      routing := [];
      new;
      assert Valid() by { assert core.Shape() && core.Responses(); }
      var status := InstallEntries(initialRoutings);
      if FiltersBelow(initialRoutings, maxEntries) { PutAllFilters(initialRoutings, maxEntries); }
    }

    ghost predicate Shape()
      reads this, core, core.inputBuffers, currentFilterOutput, currentRampBlock, ramps
    {
      && core.Shape() && core.Responses()
      && core.maxFilterEntries == 2 * maxFilters
      && rampBlocks == RampBlocks(transitionSamples, core.blockLength)
      && freqOut.Length0 == 2 && freqOut.Length1 == core.padded
      && freqOut != core.inputFdl && freqOut != core.filters
      && timeOut.Length0 == 2 && timeOut.Length1 == core.blockLength
      && ramps.Length0 == 2 && ramps.Length1 == core.blockLength * rampBlocks
      && timeOut != core.inputBuffers.buffer && ramps != core.inputBuffers.buffer && timeOut != ramps
      && currentFilterOutput.Length == maxFilters && currentRampBlock.Length == maxFilters
      && currentFilterOutput != currentRampBlock
      && (forall f :: 0 <= f < maxFilters ==> currentFilterOutput[f] < 2 && currentRampBlock[f] < rampBlocks)
      && RampTable(ramps, transitionSamples)
      && Sorted(routing) && |routing| <= maxRoutings
      && RoutingsInRange(routing, Bounds())
    }

    /** What routing entries are checked against: the filter count is that of both banks. */
    function Bounds(): Limits { Limits(core.numberOfInputs, core.numberOfOutputs, 2 * maxFilters, maxRoutings) }

    ghost predicate Valid()
      reads this, core, core.inputBuffers, core.inputBuffers.buffer, core.inputFdl, core.filters,
            currentFilterOutput, currentRampBlock, ramps
    {
      Shape() && core.Valid()
    }

    /** What the constructor leaves is a steady state: the first bank is heard in full. */
    lemma ConstructedState(initialFilters: seq<seq<real>>, f: nat)
      requires Shape() && f < maxFilters && core.irs == Loaded(initialFilters, 2 * maxFilters)
      requires currentFilterOutput[f] == 0 && currentRampBlock[f] == rampBlocks - 1
      ensures Abs().filters[f] == Initial(initialFilters, maxFilters, transitionSamples, core.blockLength, f)
    {
      hide RampTable, RoutingsInRange, IsFft, FilterScale, FadeIn, FadeOut, RampBlocks, Sorted;
      assert Abs().filters[f] == State(f);
    }

    lemma StartsSo(initialFilters: seq<seq<real>>)
      requires Shape() && core.irs == Loaded(initialFilters, 2 * maxFilters)
      requires forall f :: 0 <= f < maxFilters ==> currentFilterOutput[f] == 0 && currentRampBlock[f] == rampBlocks - 1
      ensures forall f :: 0 <= f < maxFilters ==>
        Abs().filters[f] == Initial(initialFilters, maxFilters, transitionSamples, core.blockLength, f)
    {
      hide RampTable, RoutingsInRange, IsFft, RampBlocks, Sorted, Initial, Loaded, Abs;
      forall f | 0 <= f < maxFilters
        ensures Abs().filters[f] == Initial(initialFilters, maxFilters, transitionSamples, core.blockLength, f)
      {
        ConstructedState(initialFilters, f);
      }
    }

    // The entries of the two banks that fade in and out for a filter index.
    function FadeInEntry(f: nat): nat
      requires f < currentFilterOutput.Length
      reads currentFilterOutput
    {
      if currentFilterOutput[f] == 0 then f else f + maxFilters
    }

    function FadeOutEntry(f: nat): nat
      requires f < currentFilterOutput.Length
      reads currentFilterOutput
    {
      if currentFilterOutput[f] == 0 then f + maxFilters else f
    }

    ghost function State(f: nat): FilterState
      requires Shape() && f < maxFilters
      reads this, core, core.inputBuffers, currentFilterOutput, currentRampBlock, ramps
    {
      FilterState(core.irs[FadeInEntry(f)], core.irs[FadeOutEntry(f)], currentRampBlock[f])
    }

    /** The abstract state: the input heard, and both filters and the ramp of every index. */
    ghost function Abs(): (m: Model)
      requires Shape()
      reads this, core, core.inputBuffers, currentFilterOutput, currentRampBlock, ramps
      ensures |m.filters| == maxFilters && m.inputs == core.inputBuffers.stream && m.routing == routing
      ensures forall f :: 0 <= f < maxFilters ==> m.filters[f] == State(f)
    {
      Model(core.inputBuffers.stream,
            seq(maxFilters, f requires Shape() && 0 <= f < maxFilters
              reads this, core, core.inputBuffers, currentFilterOutput, currentRampBlock, ramps => State(f)),
            routing)
    }

    /** No routing uses an index beyond the filters the two banks hold. The range check of
        setRoutingEntry is wider than this: it compares with the doubled entry count. */
    ghost predicate Usable()
      reads this
    {
      FiltersBelow(routing, maxFilters)
    }

    // The filter set is switched, and the interpolation restarts on request.
    method SwitchBank(f: nat, newFilterSet: nat, startTransition: bool)
      requires f < currentFilterOutput.Length == currentRampBlock.Length && currentFilterOutput != currentRampBlock
      modifies currentFilterOutput, currentRampBlock
      ensures currentFilterOutput[..] == old(currentFilterOutput[..])[f := newFilterSet]
      ensures currentRampBlock[..] ==
        if startTransition then old(currentRampBlock[..])[f := 0] else old(currentRampBlock[..])
    {
      currentFilterOutput[f] := newFilterSet;
      if startTransition { currentRampBlock[f] := 0; }
    }

    /** setImpulseResponse: the response goes into the bank that was fading out, which becomes
        the one fading in. */
    method SetImpulseResponse(ir: seq<real>, filterLength: nat, f: nat, startTransition: bool) returns (status: Status)
      requires Valid() && f < maxFilters && filterLength <= |ir|
      modifies core, core.timeBuffer, core.filters, currentFilterOutput, currentRampBlock
      ensures Valid() && routing == old(routing)
      ensures status == Ok <==> filterLength <= core.maxFilterLength
      ensures Abs().inputs == old(Abs().inputs)
      ensures Abs().filters == if status == Ok
        then old(Abs().filters)[f := SwitchTo(old(Abs().filters[f]), ir[..filterLength], startTransition)]
        else old(Abs().filters)
    {
      hide RampTable, RoutingsInRange, IsFft, FilterScale, FadeIn, FadeOut, RampBlocks, Sorted;
      var oldFilterSet := currentFilterOutput[f];
      var newFilterSet := if oldFilterSet == 0 then 1 else 0;
      var newFilterIndex := if newFilterSet == 0 then f else f + maxFilters;
      status := core.SetImpulseResponse(ir, filterLength, newFilterIndex);
      if status == Ok { SwitchBank(f, newFilterSet, startTransition); }
    }

    /** setTransformedFilter: the spectra go into the other bank as they are, and the banks switch.
        If they were made from a response that fits, ir, this is setImpulseResponse of it. */
    method SetTransformedFilter(transformed: seq<Cx>, f: nat, startTransition: bool, ghost ir: seq<real>)
      returns (status: Status)
      requires Valid() && f < maxFilters && |transformed| == core.padded * core.partitions
      modifies core`irs, core.filters, currentFilterOutput, currentRampBlock
      ensures status == Ok
      ensures currentFilterOutput[f] == 1 - old(currentFilterOutput[f])
      ensures currentRampBlock[f] == if startTransition then 0 else old(currentRampBlock[f])
      ensures forall g :: 0 <= g < maxFilters && g != f ==>
        currentFilterOutput[g] == old(currentFilterOutput[g]) && currentRampBlock[g] == old(currentRampBlock[g])
      ensures forall r, c :: 0 <= r < 2 * maxFilters && 0 <= c < core.padded * core.partitions ==>
        core.filters[r, c] == if r == old(FadeOutEntry(f)) then transformed[c] else old(core.filters[r, c])
      ensures |ir| <= core.maxFilterLength && core.IsTransformOf(transformed, ir) ==>
        && Valid() && Abs().inputs == old(Abs().inputs)
        && Abs().filters == old(Abs().filters)[f := SwitchTo(old(Abs().filters[f]), ir, startTransition)]
    {
      hide RampTable, RoutingsInRange, IsFft, FilterScale, FadeIn, FadeOut, RampBlocks, Sorted, ColumnOf,
        Slot, Taps, Window;
      var oldFilterSet := currentFilterOutput[f];
      var newFilterSet := if oldFilterSet == 0 then 1 else 0;
      var newFilterIndex := if newFilterSet == 0 then f else f + maxFilters;
      status := core.SetFilter(transformed, newFilterIndex, ir);
      SwitchBank(f, newFilterSet, startTransition);
    }

    // Both banks of one routing: filter, transform back, fade, add up.
    method FadedOutput(r: Routing, ghost m: Model)
      requires Valid() && m == Abs() && r.input < core.numberOfInputs && r.filter < maxFilters
      modifies core.accumulator, core.timeBuffer, freqOut, timeOut
      ensures forall n :: 0 <= n < core.blockLength ==>
        timeOut[0, n] == Share(r, m.inputs[r.input], m.filters[r.filter], transitionSamples, core.blockLength,
                               core.fft.forwardScale, n)
    {
      hide IsFft, FilterScale, FadeIn, FadeOut, RampBlocks, Sorted, Output, Share;
      FilterBanks(r.input, FadeInEntry(r.filter), FadeOutEntry(r.filter), r.gain);
      var rampBlock := currentRampBlock[r.filter];
      BlockRange(rampBlock, rampBlocks, core.blockLength);
      ghost var s := m.filters[r.filter];
      assert s == State(r.filter);
      label Before:
      ApplyFade(timeOut, ramps, rampBlock * core.blockLength);
      forall n | 0 <= n < core.blockLength
        ensures timeOut[0, n] == Share(r, m.inputs[r.input], s, transitionSamples, core.blockLength,
                                       core.fft.forwardScale, n)
      {
        FadedIsShare(r, m.inputs[r.input], s, transitionSamples, core.blockLength, core.fft.forwardScale, n,
                     ramps[0, rampBlock * core.blockLength + n], ramps[1, rampBlock * core.blockLength + n],
                     old@Before(timeOut[0, n]), old@Before(timeOut[1, n]));
      }
    }

    // The accumulated spectra of both banks.
    method BankSpectra(ch: nat, inEntry: nat, outEntry: nat, gain: real)
      requires Shape() && ch < core.numberOfInputs && inEntry < 2 * maxFilters && outEntry < 2 * maxFilters
      modifies core.accumulator, freqOut
      ensures Block(freqOut, 0, 0, core.fft.bins) == core.Filtered(ch, inEntry, gain)
      ensures Block(freqOut, 1, 0, core.fft.bins) == core.Filtered(ch, outEntry, gain)
    {
      hide RampTable, RoutingsInRange, IsFft, RampBlocks, Sorted, ScaleSeq, AccBins;
      core.ProcessFilter(ch, inEntry, gain, freqOut, 0, false);
      ghost var X := Block(freqOut, 0, 0, core.fft.bins);
      core.ProcessFilter(ch, outEntry, gain, freqOut, 1, false);
      assert Block(freqOut, 0, 0, core.fft.bins) == X;
    }

    // The two banks' filters over one input, without their aliased halves.
    method FilterBanks(ch: nat, inEntry: nat, outEntry: nat, gain: real)
      requires Valid() && ch < core.numberOfInputs && inEntry < 2 * maxFilters && outEntry < 2 * maxFilters
      modifies core.accumulator, core.timeBuffer, freqOut, timeOut
      ensures forall n :: 0 <= n < core.blockLength ==>
        timeOut[0, n] ==
          Output(core.irs[inEntry], core.inputBuffers.stream[ch], n, core.blockLength, gain, core.fft.forwardScale)
      ensures forall n :: 0 <= n < core.blockLength ==>
        timeOut[1, n] ==
          Output(core.irs[outEntry], core.inputBuffers.stream[ch], n, core.blockLength, gain, core.fft.forwardScale)
    {
      hide RampTable, RoutingsInRange, IsFft, FilterScale, FadeIn, FadeOut, RampBlocks, Sorted, Output, ScaleSeq,
        Accumulated, AccBins, ColumnOf, Slot, Taps, Window;
      DirectForm(ch, inEntry, gain);
      DirectForm(ch, outEntry, gain);
      BankSpectra(ch, inEntry, outEntry, gain);
      core.TransformOutput(freqOut, 0, timeOut, 0);
      core.TransformOutput(freqOut, 1, timeOut, 1);
    }

    lemma DirectForm(ch: nat, f: nat, gain: real)
      requires Valid() && ch < core.numberOfInputs && f < 2 * maxFilters
      ensures |core.fft.inverse(core.Filtered(ch, f, gain))| == 2 * core.blockLength
      ensures forall n :: 0 <= n < core.blockLength ==>
        core.fft.inverse(core.Filtered(ch, f, gain))[core.blockLength + n] ==
        Output(core.irs[f], core.inputBuffers.stream[ch], n, core.blockLength, gain, core.fft.forwardScale)
    {
      hide RampTable, RoutingsInRange, IsFft, FilterScale, FadeIn, FadeOut, RampBlocks, Sorted, Output, ScaleSeq,
        Accumulated;
      forall n | 0 <= n < core.blockLength
        ensures |core.fft.inverse(core.Filtered(ch, f, gain))| == 2 * core.blockLength
        ensures core.fft.inverse(core.Filtered(ch, f, gain))[core.blockLength + n] ==
          Output(core.irs[f], core.inputBuffers.stream[ch], n, core.blockLength, gain, core.fft.forwardScale)
      {
        core.FilteredOutput(ch, f, gain, n);
      }
      core.FilteredOutput(ch, f, gain, 0);
    }

    /** processOutputs: every output is the sum of the shares of its routings; then all ramps
        move on by a block. */
    method ProcessOutputs(output: array2<real>)
      requires Valid() && Usable()
      requires output.Length0 == core.numberOfOutputs && output.Length1 == core.blockLength
      requires output != core.inputBuffers.buffer && output != ramps && output != timeOut
      modifies core.accumulator, core.timeBuffer, freqOut, timeOut, output, currentRampBlock
      ensures Valid() && Abs().inputs == old(Abs().inputs)
      ensures Abs().filters == TickAll(old(Abs().filters), rampBlocks - 1)
      ensures Routable(routing, |old(Abs().inputs)|, |old(Abs().filters)|)
      ensures forall o, n :: 0 <= o < output.Length0 && 0 <= n < output.Length1 ==>
        output[o, n] == Mixed(routing, old(Abs()), transitionSamples, core.blockLength, core.fft.forwardScale, o, n)
    {
      hide IsFft, FilterScale, FadeIn, FadeOut, RampBlocks, Sorted, Share;
      ghost var m := Abs();
      MixOutputs(output, m);
      AdvanceRamps();
      assert forall f :: 0 <= f < maxFilters ==> State(f) == Tick(m.filters[f], rampBlocks - 1);
    }

    // Every ramp moves on by a block, up to its last one.
    method AdvanceRamps()
      requires currentFilterOutput != currentRampBlock && currentRampBlock.Length == maxFilters && rampBlocks >= 1
      modifies currentRampBlock
      ensures forall f :: 0 <= f < maxFilters ==>
        currentRampBlock[f] == Tick(FilterState([], [], old(currentRampBlock[f])), rampBlocks - 1).ramp
    {
      for f := 0 to maxFilters
        invariant forall g :: 0 <= g < maxFilters ==>
          currentRampBlock[g] == if g >= f then old(currentRampBlock[g])
                                 else Tick(FilterState([], [], old(currentRampBlock[g])), rampBlocks - 1).ramp
      {
        currentRampBlock[f] := if currentRampBlock[f] + 1 < rampBlocks - 1 then currentRampBlock[f] + 1
          else rampBlocks - 1;
      }
    }

    method MixOutputs(output: array2<real>, ghost m: Model)
      requires Valid() && Usable() && m == Abs()
      requires output.Length0 == core.numberOfOutputs && output.Length1 == core.blockLength
      requires output != core.inputBuffers.buffer && output != ramps && output != timeOut
      modifies core.accumulator, core.timeBuffer, freqOut, timeOut, output
      ensures Routable(routing, |m.inputs|, |m.filters|)
      ensures forall o, n :: 0 <= o < output.Length0 && 0 <= n < output.Length1 ==>
        output[o, n] == Mixed(routing, m, transitionSamples, core.blockLength, core.fft.forwardScale, o, n)
    {
      hide IsFft, FilterScale, FadeIn, FadeOut, RampBlocks, Sorted, Share;
      var B := core.blockLength;
      ZeroFill(output);
      for k := 0 to |routing|
        invariant Valid() && m == Abs()
        invariant forall o, n :: 0 <= o < output.Length0 && 0 <= n < B ==>
          output[o, n] == Mixed(routing[..k], m, transitionSamples, B, core.fft.forwardScale, o, n)
      {
        var r := routing[k];
        FadedOutput(r, m);
        AddToOutput(output, r.output, timeOut);
        assert routing[..k + 1][..k] == routing[..k] && routing[..k + 1][k] == r;
      }
      assert routing[..|routing|] == routing;
    }

    /** clearRoutingTable */
    method ClearRoutingTable()
      requires Valid()
      modifies this`routing
      ensures Valid() && routing == []
    {
      hide RampTable, IsFft, FilterScale, FadeIn, FadeOut, RampBlocks;
      routing := [];
    }

    /** setRoutingEntry: one entry per input and output; a full table only takes replacements. */
    method SetRoutingEntry(r: Routing) returns (status: Status)
      requires Valid()
      modifies this`routing
      ensures Valid()
      ensures status == Ok <==>
        && r.input < core.numberOfInputs && r.output < core.numberOfOutputs && r.filter < 2 * maxFilters
        && (HasKey(old(routing), r) || |old(routing)| < maxRoutings)
      ensures routing == if status == Ok then Put(old(routing), r) else old(routing)
      ensures routing == SetEntry(old(routing), r, Bounds())
      ensures status == Ok ==> Replaced(old(routing), routing, r)
      ensures status == Ok && old(Usable()) ==> (Usable() <==> r.filter < maxFilters)
    {
      hide RampTable, IsFft, FilterScale, FadeIn, FadeOut, RampBlocks, Put, Sorted, SameKey, HasKey, Replaced,
        RoutingsInRange;
      if r.input >= core.numberOfInputs { return InvalidArgument; }
      if r.output >= core.numberOfOutputs { return InvalidArgument; }
      if r.filter >= core.maxFilterEntries { return InvalidArgument; }
      var k := Place(routing, r);
      var found := k < |routing| && SameKey(routing[k], r);
      PlaceOfKey(routing, r);
      PutOrdered(routing, r);
      PutReplacesKey(routing, r);
      var table := if found then routing[..k] + routing[k + 1..] else routing;
      EraseInsert(routing, r, table);
      if |table| >= maxRoutings { return InvalidArgument; }
      ghost var before := routing;
      routing := table[..k] + [r] + table[k..];
      RangeAfter(before, routing, r, Bounds(), maxFilters);
      status := Ok;
    }

    // What initRoutingTable does: entry by entry, until one is refused.
    method InstallEntries(list: seq<Routing>) returns (status: Status)
      requires Valid()
      modifies this`routing
      ensures Valid()
      ensures status == Ok <==>
        |list| <= maxRoutings && RoutingsInRange(list, Bounds())
      ensures status == Ok ==> routing == PutAll([], list)
      ensures |list| > maxRoutings ==> routing == []
      ensures status != Ok && |list| <= maxRoutings ==> exists k: nat ::
        FirstOutOfRange(list, k, Bounds()) && routing == PutAll([], list[..k])
      ensures routing == Installed(list, Bounds())
    {
      hide RampTable, IsFft, FilterScale, FadeIn, FadeOut, RampBlocks, Put, Sorted;
      ClearRoutingTable();
      assert routing == PutAll([], list[..0]);
      if |list| > maxRoutings { return InvalidArgument; }
      for k := 0 to |list|
        invariant Valid() && routing == PutAll([], list[..k]) && |routing| <= k
        invariant RoutingsInRange(list[..k], Bounds())
      {
        ghost var before := routing;
        status := SetRoutingEntry(list[k]);
        if status != Ok {
          assert FirstOutOfRange(list, k, Bounds());
          PrefixEnds(list, k, Bounds());
          return;
        }
        PutOrdered(before, list[k]);
        assert list[..k + 1][..k] == list[..k];
      }
      assert list[..|list|] == list;
      PrefixEnds(list, |list|, Bounds());
      status := Ok;
    }

    /** initRoutingTable: replaces the table; refused if the list is too long or any entry is out
        of range, in which case the entries before the first bad one have been set. */
    method InitRoutingTable(list: seq<Routing>) returns (status: Status)
      requires Valid()
      modifies this`routing
      ensures Valid()
      ensures status == Ok <==>
        |list| <= maxRoutings && RoutingsInRange(list, Bounds())
      ensures status == Ok ==> routing == PutAll([], list)
      ensures |list| > maxRoutings ==> routing == []
      ensures status != Ok && |list| <= maxRoutings ==> exists k: nat ::
        FirstOutOfRange(list, k, Bounds()) && routing == PutAll([], list[..k])
      ensures routing == Installed(list, Bounds())
      ensures var taken := if |list| > maxRoutings then [] else list[..GoodPrefix(list, Bounds())];
        forall e :: e in routing <==>
          (exists i :: 0 <= i < |taken| && taken[i] == e &&
             (forall j :: i < j < |taken| ==> taken[j].input != e.input || taken[j].output != e.output))
      ensures status == Ok && DistinctPairs(list) ==> |routing| == |list|
    {
      hide RampTable, IsFft, FilterScale, FadeIn, FadeOut, RampBlocks, Put, PutAll, Sorted;
      status := InstallEntries(list);
      InstalledHolds(list, Bounds());
    }

    /** process: one block in, one block out. */
    method Process(input: seq<real>, inputChannelStride: nat, output: array2<real>)
      requires Valid() && Usable()
      requires forall ch :: 0 <= ch < core.numberOfInputs ==>
        ChannelStart(ch, inputChannelStride) + core.blockLength <= |input|
      requires output.Length0 == core.numberOfOutputs && output.Length1 == core.blockLength
      requires output != core.inputBuffers.buffer && output != ramps && output != timeOut
      modifies core, core.inputBuffers, core.inputBuffers.buffer, core.inputFdl
      modifies core.accumulator, core.timeBuffer, freqOut, timeOut, output, currentRampBlock
      ensures Valid() && routing == old(routing)
      ensures Legal(Event.Process(ChannelBlocks(input, inputChannelStride, core.numberOfInputs, core.blockLength)),
                    |old(Abs().inputs)|, |old(Abs().filters)|, core.blockLength)
      ensures Abs() == Step(old(Abs()),
                            Event.Process(ChannelBlocks(input, inputChannelStride, core.numberOfInputs,
                                                        core.blockLength)),
                            Bounds(), core.blockLength, rampBlocks - 1)
      ensures var rows := ChannelBlocks(input, inputChannelStride, core.numberOfInputs, core.blockLength);
        var now := Model(Feed(old(Abs().inputs), rows), old(Abs().filters), routing);
        && Routable(routing, |now.inputs|, |now.filters|)
        && forall o, n :: 0 <= o < output.Length0 && 0 <= n < output.Length1 ==>
          output[o, n] == Mixed(routing, now, transitionSamples, core.blockLength, core.fft.forwardScale, o, n)
    {
      hide IsFft, FilterScale, FadeIn, FadeOut, RampBlocks, Sorted, Share, Mixed;
      ghost var rows := ChannelBlocks(input, inputChannelStride, core.numberOfInputs, core.blockLength);
      ghost var m := Abs();
      core.ProcessInputs(input, inputChannelStride);
      assert core.inputBuffers.stream == Feed(m.inputs, rows) by {
        assert forall ch :: 0 <= ch < |rows| ==> rows[ch][..core.blockLength] == rows[ch];
      }
      ghost var now := Abs();
      assert now.filters == m.filters by {
        assert forall f :: 0 <= f < maxFilters ==> State(f) == m.filters[f];
      }
      ProcessOutputs(output);
    }

    /** The spectra given in a run are those of a response that fits. */
    ghost predicate SpectraFit(e: Event)
      requires core.Sizes()
    {
      FittingSpectra(core.fft, core.blockLength, core.padded, core.partitions, core.maxFilterLength, e)
    }

    /** A caller: the calls of a whole run one after the other. */
    method Perform(evs: seq<Event>, output: array2<real>)
      requires Valid() && LegalRun(evs, core.numberOfInputs, maxFilters, core.blockLength)
      requires UsableRun(routing, evs, Bounds(), maxFilters) && forall i :: 0 <= i < |evs| ==> SpectraFit(evs[i])
      requires output.Length0 == core.numberOfOutputs && output.Length1 == core.blockLength
      requires output != core.inputBuffers.buffer && output != ramps && output != timeOut
      modifies this`routing, core, core.inputBuffers, core.inputBuffers.buffer, core.inputFdl, core.filters
      modifies core.accumulator, core.timeBuffer, freqOut, timeOut, output, currentFilterOutput, currentRampBlock
      ensures Valid() && routing == TableAfter(old(routing), evs, Bounds())
      ensures LegalRun(Accepted(evs, core.maxFilterLength), core.numberOfInputs, maxFilters, core.blockLength)
      ensures Abs() == Run(old(Abs()), Accepted(evs, core.maxFilterLength), Bounds(), core.blockLength, rampBlocks - 1)
    {
      hide IsFft, FilterScale, FadeIn, FadeOut, RampBlocks, Sorted, Share, Mixed, Step, RampTable, RoutingsInRange,
        Legal, LegalRun, FiltersBelow, TableAfter, UsableRun, FittingSpectra, RunsTo, Run, Accepted, Refused;
      ghost var m, L, lim, B, last := Abs(), core.maxFilterLength, Bounds(), core.blockLength, rampBlocks - 1;
      RunsToItself(m, L, lim, B, last);
      assert evs[..0] == [];
      for k := 0 to |evs|
        invariant Valid() && RunsTo(m, evs[..k], Abs(), L, lim, B, last)
      {
        RunsToTable(m, evs[..k], Abs(), L, lim, B, last);
        if evs[k].Process? { UsableAt(m.routing, evs, k, lim, maxFilters); }
        RunsToNext(m, evs, k, Abs(), L, lim, B, last);
        PerformOne(evs[k], output);
      }
      assert evs[..|evs|] == evs;
      RunsToTable(m, evs, Abs(), L, lim, B, last);
      RunsToIs(m, evs, Abs(), L, lim, B, last);
    }

    method PerformOne(e: Event, output: array2<real>)
      requires Valid() && Legal(e, core.numberOfInputs, maxFilters, core.blockLength) && SpectraFit(e)
      requires e.Process? ==> Usable()
      requires output.Length0 == core.numberOfOutputs && output.Length1 == core.blockLength
      requires output != core.inputBuffers.buffer && output != ramps && output != timeOut
      modifies this`routing, core, core.inputBuffers, core.inputBuffers.buffer, core.inputFdl, core.filters
      modifies core.accumulator, core.timeBuffer, freqOut, timeOut, output, currentFilterOutput, currentRampBlock
      ensures Valid()
      ensures Abs() == if Refused(e, core.maxFilterLength) then old(Abs())
        else Step(old(Abs()), e, Bounds(), core.blockLength, rampBlocks - 1)
    {
      hide IsFft, FilterScale, FadeIn, FadeOut, RampBlocks, Sorted, Share, Mixed, RampTable, RoutingsInRange, Put,
        SetEntry, Installed, FiltersBelow, SpectraOf;
      match e
      case SetIr(f, ir, start) =>
        assert ir[..|ir|] == ir;
        var status := SetImpulseResponse(ir, |ir|, f, start);
      case SetSpectra(f, ir, start, spectra) =>
        var status := SetTransformedFilter(spectra, f, start, ir);
      case Process(rows) =>
        var input := Strided(rows, core.blockLength);
        Process(input, core.blockLength, output);
      case SetRouting(r) =>
        var status := SetRoutingEntry(r);
      case ClearRoutings =>
        ClearRoutingTable();
      case InitRoutings(list) =>
        var status := InitRoutingTable(list);
    }

    /** Whole runs of the component: after any calls from a steady, silent state on, the next process
        call delivers the textbook crossfade of FIR outputs, read off the history of the calls. */
    method PerformAndProcess(evs: seq<Event>, rows: seq<seq<real>>, output: array2<real>)
      requires Valid() && LegalRun(evs, core.numberOfInputs, maxFilters, core.blockLength)
      requires Legal(Event.Process(rows), core.numberOfInputs, maxFilters, core.blockLength)
      requires UsableRun(routing, evs, Bounds(), maxFilters) && forall i :: 0 <= i < |evs| ==> SpectraFit(evs[i])
      requires FiltersBelow(TableAfter(routing, evs, Bounds()), maxFilters)
      requires core.inputBuffers.stream == seq(core.numberOfInputs, _ => [])
      requires forall f :: 0 <= f < maxFilters ==> currentRampBlock[f] == rampBlocks - 1
      requires output.Length0 == core.numberOfOutputs && output.Length1 == core.blockLength
      requires output != core.inputBuffers.buffer && output != ramps && output != timeOut
      modifies this`routing, core, core.inputBuffers, core.inputBuffers.buffer, core.inputFdl, core.filters
      modifies core.accumulator, core.timeBuffer, freqOut, timeOut, output, currentFilterOutput, currentRampBlock
      ensures Valid() && routing == TableAfter(old(routing), evs, Bounds())
      ensures Routable(routing, |rows|, |old(Abs()).filters|)
      ensures forall o, n :: 0 <= o < output.Length0 && 0 <= n < output.Length1 ==>
        output[o, n] == HistoryOutput(routing, old(Abs()), Accepted(evs, core.maxFilterLength), rows,
                                      transitionSamples, core.blockLength, core.fft.forwardScale, o, n)
    {
      hide IsFft, FilterScale, FadeIn, FadeOut, RampBlocks, Sorted, Share, Mixed, HistoryOutput, Run, RampTable,
           RoutingsInRange, LegalRun, Accepted, UsableRun, TableAfter, FiltersBelow;
      ghost var m := Abs();
      SteadyStart(m);
      Perform(evs, output);
      UsableTable();
      var input := Strided(rows, core.blockLength);
      Process(input, core.blockLength, output);
      OutputsAreHistory(routing, m, Accepted(evs, core.maxFilterLength), Bounds(), rows, transitionSamples,
                        core.blockLength, core.fft.forwardScale);
    }

    lemma SteadyStart(m: Model)
      requires Valid() && m == Abs()
      requires core.inputBuffers.stream == seq(core.numberOfInputs, _ => [])
      requires forall f :: 0 <= f < maxFilters ==> currentRampBlock[f] == rampBlocks - 1
      ensures |m.inputs| == core.numberOfInputs && |m.filters| == maxFilters
      ensures forall f :: 0 <= f < |m.filters| ==>
        m.filters[f].ramp == RampBlocks(transitionSamples, core.blockLength) - 1
      ensures forall ch :: 0 <= ch < |m.inputs| ==> m.inputs[ch] == []
    {
      hide IsFft, FilterScale, FadeIn, FadeOut, RampBlocks, Sorted, RampTable, RoutingsInRange;
      assert forall f :: 0 <= f < maxFilters ==> m.filters[f] == State(f);
    }

    lemma UsableTable()
      requires Valid() && Usable()
      ensures Routable(routing, core.numberOfInputs, maxFilters)
    {
      hide IsFft, FilterScale, FadeIn, FadeOut, RampBlocks, Sorted, RampTable;
    }
  }

  /** The spectra of an event are those of its response, which fits into K blocks of B samples. */
  ghost predicate FittingSpectra(f: Fft, B: nat, P: nat, K: nat, maxLength: nat, e: Event)
    requires IsFft(f) && f.size == 2 * B && f.bins <= P
  {
    e.SetSpectra? ==> |e.spectra| == P * K && |e.ir| <= maxLength && SpectraOf(f, B, P, K, e.spectra, e.ir)
  }

  /** The abstract state a constructed component starts from. */
  ghost function Start(numIn: nat, B: nat, maxEntries: nat, transition: nat, initialRoutings: seq<Routing>,
                 initialFilters: seq<seq<real>>): (m: Model)
    requires B >= 1
    ensures |m.inputs| == numIn && |m.filters| == maxEntries
  {
    Model(seq(numIn, _ => []),
          seq(maxEntries, f requires 0 <= f < maxEntries => Initial(initialFilters, maxEntries, transition, B, f)),
          PutAll([], initialRoutings))
  }

  /** At the start nothing has been heard, and every index plays its initial filter in full; indices
      without one are silent. */
  lemma StartMeans(numIn: nat, B: nat, maxEntries: nat, transition: nat, initialRoutings: seq<Routing>,
                   initialFilters: seq<seq<real>>, f: nat, n: nat)
    requires B >= 1 && f < maxEntries && n < B
    ensures var m := Start(numIn, B, maxEntries, transition, initialRoutings, initialFilters);
      && (forall ch :: 0 <= ch < numIn ==> m.inputs[ch] == [])
      && m.filters[f].newIr == (if f < |initialFilters| then initialFilters[f] else [])
      && m.filters[f].oldIr == (if f + maxEntries < |initialFilters| then initialFilters[f + maxEntries] else [])
      && FadeIn(transition, m.filters[f].ramp * B + n) == 1.0
  {}

  /** The component from its construction on: whatever calls come first, the next process call
      delivers the textbook crossfade of FIR outputs, in terms of the arguments of these calls. */
  method ConstructAndPerform(numIn: nat, numOut: nat, B: nat, maxLength: nat, maxRoutingPoints: nat, maxEntries: nat,
                             transition: nat, initialRoutings: seq<Routing>, initialFilters: seq<seq<real>>,
                             numberOfColumns: nat, alignment: nat, transform: Fft, evs: seq<Event>,
                             rows: seq<seq<real>>) returns (output: array2<real>)
    requires B >= 1 && maxLength >= 1
    requires IsFft(transform) && transform.size == 2 * B && transform.bins == B + 1
    requires forall f :: 0 <= f < |initialFilters| ==> |initialFilters[f]| == numberOfColumns
    requires |initialFilters| <= 2 * maxEntries && numberOfColumns <= maxLength
    requires |initialRoutings| <= maxRoutingPoints
    requires RoutingsInRange(initialRoutings, Limits(numIn, numOut, 2 * maxEntries, maxRoutingPoints))
    requires LegalRun(evs, numIn, maxEntries, B) && Legal(Event.Process(rows), numIn, maxEntries, B)
    requires forall i :: 0 <= i < |evs| ==>
      FittingSpectra(transform, B, NextAlignedSize(B + 1, alignment / 2), NumberOfPartitions(maxLength, B), maxLength,
                     evs[i])
    requires var lim := Limits(numIn, numOut, 2 * maxEntries, maxRoutingPoints);
      && UsableRun(PutAll([], initialRoutings), evs, lim, maxEntries)
      && FiltersBelow(TableAfter(PutAll([], initialRoutings), evs, lim), maxEntries)
    ensures fresh(output) && output.Length0 == numOut && output.Length1 == B
    ensures var m := Start(numIn, B, maxEntries, transition, initialRoutings, initialFilters);
      var table := TableAfter(m.routing, evs, Limits(numIn, numOut, 2 * maxEntries, maxRoutingPoints));
      && Routable(table, |rows|, |m.filters|)
      && forall o, n :: 0 <= o < numOut && 0 <= n < B ==>
        output[o, n] == R.Sum(|table|, RoutingTerm(table, m, Accepted(evs, maxLength), rows, transition, B,
                                                   transform.forwardScale, o, n))
    ensures var m := Start(numIn, B, maxEntries, transition, initialRoutings, initialFilters);
      DistinctPairs(initialRoutings) && WithoutTableCalls(evs) ==>
        && Routable(initialRoutings, |rows|, |m.filters|)
        && forall o, n :: 0 <= o < numOut && 0 <= n < B ==>
          output[o, n] == R.Sum(|initialRoutings|, RoutingTerm(initialRoutings, m, Accepted(evs, maxLength), rows,
                                                               transition, B, transform.forwardScale, o, n))
  {
    hide IsFft, FilterScale, FadeIn, FadeOut, RampBlocks, Sorted, HistoryOutput, RampTable, RoutingsInRange, LegalRun,
      Legal, UsableRun, TableAfter, FiltersBelow, PutAll, FittingSpectra, CoreConvolver.Valid, Accepted;
    var c := new CrossfadingConvolver(numIn, numOut, B, maxLength, maxRoutingPoints, maxEntries, transition,
                                      initialRoutings, initialFilters, numberOfColumns, alignment, transform);
    output := new real[numOut, B];
    c.StartsSo(initialFilters);
    assert c.Abs() == Start(numIn, B, maxEntries, transition, initialRoutings, initialFilters);
    c.PerformAndProcess(evs, rows, output);
    ghost var m := Start(numIn, B, maxEntries, transition, initialRoutings, initialFilters);
    SumsOverTable(c.routing, m, Accepted(evs, maxLength), rows, transition, B, transform.forwardScale);
    if DistinctPairs(initialRoutings) && WithoutTableCalls(evs) {
      NoTableCalls(m.routing, evs, Limits(numIn, numOut, 2 * maxEntries, maxRoutingPoints));
      SumsOverList(initialRoutings, m, Accepted(evs, maxLength), rows, transition, B, transform.forwardScale);
    }
  }

  predicate WithoutTableCalls(evs: seq<Event>) {
    forall i :: 0 <= i < |evs| ==> evs[i].Process? || evs[i].SetIr? || evs[i].SetSpectra?
  }

  lemma SumsOverTable(rs: seq<Routing>, m: Model, evs: seq<Event>, rows: seq<seq<real>>, T: nat, B: nat, scale: real)
    requires Routable(rs, |rows|, |m.filters|)
    ensures forall o, n ::
      HistoryOutput(rs, m, evs, rows, T, B, scale, o, n) ==
      R.Sum(|rs|, RoutingTerm(rs, m, evs, rows, T, B, scale, o, n))
  {
    hide HistoryOutput, RoutingTerm;
    forall o: nat, n: nat
      ensures HistoryOutput(rs, m, evs, rows, T, B, scale, o, n) ==
        R.Sum(|rs|, RoutingTerm(rs, m, evs, rows, T, B, scale, o, n))
    {
      HistoryIsSum(rs, m, evs, rows, T, B, scale, o, n);
    }
  }

  lemma SumsOverList(list: seq<Routing>, m: Model, evs: seq<Event>, rows: seq<seq<real>>, T: nat, B: nat, scale: real)
    requires DistinctPairs(list) && Routable(PutAll([], list), |rows|, |m.filters|)
    ensures Routable(list, |rows|, |m.filters|)
    ensures forall o, n ::
      HistoryOutput(PutAll([], list), m, evs, rows, T, B, scale, o, n) ==
      R.Sum(|list|, RoutingTerm(list, m, evs, rows, T, B, scale, o, n))
  {
    hide HistoryOutput, RoutingTerm, PutAll;
    PutAllDistinct(list);
    forall i | 0 <= i < |list| ensures list[i].input < |rows| && list[i].filter < |m.filters| {
      assert list[i] in PutAll([], list);
    }
    forall o: nat, n: nat
      ensures HistoryOutput(PutAll([], list), m, evs, rows, T, B, scale, o, n) ==
        R.Sum(|list|, RoutingTerm(list, m, evs, rows, T, B, scale, o, n))
    {
      ListOutput(list, m, evs, rows, T, B, scale, o, n);
      HistoryIsSum(list, m, evs, rows, T, B, scale, o, n);
    }
  }

  lemma OutputsAreHistory(rs: seq<Routing>, m: Model, evs: seq<Event>, lim: Limits, rows: seq<seq<real>>, T: nat,
                          B: nat, scale: real)
    requires B >= 1 && |rows| == |m.inputs|
    requires Routable(rs, |m.inputs|, |m.filters|) && LegalRun(evs, |m.inputs|, |m.filters|, B)
    requires forall f :: 0 <= f < |m.filters| ==> m.filters[f].ramp == RampBlocks(T, B) - 1
    requires forall ch :: 0 <= ch < |m.inputs| ==> m.inputs[ch] == []
    ensures var s := Run(m, evs, lim, B, RampBlocks(T, B) - 1);
      forall o, n: nat :: n < B ==>
        Mixed(rs, Model(Feed(s.inputs, rows), s.filters, s.routing), T, B, scale, o, n) ==
          HistoryOutput(rs, m, evs, rows, T, B, scale, o, n)
  {
    hide Run, Mixed, HistoryOutput;
    var s := Run(m, evs, lim, B, RampBlocks(T, B) - 1);
    forall o, n: nat | n < B
      ensures Mixed(rs, Model(Feed(s.inputs, rows), s.filters, s.routing), T, B, scale, o, n) ==
        HistoryOutput(rs, m, evs, rows, T, B, scale, o, n)
    {
      OutputIsHistory(rs, m, evs, lim, rows, T, B, scale, o, n);
    }
  }

  /** The rows one after the other, as a strided buffer. */
  method Strided(rows: seq<seq<real>>, B: nat) returns (input: seq<real>)
    requires forall ch :: 0 <= ch < |rows| ==> |rows[ch]| == B
    ensures forall ch :: 0 <= ch < |rows| ==> ChannelStart(ch, B) + B <= |input|
    ensures ChannelBlocks(input, B, |rows|, B) == rows
  {
    input := [];
    for ch := 0 to |rows|
      invariant |input| == ChannelStart(ch, B)
      invariant forall j :: 0 <= j < ch ==> ChannelStart(j, B) + B <= |input| && Channel(input, j, B, B) == rows[j]
    {
      ghost var before := input;
      input := input + rows[ch];
      assert ChannelStart(ch + 1, B) == ChannelStart(ch, B) + B;
      forall j | 0 <= j < ch ensures Channel(input, j, B, B) == rows[j] {
        assert Channel(input, j, B, B) == Channel(before, j, B, B);
      }
      assert Channel(input, ch, B, B) == rows[ch];
    }
  }
}
