/**
 CoreConvolverUniform: input windows and filter partitions are kept as spectra, the former in a
 rotating delay line, and convolved bin by bin.
 */
module CoreConvolvers {
  import opened Complex
  import opened Arithmetic
  import opened Signals
  import opened FftContract
  import opened PartitionedFir
  import opened CircularBuffers

  /** n cells of a row from a column on. */
  ghost function Block(m: array2<Cx>, row: nat, col: nat, n: nat): (X: seq<Cx>)
    requires row < m.Length0 && col + n <= m.Length1
    reads m
    ensures |X| == n
  {
    seq(n, i requires 0 <= i < n reads m => m[row, col + i])
  }

  method StoreBlock(m: array2<Cx>, row: nat, col: nat, X: seq<Cx>)
    requires row < m.Length0 && col + |X| <= m.Length1
    modifies m
    ensures forall r, c :: 0 <= r < m.Length0 && 0 <= c < m.Length1 ==>
      m[r, c] == if r == row && col <= c < col + |X| then X[c - col] else old(m[r, c])
    ensures Block(m, row, col, |X|) == X
  {
    for i := 0 to |X|
      invariant forall r, c :: 0 <= r < m.Length0 && 0 <= c < m.Length1 ==>
        m[r, c] == if r == row && col <= c < col + i then X[c - col] else old(m[r, c])
    {
      m[row, col + i] := X[i];
    }
  }

  /** calculateNumberOfPartitions: ceil( filterLength / blockLength ) */
  function NumberOfPartitions(filterLength: nat, blockLength: nat): (k: nat)
    requires blockLength >= 1
    ensures filterLength <= blockLength * k
    ensures k > 0 ==> blockLength * (k - 1) < filterLength
  {
    var q := (filterLength + blockLength - 1) / blockLength;
    var r := (filterLength + blockLength - 1) % blockLength;
    assert q * blockLength == filterLength + blockLength - 1 - r;
    assert blockLength * (q - 1) == q * blockLength - blockLength;
    q
  }

  // The partition slot that holds the window of b blocks ago.
  function Slot(offset: nat, b: nat, K: nat): (s: nat)
    requires offset < K && b < K
    ensures s < K && s == if offset + b < K then offset + b else offset + b - K
  {
    var s := (offset + b) % K;
    SlotValue(offset, b, K);
    s
  }

  lemma SlotValue(offset: nat, b: nat, K: nat)
    requires offset < K && b < K
    ensures (offset + b) % K == if offset + b < K then offset + b else offset + b - K
  {
    if offset + b < K {
      DivModUnique(offset + b, 0, offset + b, K);
    } else {
      DivModUnique(offset + b, 1, offset + b - K, K);
    }
  }

  // Blocks of P cells start P cells apart.
  function ColumnOf(s: nat, P: nat): nat { s * P }

  lemma BlockRange(s: nat, K: nat, P: nat)
    requires s < K
    ensures ColumnOf(s, P) + P <= P * K
  {
    MulMono(s + 1, K, P);
    assert (s + 1) * P == s * P + P;
    MulMono(0, s, P);
  }

  lemma BlocksApart(s: nat, t: nat, P: nat)
    requires s < t
    ensures ColumnOf(s, P) + P <= ColumnOf(t, P)
  {
    MulMono(s + 1, t, P);
    assert (s + 1) * P == s * P + P;
  }

  lemma ShiftedWindow(x: seq<real>, block: seq<real>, B: nat, b: nat)
    requires |block| == B && b >= 1
    ensures Window(x + block, B, b) == Window(x, B, b - 1)
  {
    var w, v := Window(x + block, B, b), Window(x, B, b - 1);
    assert (b + 2) * B == (b - 1 + 2) * B + B;
    forall i | 0 <= i < 2 * B ensures w[i] == v[i] {
      var j := |x| - (b - 1 + 2) * B + i;
      assert |x + block| - (b + 2) * B + i == j;
      assert j < |x| by { assert (b - 1 + 2) * B >= 2 * B by { MulMono(2, b - 1 + 2, B); } }
      assert RAt(x + block, j) == RAt(x, j);
    }
  }

  lemma NewestWindow(x: seq<real>, B: nat)
    ensures Window(x, B, 0) == LastSamples(x, 2 * B)
  {
    assert (0 + 2) * B == 2 * B;
  }

  // The impulse response samples of one partition, by position in the transform block.
  lemma TapsValue(ir: seq<real>, irLength: nat, B: nat, part: nat, startIdx: nat, scale: real, s: seq<real>)
    requires |s| == 2 * B && irLength <= |ir| && startIdx == part * B
    requires forall j :: 0 <= j < 2 * B ==>
      s[j] == if j < B && startIdx + j < irLength then SMul(scale, ir[startIdx + j]) else 0.0
    ensures s == Taps(ir[..irLength], B, part, scale)
  {
    var h := ir[..irLength];
    var p := Taps(h, B, part, scale);
    forall j | 0 <= j < 2 * B ensures s[j] == p[j] {
      if j < B {
        assert p[j] == scale * RAt(h, part * B + j);
        assert part * B + j == startIdx + j;
      }
    }
  }

  lemma PartitionRange(part: nat, B: nat)
    ensures 0 <= part * B && (part + 1) * B == part * B + B
  {
    MulMono(0, part, B);
  }

  /** Where channel ch starts in a strided buffer. */
  function ChannelStart(ch: nat, stride: nat): nat { ch * stride }

  /** One channel of a strided buffer. */
  function Channel(input: seq<real>, ch: nat, stride: nat, B: nat): (row: seq<real>)
    requires ChannelStart(ch, stride) + B <= |input|
    ensures |row| == B
  {
    input[ChannelStart(ch, stride)..ChannelStart(ch, stride) + B]
  }

  /** The channels of a strided input buffer. */
  function ChannelBlocks(input: seq<real>, stride: nat, channels: nat, B: nat): (rows: seq<seq<real>>)
    requires forall ch :: 0 <= ch < channels ==> ChannelStart(ch, stride) + B <= |input|
    ensures |rows| == channels
    ensures forall ch :: 0 <= ch < channels ==> |rows[ch]| == B && rows[ch] == Channel(input, ch, stride, B)
  {
    seq(channels, ch requires 0 <= ch < channels => Channel(input, ch, stride, B))
  }

  /** Sample n of channel ch lies n cells after the start of the channel, which is ch strides in. */
  lemma SampleOfChannel(input: seq<real>, stride: nat, channels: nat, B: nat, ch: nat, n: nat)
    requires forall c :: 0 <= c < channels ==> ChannelStart(c, stride) + B <= |input|
    requires ch < channels && n < B
    ensures 0 <= ch * stride + n < |input|
    ensures ChannelBlocks(input, stride, channels, B)[ch][n] == input[ch * stride + n]
  {
    assert ChannelStart(ch, stride) + B <= |input|;
    MulMono(0, ch, stride);
  }

  /** The rows of an initialiser, padded with empty responses. */
  function Loaded(rows: seq<seq<real>>, entries: nat): (r: seq<seq<real>>)
    ensures |r| == entries && forall f :: 0 <= f < entries ==> r[f] == if f < |rows| then rows[f] else []
  {
    seq(entries, f requires 0 <= f => if f < |rows| then rows[f] else [])
  }

  /** The partial sum over partitions that processFilter accumulates in bin k. */
  function AccBins(U: seq<seq<Cx>>, V: seq<seq<Cx>>, n: nat): (A: seq<Cx>)
    requires |U| == |V| >= 1 && forall i :: 0 <= i < |U| ==> |U[i]| == |V[i]| == n
  {
    Accumulated(U, V, n, |U|)
  }

  /** The spectra of the scaled partitions of a response, each padded to P cells. */
  ghost predicate SpectraOf(f: Fft, B: nat, P: nat, K: nat, spectra: seq<Cx>, ir: seq<real>)
    requires IsFft(f) && f.size == 2 * B && f.bins <= P && |spectra| == P * K
  {
    forall b :: 0 <= b < K ==>
      (BlockRange(b, K, P); spectra[ColumnOf(b, P)..ColumnOf(b, P) + f.bins]) ==
        f.forward(Taps(ir, B, b, FilterScale(f)))
  }

  class CoreConvolver {
    const numberOfInputs: nat
    const numberOfOutputs: nat
    const blockLength: nat
    const maxFilterLength: nat
    const partitions: nat
    const padded: nat
    const maxFilterEntries: nat
    const fft: Fft
    const filterScale: real
    const inputBuffers: CircularBuffer
    const inputFdl: array2<Cx>
    const timeBuffer: array<real>
    const filters: array2<Cx>
    const accumulator: array<Cx>
    var fdlOffset: nat

    /** The impulse response stored in each filter entry. */
    ghost var irs: seq<seq<real>>

    ghost predicate Sizes() {
      && blockLength >= 1 && partitions >= 1 && maxFilterLength <= blockLength * partitions
      && IsFft(fft) && fft.size == 2 * blockLength && fft.bins == blockLength + 1 <= padded
      && filterScale == FilterScale(fft)
      && inputBuffers.channels == numberOfInputs && inputBuffers.length == 2 * blockLength
      && inputFdl.Length0 == numberOfInputs && inputFdl.Length1 == padded * partitions
      && filters.Length0 == maxFilterEntries && filters.Length1 == padded * partitions
      && inputFdl != filters
      && timeBuffer.Length == 2 * blockLength && accumulator.Length == padded
      && timeBuffer as object != inputBuffers
    }

    ghost predicate Shape()
      reads this`fdlOffset
    {
      Sizes() && fdlOffset < partitions
    }

    ghost predicate Responses()
      reads this`irs
    {
      |irs| == maxFilterEntries && forall f :: 0 <= f < |irs| ==> |irs[f]| <= maxFilterLength
    }

    function SlotColumn(offset: nat, b: nat): (col: nat)
      requires Sizes() && offset < partitions && b < partitions
      ensures col + padded <= padded * partitions
    {
      BlockRange(Slot(offset, b, partitions), partitions, padded);
      ColumnOf(Slot(offset, b, partitions), padded)
    }

    /** getFdlBlock */
    function FdlColumn(b: nat): (col: nat)
      requires Shape() && b < partitions
      reads this`fdlOffset
      ensures col + padded <= padded * partitions
    {
      SlotColumn(fdlOffset, b)
    }

    /** getFdFilterPartition */
    function PartitionColumn(b: nat): (col: nat)
      requires Sizes() && b < partitions
      ensures col + padded <= padded * partitions
    {
      BlockRange(b, partitions, padded);
      ColumnOf(b, padded)
    }

    /** Slot b of channel ch holds the spectrum of the input window of b blocks ago. */
    ghost predicate FdlHolds(ch: nat, b: nat, x: seq<real>)
      requires Shape() && ch < numberOfInputs && b < partitions
      reads this`fdlOffset, inputFdl
    {
      Block(inputFdl, ch, FdlColumn(b), fft.bins) == fft.forward(Window(x, blockLength, b))
    }

    /** Partition b of entry f is the spectrum of the scaled taps of the impulse response h. */
    ghost predicate FilterHolds(f: nat, b: nat, h: seq<real>)
      requires Sizes() && f < maxFilterEntries && b < partitions
      reads filters
    {
      Block(filters, f, PartitionColumn(b), fft.bins) == fft.forward(Taps(h, blockLength, b, filterScale))
    }

    ghost predicate Valid()
      reads this, inputBuffers, inputBuffers.buffer, inputFdl, filters
    {
      && Shape() && Responses()
      && inputBuffers.Valid()
      && (forall ch, b :: 0 <= ch < numberOfInputs && 0 <= b < partitions ==> FdlHolds(ch, b, inputBuffers.stream[ch]))
      && (forall f, b :: 0 <= f < maxFilterEntries && 0 <= b < partitions ==> FilterHolds(f, b, irs[f]))
    }

    lemma ValidShape()
      requires Valid()
      ensures Shape() && Responses()
    {}

    /** advanceFDL: the slot of the oldest window becomes the one of the newest. */
    method AdvanceFdl()
      requires Shape()
      modifies this`fdlOffset
      ensures Shape()
      ensures Slot(fdlOffset, 0, partitions) == old(Slot(fdlOffset, partitions - 1, partitions))
      ensures forall b :: 1 <= b < partitions ==>
        Slot(fdlOffset, b, partitions) == old(Slot(fdlOffset, b - 1, partitions))
    {
      hide IsFft, FilterScale;
      SlotValue(fdlOffset, partitions - 1, partitions);
      fdlOffset := (fdlOffset + partitions - 1) % partitions;
    }

    /** processInputs: appends one block to every input and its spectrum to the delay line. */
    method ProcessInputs(input: seq<real>, channelStride: nat)
      requires Valid()
      requires forall ch :: 0 <= ch < numberOfInputs ==> ChannelStart(ch, channelStride) + blockLength <= |input|
      modifies this`fdlOffset, inputBuffers, inputBuffers.buffer, inputFdl
      ensures Valid()
      ensures irs == old(irs)
      ensures inputBuffers.stream ==
              Appended(old(inputBuffers.stream), ChannelBlocks(input, channelStride, numberOfInputs, blockLength),
                       blockLength)
    {
      hide IsFft, FilterScale, Window, Taps, ColumnOf;
      var rows := ChannelBlocks(input, channelStride, numberOfInputs, blockLength);
      ghost var xs := inputBuffers.stream;
      var status := inputBuffers.Write(rows, blockLength);
      assert forall ch :: 0 <= ch < numberOfInputs ==> rows[ch][..blockLength] == rows[ch];
      forall ch, b | 0 <= ch < numberOfInputs && 0 <= b < partitions ensures FdlHolds(ch, b, xs[ch]) {
        assert old(FdlHolds(ch, b, xs[ch]));
      }
      forall f, b | 0 <= f < maxFilterEntries && 0 <= b < partitions ensures FilterHolds(f, b, irs[f]) {
        assert old(FilterHolds(f, b, irs[f]));
      }
      ShiftDelayLine(xs, rows, inputBuffers.stream);
      TransformInputs();
    }

    // advanceFDL, and why the slots still hold the windows they should.
    method ShiftDelayLine(ghost xs: seq<seq<real>>, ghost rows: seq<seq<real>>, ghost ys: seq<seq<real>>)
      requires Shape() && Responses() && |xs| == |rows| == |ys| == numberOfInputs
      requires forall ch :: 0 <= ch < numberOfInputs ==> |rows[ch]| == blockLength && ys[ch] == xs[ch] + rows[ch]
      requires forall ch, b :: 0 <= ch < numberOfInputs && 0 <= b < partitions ==> FdlHolds(ch, b, xs[ch])
      requires forall f, b :: 0 <= f < maxFilterEntries && 0 <= b < partitions ==> FilterHolds(f, b, irs[f])
      modifies this`fdlOffset
      ensures Shape()
      ensures forall ch, b :: 0 <= ch < numberOfInputs && 1 <= b < partitions ==> FdlHolds(ch, b, ys[ch])
      ensures forall f, b :: 0 <= f < maxFilterEntries && 0 <= b < partitions ==> FilterHolds(f, b, irs[f])
    {
      hide IsFft, FilterScale, Window, Taps, ColumnOf;
      AdvanceFdl();
      forall f, b | 0 <= f < maxFilterEntries && 0 <= b < partitions ensures FilterHolds(f, b, irs[f]) {
        assert old(FilterHolds(f, b, irs[f]));
      }
      forall ch, b | 0 <= ch < numberOfInputs && 1 <= b < partitions ensures FdlHolds(ch, b, ys[ch]) {
        assert old(FdlHolds(ch, b - 1, xs[ch]));
        ShiftedWindow(xs[ch], rows[ch], blockLength, b);
      }
    }

    method TransformInputs()
      requires Shape() && Responses() && inputBuffers.Valid()
      requires forall ch, b :: 0 <= ch < numberOfInputs && 1 <= b < partitions ==>
        FdlHolds(ch, b, inputBuffers.stream[ch])
      requires forall f, b :: 0 <= f < maxFilterEntries && 0 <= b < partitions ==> FilterHolds(f, b, irs[f])
      modifies inputFdl
      ensures Valid()
    {
      hide IsFft, FilterScale, Window, Taps, ColumnOf;
      ghost var xs := inputBuffers.stream;
      for ch := 0 to numberOfInputs
        invariant Shape() && Responses() && inputBuffers.Valid() && inputBuffers.stream == xs
        invariant forall r, b :: 0 <= r < numberOfInputs && 0 <= b < partitions && (b >= 1 || r < ch) ==>
          FdlHolds(r, b, xs[r])
        invariant forall f, b :: 0 <= f < maxFilterEntries && 0 <= b < partitions ==> FilterHolds(f, b, irs[f])
      {
        var p := inputBuffers.GetReadPointer(ch, 2 * blockLength);
        TransformWindow(ch, p, xs[ch]);
      }
    }

    // forwardTransform of the 2 B samples at the read pointer into slot 0 of the delay line.
    method TransformWindow(ch: nat, p: nat, ghost x: seq<real>)
      requires Shape() && inputBuffers.Valid() && ch < numberOfInputs
      requires p + 2 * blockLength <= 2 * inputBuffers.capacity
      requires inputBuffers.Cells(ch, p, 2 * blockLength) == LastSamples(x, 2 * blockLength)
      modifies inputFdl
      ensures FdlHolds(ch, 0, x)
      ensures forall r, b, y ::
                (0 <= r < numberOfInputs && 0 <= b < partitions && (b >= 1 || r != ch) && old(FdlHolds(r, b, y))) ==>
                FdlHolds(r, b, y)
    {
      hide IsFft, FilterScale, Window, Taps, ColumnOf;
      var buffer := inputBuffers.buffer;
      var window := seq(2 * blockLength, i requires 0 <= i < 2 * blockLength reads buffer => buffer[ch, p + i]);
      assert window == inputBuffers.Cells(ch, p, 2 * blockLength);
      NewestWindow(x, blockLength);
      ForwardLength(fft, window);
      StoreBlock(inputFdl, ch, FdlColumn(0), fft.forward(window));
      forall r, b, y | 0 <= r < numberOfInputs && 0 <= b < partitions && (b >= 1 || r != ch) && old(FdlHolds(r, b, y))
        ensures FdlHolds(r, b, y)
      {
        var s0, s := Slot(fdlOffset, 0, partitions), Slot(fdlOffset, b, partitions);
        if s < s0 { BlocksApart(s, s0, padded); }
        if s > s0 { BlocksApart(s0, s, padded); }
        assert Block(inputFdl, r, FdlColumn(b), fft.bins) == old(Block(inputFdl, r, FdlColumn(b), fft.bins));
      }
    }

    /** clearFilters */
    method ClearFilters()
      requires Valid()
      modifies this`irs, filters
      ensures Valid() && irs == Loaded([], maxFilterEntries)
    {
      hide IsFft, FilterScale, Window, Taps, ColumnOf;
      for f := 0 to maxFilterEntries
        invariant forall r, c :: 0 <= r < f && 0 <= c < padded * partitions ==> filters[r, c] == ZERO
        invariant Shape() && inputBuffers.Valid()
        invariant forall ch, b :: 0 <= ch < numberOfInputs && 0 <= b < partitions ==>
          FdlHolds(ch, b, inputBuffers.stream[ch])
      {
        StoreBlock(filters, f, 0, seq(padded * partitions, _ => ZERO));
      }
      irs := Loaded([], maxFilterEntries);
      forall f, b | 0 <= f < maxFilterEntries && 0 <= b < partitions ensures FilterHolds(f, b, irs[f]) {
        EmptySpectrum(fft, blockLength, b, filterScale, Block(filters, f, PartitionColumn(b), fft.bins));
      }
    }

    /** transformImpulseResponse: the spectra of all partitions of a response that is not too
        long, into one row of the given buffer. */
    method TransformImpulseResponse(ir: seq<real>, irLength: nat, result: array2<Cx>, row: nat) returns (status: Status)
      requires Shape() && irLength <= |ir|
      requires row < result.Length0 && result.Length1 == padded * partitions
      modifies timeBuffer, result
      ensures status == Ok <==> irLength <= maxFilterLength
      ensures status == Ok ==> forall b :: 0 <= b < partitions ==>
        Block(result, row, PartitionColumn(b), fft.bins) ==
          fft.forward(Taps(ir[..irLength], blockLength, b, filterScale))
      ensures forall r, c :: 0 <= r < result.Length0 && 0 <= c < result.Length1 && (r != row || status != Ok) ==>
        result[r, c] == old(result[r, c])
    {
      hide IsFft, FilterScale, Window, Taps, ColumnOf;
      if irLength > maxFilterLength { return InvalidArgument; }
      ghost var h := ir[..irLength];
      for part := 0 to partitions
        invariant forall b :: 0 <= b < part ==>
          Block(result, row, PartitionColumn(b), fft.bins) == fft.forward(Taps(h, blockLength, b, filterScale))
        invariant forall r, c :: 0 <= r < result.Length0 && 0 <= c < result.Length1 && r != row ==>
          result[r, c] == old(result[r, c])
      {
        LoadTaps(ir, irLength, part);
        ForwardLength(fft, timeBuffer[..]);
        label Before:
        StoreBlock(result, row, PartitionColumn(part), fft.forward(timeBuffer[..]));
        forall b | 0 <= b < part
          ensures Block(result, row, PartitionColumn(b), fft.bins) ==
            old@Before(Block(result, row, PartitionColumn(b), fft.bins))
        {
          BlocksApart(b, part, padded);
        }
      }
      status := Ok;
    }

    method ZeroTimeBuffer()
      modifies timeBuffer
      ensures forall j :: 0 <= j < timeBuffer.Length ==> timeBuffer[j] == 0.0
    {
      for i := 0 to timeBuffer.Length
        invariant forall j :: 0 <= j < i ==> timeBuffer[j] == 0.0
      {
        timeBuffer[i] := 0.0;
      }
    }

    // Zero-filled, then loaded with the scaled taps of one partition.
    method LoadTaps(ir: seq<real>, irLength: nat, part: nat)
      requires Shape() && irLength <= |ir| && part < partitions
      modifies timeBuffer
      ensures timeBuffer[..] == Taps(ir[..irLength], blockLength, part, filterScale)
    {
      hide IsFft, FilterScale, Window, Taps, SMul, ColumnOf;
      ZeroTimeBuffer();
      PartitionRange(part, blockLength);
      var startIdx := part * blockLength;
      var endIdx := if (part + 1) * blockLength < irLength then (part + 1) * blockLength else irLength;
      CopyScaled(ir, irLength, startIdx, endIdx);
      TapsValue(ir, irLength, blockLength, part, startIdx, filterScale, timeBuffer[..]);
    }

    // The taps of the partition, scaled, if there are any.
    method CopyScaled(ir: seq<real>, irLength: nat, startIdx: nat, endIdx: nat)
      requires timeBuffer.Length == 2 * blockLength && irLength <= |ir|
      requires endIdx == if startIdx + blockLength < irLength then startIdx + blockLength else irLength
      requires forall j :: 0 <= j < timeBuffer.Length ==> timeBuffer[j] == 0.0
      modifies timeBuffer
      ensures forall j :: 0 <= j < timeBuffer.Length ==>
        timeBuffer[j] == if j < blockLength && startIdx + j < irLength then SMul(filterScale, ir[startIdx + j]) else 0.0
    {
      hide SMul;
      if endIdx > startIdx {
        for i := 0 to endIdx - startIdx
          invariant forall j :: 0 <= j < timeBuffer.Length ==>
            timeBuffer[j] == if j < i then SMul(filterScale, ir[startIdx + j]) else 0.0
        {
          timeBuffer[i] := SMul(filterScale, ir[startIdx + i]);
        }
      }
    }

    /** setImpulseResponse */
    method SetImpulseResponse(ir: seq<real>, filterLength: nat, filterIdx: nat) returns (status: Status)
      requires Valid() && filterLength <= |ir|
      modifies this`irs, timeBuffer, filters
      ensures Valid()
      ensures status == Ok <==> filterIdx < maxFilterEntries && filterLength <= maxFilterLength
      ensures irs == if status == Ok then old(irs)[filterIdx := ir[..filterLength]] else old(irs)
    {
      hide IsFft, FilterScale, Window, Taps, ColumnOf;
      if filterIdx >= maxFilterEntries { return InvalidArgument; }
      status := TransformImpulseResponse(ir, filterLength, filters, filterIdx);
      if status == Ok { irs := irs[filterIdx := ir[..filterLength]]; }
      forall f, b | 0 <= f < maxFilterEntries && 0 <= b < partitions ensures FilterHolds(f, b, irs[f]) {
        if f != filterIdx || status != Ok {
          assert old(FilterHolds(f, b, irs[f]));
          assert Block(filters, f, PartitionColumn(b), fft.bins) ==
            old(Block(filters, f, PartitionColumn(b), fft.bins));
        }
      }
    }

    /** setFilter: an already transformed filter is stored as it is. If it was made from a response
        that fits, ir, the entry is that response from now on. */
    method SetFilter(transformed: seq<Cx>, filterIdx: nat, ghost ir: seq<real>) returns (status: Status)
      requires Valid() && |transformed| == padded * partitions
      modifies this`irs, filters
      ensures status == Ok <==> filterIdx < maxFilterEntries
      ensures Shape()
      ensures forall r, c :: 0 <= r < maxFilterEntries && 0 <= c < padded * partitions ==>
        filters[r, c] == if r == filterIdx then transformed[c] else old(filters[r, c])
      ensures status != Ok ==> Valid() && irs == old(irs)
      ensures status == Ok && |ir| <= maxFilterLength && IsTransformOf(transformed, ir) ==>
        Valid() && irs == old(irs)[filterIdx := ir]
    {
      hide IsFft, FilterScale, Window, Taps, ColumnOf;
      if filterIdx >= maxFilterEntries { return InvalidArgument; }
      StoreBlock(filters, filterIdx, 0, transformed);
      if |ir| <= maxFilterLength && IsTransformOf(transformed, ir) {
        irs := irs[filterIdx := ir];
        forall f, b | 0 <= f < maxFilterEntries && 0 <= b < partitions ensures FilterHolds(f, b, irs[f]) {
          if f != filterIdx {
            assert old(FilterHolds(f, b, irs[f]));
            assert Block(filters, f, PartitionColumn(b), fft.bins) ==
              old(Block(filters, f, PartitionColumn(b), fft.bins));
          } else {
            var col := PartitionColumn(b);
            assert Block(filters, f, col, fft.bins) == transformed[col..col + fft.bins];
          }
        }
      }
      status := Ok;
    }

    ghost predicate IsTransformOf(transformed: seq<Cx>, ir: seq<real>)
      requires Sizes() && |transformed| == padded * partitions
    {
      SpectraOf(fft, blockLength, padded, partitions, transformed, ir)
    }

    /** initFilters: all entries are cleared before the sizes are checked. */
    method InitFilters(newFilters: seq<seq<real>>, numberOfColumns: nat) returns (status: Status)
      requires Valid() && forall f :: 0 <= f < |newFilters| ==> |newFilters[f]| == numberOfColumns
      modifies this`irs, timeBuffer, filters
      ensures Valid()
      ensures status == Ok <==> |newFilters| <= maxFilterEntries && numberOfColumns <= maxFilterLength
      ensures irs == Loaded(if status == Ok then newFilters else [], maxFilterEntries)
    {
      hide IsFft, FilterScale, Window, Taps, ColumnOf;
      ClearFilters();
      if |newFilters| > maxFilterEntries { return InvalidArgument; }
      if numberOfColumns > maxFilterLength { return InvalidArgument; }
      for f := 0 to |newFilters|
        invariant Valid() && |irs| == maxFilterEntries
        invariant forall g :: 0 <= g < maxFilterEntries ==> irs[g] == if g < f then newFilters[g] else []
      {
        var s := SetImpulseResponse(newFilters[f], numberOfColumns, f);
        assert newFilters[f][..numberOfColumns] == newFilters[f];
      }
      status := Ok;
    }

    constructor (numIn: nat, numOut: nat, B: nat, maxLength: nat, maxFilters: nat,
                 initialFilters: seq<seq<real>>, numberOfColumns: nat, alignment: nat, transform: Fft)
      requires B >= 1 && maxLength >= 1
      requires IsFft(transform) && transform.size == 2 * B && transform.bins == B + 1
      requires forall f :: 0 <= f < |initialFilters| ==> |initialFilters[f]| == numberOfColumns
      requires |initialFilters| <= maxFilters && numberOfColumns <= maxLength
      ensures Valid() && fresh(inputBuffers) && fresh(inputBuffers.buffer)
      ensures fresh(inputFdl) && fresh(filters) && fresh(timeBuffer) && fresh(accumulator)
      ensures numberOfInputs == numIn && numberOfOutputs == numOut && blockLength == B && maxFilterLength == maxLength
      ensures maxFilterEntries == maxFilters && fft == transform
      ensures padded == NextAlignedSize(B + 1, alignment / 2) && partitions == NumberOfPartitions(maxLength, B)
      ensures inputBuffers.stream == seq(numIn, _ => [])
      ensures irs == Loaded(initialFilters, maxFilters)
    {
      hide IsFft, FilterScale, Window, Taps, ColumnOf;
      numberOfInputs, numberOfOutputs, blockLength, maxFilterLength := numIn, numOut, B, maxLength;
      var K, P := NumberOfPartitions(maxLength, B), NextAlignedSize(B + 1, alignment / 2);
      partitions, padded, maxFilterEntries := K, P, maxFilters;
      fft := transform;
      FftSizes(transform);
      filterScale := FilterScale(transform);
      inputBuffers := new CircularBuffer(numIn, 2 * B, alignment);
      inputFdl := new Cx[numIn, P * K]((i, j) => ZERO);
      timeBuffer := new real[2 * B];
      filters := new Cx[maxFilters, P * K]((i, j) => ZERO);
      accumulator := new Cx[P];
      fdlOffset := 0;
      irs := seq(maxFilters, _ => []);
      new;
      PositiveFactors(B, K);
      forall ch, b | 0 <= ch < numberOfInputs && 0 <= b < partitions ensures FdlHolds(ch, b, inputBuffers.stream[ch]) {
        SilentSpectrum(fft, blockLength, b, Block(inputFdl, ch, FdlColumn(b), fft.bins));
      }
      forall f, b | 0 <= f < maxFilterEntries && 0 <= b < partitions ensures FilterHolds(f, b, irs[f]) {
        EmptySpectrum(fft, blockLength, b, filterScale, Block(filters, f, PartitionColumn(b), fft.bins));
      }
      var status := InitFilters(initialFilters, numberOfColumns);
    }

    /** The spectra of the last input windows of a channel, newest first. */
    ghost function FdlBlocks(ch: nat): (U: seq<seq<Cx>>)
      requires Shape() && ch < numberOfInputs
      reads this`fdlOffset, inputFdl
      ensures |U| == partitions && forall b :: 0 <= b < partitions ==> |U[b]| == fft.bins
      ensures forall b :: 0 <= b < partitions ==> U[b] == Block(inputFdl, ch, FdlColumn(b), fft.bins)
    {
      var offset := fdlOffset;
      seq(partitions, b requires Sizes() && offset < partitions && 0 <= b < partitions reads inputFdl =>
        Block(inputFdl, ch, SlotColumn(offset, b), fft.bins))
    }

    /** The spectra of the partitions of a filter entry. */
    ghost function FilterBlocks(f: nat): (V: seq<seq<Cx>>)
      requires Sizes() && f < maxFilterEntries
      reads filters
      ensures |V| == partitions && forall b :: 0 <= b < partitions ==> |V[b]| == fft.bins
      ensures forall b :: 0 <= b < partitions ==> V[b] == Block(filters, f, PartitionColumn(b), fft.bins)
    {
      seq(partitions, b requires Sizes() && 0 <= b < partitions reads filters =>
        Block(filters, f, PartitionColumn(b), fft.bins))
    }

    /** The spectrum processFilter computes for one input and one filter entry. */
    ghost function Filtered(ch: nat, f: nat, gain: real): (X: seq<Cx>)
      requires Shape() && ch < numberOfInputs && f < maxFilterEntries
      reads this`fdlOffset, inputFdl, filters
      ensures |X| == fft.bins
    {
      ScaleSeq(gain, AccBins(FdlBlocks(ch), FilterBlocks(f), fft.bins))
    }

    // Partition b: product of its two blocks, stored in or added to the accumulator.
    method MultiplyBlock(ch: nat, f: nat, b: nat)
      requires Shape() && ch < numberOfInputs && f < maxFilterEntries && b < partitions
      requires b > 0 ==> accumulator[..fft.bins] == Accumulated(FdlBlocks(ch), FilterBlocks(f), fft.bins, b)
      modifies accumulator
      ensures accumulator[..fft.bins] == Accumulated(FdlBlocks(ch), FilterBlocks(f), fft.bins, b + 1)
    {
      hide IsFft, FilterScale, Mul, Add, ColumnOf, Slot, Accumulated;
      ghost var U, V := FdlBlocks(ch), FilterBlocks(f);
      ghost var A := accumulator[..];
      var col, pcol := FdlColumn(b), PartitionColumn(b);
      var fdl, fil := inputFdl, filters;
      for k := 0 to padded
        invariant forall i :: 0 <= i < padded ==>
          accumulator[i] == if i >= k then A[i]
                            else if b == 0 then Mul(fdl[ch, col + i], fil[f, pcol + i])
                            else Add(A[i], Mul(fdl[ch, col + i], fil[f, pcol + i]))
      {
        var product := Mul(fdl[ch, col + k], fil[f, pcol + k]);
        accumulator[k] := if b == 0 then product else Add(accumulator[k], product);
      }
      forall i | 0 <= i < fft.bins
        ensures accumulator[i] == Accumulated(U, V, fft.bins, b + 1)[i]
      {
        AccumulatedAt(U, V, fft.bins, b, i);
        assert U[b][i] == fdl[ch, col + i] && V[b][i] == fil[f, pcol + i];
        if b > 0 { assert A[i] == Accumulated(U, V, fft.bins, b)[i]; }
      }
    }

    // The last loop of processFilter: the accumulator times the gain, stored in or added to a row.
    method StoreScaled(gain: real, result: array2<Cx>, row: nat, addFlag: bool)
      requires Shape() && row < result.Length0 && result.Length1 == padded
      modifies result
      ensures forall r, c :: 0 <= r < result.Length0 && 0 <= c < padded ==>
        result[r, c] == if r != row then old(result[r, c])
                        else if addFlag then Add(old(result[r, c]), Scale(gain, accumulator[c]))
                        else Scale(gain, accumulator[c])
    {
      hide IsFft, FilterScale, Add, Scale;
      for k := 0 to padded
        invariant forall r, c :: 0 <= r < result.Length0 && 0 <= c < padded ==>
          result[r, c] == if r != row || c >= k then old(result[r, c])
                          else if addFlag then Add(old(result[r, c]), Scale(gain, accumulator[c]))
                          else Scale(gain, accumulator[c])
      {
        var scaled := Scale(gain, accumulator[k]);
        result[row, k] := if addFlag then Add(result[row, k], scaled) else scaled;
      }
    }

    /** processFilter: the spectrum of the filtered input, stored in or added to a result row. */
    method ProcessFilter(ch: nat, f: nat, gain: real, result: array2<Cx>, row: nat, addFlag: bool)
      requires Shape() && ch < numberOfInputs && f < maxFilterEntries
      requires row < result.Length0 && result.Length1 == padded
      requires result != inputFdl && result != filters
      modifies accumulator, result
      ensures Block(result, row, 0, fft.bins) ==
              if addFlag then AddSeq(old(Block(result, row, 0, fft.bins)), Filtered(ch, f, gain))
                else Filtered(ch, f, gain)
      ensures forall r, c :: 0 <= r < result.Length0 && 0 <= c < padded && r != row ==>
        result[r, c] == old(result[r, c])
    {
      hide IsFft, FilterScale, Mul, Add, Scale, Accumulated, ColumnOf;
      MultiplyBlock(ch, f, 0);
      for b := 1 to partitions
        invariant accumulator[..fft.bins] == Accumulated(FdlBlocks(ch), FilterBlocks(f), fft.bins, b)
        invariant forall r, c :: 0 <= r < result.Length0 && 0 <= c < padded ==> result[r, c] == old(result[r, c])
      {
        MultiplyBlock(ch, f, b);
      }
      StoreScaled(gain, result, row, addFlag);
    }

    /** transformOutput: the inverse transform without its aliased first half. */
    method TransformOutput(fdBlock: array2<Cx>, row: nat, tdResult: array2<real>, outRow: nat)
      requires Shape() && row < fdBlock.Length0 && fdBlock.Length1 == padded
      requires outRow < tdResult.Length0 && tdResult.Length1 == blockLength
      modifies timeBuffer, tdResult
      ensures |fft.inverse(Block(fdBlock, row, 0, fft.bins))| == 2 * blockLength
      ensures forall r, n :: 0 <= r < tdResult.Length0 && 0 <= n < blockLength ==>
        tdResult[r, n] == if r == outRow then fft.inverse(Block(fdBlock, row, 0, fft.bins))[blockLength + n]
          else old(tdResult[r, n])
    {
      hide IsFft, FilterScale;
      var fdb, bins := fdBlock, fft.bins;
      var X := seq(bins, i requires 0 <= i < bins reads fdb => fdb[row, i]);
      assert X == Block(fdBlock, row, 0, bins);
      InverseLength(fft, X);
      var y := fft.inverse(X);
      for i := 0 to timeBuffer.Length
        invariant forall j :: 0 <= j < i ==> timeBuffer[j] == y[j]
        invariant forall r, n :: 0 <= r < tdResult.Length0 && 0 <= n < blockLength ==>
          tdResult[r, n] == old(tdResult[r, n])
      {
        timeBuffer[i] := y[i];
      }
      for n := 0 to blockLength
        invariant timeBuffer[..] == y
        invariant forall r, i :: 0 <= r < tdResult.Length0 && 0 <= i < blockLength ==>
          tdResult[r, i] == if r == outRow && i < n then y[blockLength + i] else old(tdResult[r, i])
      {
        tdResult[outRow, n] := timeBuffer[blockLength + n];
      }
    }

    /** processFilter followed by transformOutput is direct FIR filtering of the input: sample n
        of the newest block, times the gain and the forward scaling factor of the transform. */
    lemma FilteredOutput(ch: nat, f: nat, gain: real, n: nat)
      requires Valid() && ch < numberOfInputs && f < maxFilterEntries && n < blockLength
      ensures |fft.inverse(Filtered(ch, f, gain))| == 2 * blockLength
      ensures fft.inverse(Filtered(ch, f, gain))[blockLength + n] ==
              Output(irs[f], inputBuffers.stream[ch], n, blockLength, gain, fft.forwardScale)
      ensures fft.inverse(Filtered(ch, f, gain))[blockLength + n] ==
              gain * (fft.forwardScale *
                      Fir(irs[f], inputBuffers.stream[ch], |inputBuffers.stream[ch]| - blockLength + n))
    {
      hide IsFft, FilterScale, Window, Taps, Output, Accumulated, ScaleSeq, Fir;
      var U, V := FdlBlocks(ch), FilterBlocks(f);
      var x, h := inputBuffers.stream[ch], irs[f];
      OutputIs(h, x, n, blockLength, gain, fft.forwardScale);
      forall b | 0 <= b < partitions
        ensures U[b] == fft.forward(Window(x, blockLength, b))
          && V[b] == fft.forward(Taps(h, blockLength, b, filterScale))
      {
        assert FdlHolds(ch, b, x) && FilterHolds(f, b, h);
      }
      assert Spectra(fft, U, V, x, h, blockLength, filterScale);
      PartitionedIsDirect(fft, U, V, x, h, blockLength, gain, n);
    }
  }

  lemma InverseLength(f: Fft, X: seq<Cx>)
    requires IsFft(f) && |X| == f.bins
    ensures |f.inverse(X)| == f.size
  {}

  lemma ForwardLength(f: Fft, x: seq<real>)
    requires IsFft(f) && |x| == f.size
    ensures |f.forward(x)| == f.bins
  {}

  // Before the first block every window is silent; an absent filter has silent partitions.

  lemma SilentSpectrum(f: Fft, B: nat, b: nat, X: seq<Cx>)
    requires IsFft(f) && f.size == 2 * B && |X| == f.bins && Dark(X)
    ensures X == f.forward(Window([], B, b))
  {
    hide Additive, Homogeneous, Convolves;
    assert Silent(Window([], B, b));
    assert Dark(f.forward(Window([], B, b)));
  }

  lemma EmptySpectrum(f: Fft, B: nat, b: nat, scale: real, X: seq<Cx>)
    requires IsFft(f) && f.size == 2 * B && |X| == f.bins && Dark(X)
    ensures X == f.forward(Taps([], B, b, scale))
  {
    hide Additive, Homogeneous, Convolves;
    assert Silent(Taps([], B, b, scale));
    assert Dark(f.forward(Taps([], B, b, scale)));
  }
}
