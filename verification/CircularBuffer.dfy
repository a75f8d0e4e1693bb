/**
 The multichannel circular buffer of librbbl. Every channel is stored twice in a row, so that
 the last samples can be read as one contiguous stretch wherever the write head stands.
 */
module CircularBuffers {
  import opened Arithmetic
  import opened Signals

  datatype Status = Ok | InvalidArgument

  /** efl::nextAlignedSize */
  function NextAlignedSize(size: nat, alignment: nat): (r: nat)
    ensures r >= size
    ensures alignment > 0 ==> r % alignment == 0 && r < size + alignment
  {
    if alignment == 0 then size
    else
      var rem := size % alignment;
      if rem == 0 then size
      else
        ModPeriod(0, size / alignment + 1, alignment);
        assert size + alignment - rem == 0 + (size / alignment + 1) * alignment;
        size + alignment - rem
  }

  // The cell of the first half that holds the sample written e samples before the head.
  function Cell(head: nat, e: int, capacity: nat): int {
    if head >= e then head - e else head - e + capacity
  }

  /** Every stream continued by the first n samples of its channel's data. */
  ghost function Appended(stream: seq<seq<real>>, data: seq<seq<real>>, n: nat): (r: seq<seq<real>>)
    requires |data| == |stream| && forall ch :: 0 <= ch < |data| ==> |data[ch]| >= n
    ensures |r| == |stream| && forall ch :: 0 <= ch < |stream| ==> r[ch] == stream[ch] + data[ch][..n]
  {
    seq(|stream|, ch requires 0 <= ch < |stream| => stream[ch] + data[ch][..n])
  }

  // The sample e before the end of a stream that was continued by a block.
  lemma SampleAt(s: seq<real>, block: seq<real>, e: nat)
    requires 1 <= e
    ensures RAt(s + block, |s| + |block| - e) == if e > |block| then RAt(s, |s| - (e - |block|)) else block[|block| - e]
  {}

  class CircularBuffer {
    const length: nat
    const capacity: nat
    const channels: nat
    const buffer: array2<real>
    var writeHead: nat

    /** All samples written so far, channel by channel. */
    ghost var stream: seq<seq<real>>
    ghost var total: nat

    ghost predicate Shape()
      reads this
    {
      && 1 <= length <= capacity
      && buffer.Length0 == channels && buffer.Length1 == 2 * capacity
      && writeHead < capacity
      && |stream| == channels
      && forall ch :: 0 <= ch < channels ==> |stream[ch]| == total
    }

    // The sample at both of its places in row ch.
    ghost predicate Holds(ch: nat, e: int)
      requires Shape() && ch < channels && 1 <= e <= capacity
      reads this, buffer
    {
      && buffer[ch, Cell(writeHead, e, capacity)] == RAt(stream[ch], total - e)
      && buffer[ch, Cell(writeHead, e, capacity) + capacity] == RAt(stream[ch], total - e)
    }

    ghost predicate Valid()
      reads this, buffer
    {
      && Shape()
      && forall ch, e :: 0 <= ch < channels && 1 <= e <= capacity ==> Holds(ch, e)
    }

    constructor (numberOfChannels: nat, requestedLength: nat, alignment: nat)
      requires requestedLength >= 1
      ensures Valid() && fresh(buffer)
      ensures length == requestedLength && channels == numberOfChannels
      ensures total == 0 && stream == seq(numberOfChannels, _ => [])
    {
      length := requestedLength;
      channels := numberOfChannels;
      capacity := NextAlignedSize(requestedLength, alignment);
      buffer := new real[numberOfChannels, 2 * NextAlignedSize(requestedLength, alignment)]((i, j) => 0.0);
      writeHead := 0;
      stream := seq(numberOfChannels, _ => []);
      total := 0;
    }

    /** advanceWriteIndex: mirrors the samples just written from the head on, in one piece or,
        if they ran past the first half, in two. */
    method AdvanceWriteIndex(advanceSamples: nat) returns (newHead: nat)
      requires Shape() && advanceSamples <= capacity
      modifies buffer
      ensures newHead < capacity
      ensures newHead == if writeHead + advanceSamples < capacity then writeHead + advanceSamples
                         else writeHead + advanceSamples - capacity
      ensures forall ch, c :: 0 <= ch < channels && 0 <= c < 2 * capacity ==>
        buffer[ch, c] ==
          if writeHead + capacity <= c < writeHead + capacity + advanceSamples then old(buffer[ch, c - capacity])
          else if c + capacity < writeHead + advanceSamples then old(buffer[ch, c + capacity])
          else old(buffer[ch, c])
    {
      var firstBlockEnd := if writeHead + advanceSamples < capacity then writeHead + advanceSamples else capacity;
      var samplesInFirstBlock := firstBlockEnd - writeHead;
      for ch := 0 to channels
        invariant forall r, c :: 0 <= r < channels && 0 <= c < 2 * capacity ==>
          buffer[r, c] == if r < ch && writeHead + capacity <= c < writeHead + capacity + samplesInFirstBlock
                          then old(buffer[r, c - capacity]) else old(buffer[r, c])
      {
        CopyWithin(ch, writeHead, writeHead + capacity, samplesInFirstBlock);
      }
      if samplesInFirstBlock < advanceSamples {
        var remainingSamples := advanceSamples - samplesInFirstBlock;
        label Mirrored:
        for ch := 0 to channels
          invariant forall r, c :: 0 <= r < channels && 0 <= c < 2 * capacity ==>
            buffer[r, c] == if r < ch && c < remainingSamples
                            then old@Mirrored(buffer[r, c + capacity]) else old@Mirrored(buffer[r, c])
        {
          CopyWithin(ch, capacity, 0, remainingSamples);
        }
      }
      newHead := (writeHead + advanceSamples) % capacity;
      assert newHead == if writeHead + advanceSamples < capacity then writeHead + advanceSamples
                        else writeHead + advanceSamples - capacity by {
        if writeHead + advanceSamples < capacity {
          DivModUnique(writeHead + advanceSamples, 0, writeHead + advanceSamples, capacity);
        } else {
          DivModUnique(writeHead + advanceSamples, 1, writeHead + advanceSamples - capacity, capacity);
        }
      }
    }

    // vectorCopy between two disjoint stretches of one row.
    method CopyWithin(ch: nat, from: nat, to: nat, n: nat)
      requires Shape() && ch < channels
      requires from + n <= 2 * capacity && to + n <= 2 * capacity
      requires from + n <= to || to + n <= from
      modifies buffer
      ensures forall r, c :: 0 <= r < channels && 0 <= c < 2 * capacity ==>
        buffer[r, c] == if r == ch && to <= c < to + n then old(buffer[r, from + (c - to)]) else old(buffer[r, c])
    {
      for i := 0 to n
        invariant forall r, c :: 0 <= r < channels && 0 <= c < 2 * capacity ==>
          buffer[r, c] == if r == ch && to <= c < to + i then old(buffer[r, from + (c - to)]) else old(buffer[r, c])
      {
        buffer[ch, to + i] := buffer[ch, from + i];
      }
    }

    /** write: refuses a wrong channel count and more samples than the buffer is long; otherwise
        appends numberOfSamples samples to every channel. */
    method Write(data: seq<seq<real>>, numberOfSamples: nat) returns (status: Status)
      requires Valid()
      requires forall ch :: 0 <= ch < |data| ==> |data[ch]| >= numberOfSamples
      modifies this, buffer
      ensures Valid()
      ensures status == Ok <==> |data| == channels && numberOfSamples <= length
      ensures status == Ok ==> total == old(total) + numberOfSamples
      ensures status == Ok ==> stream == Appended(old(stream), data, numberOfSamples)
      ensures status == Ok ==> |stream| == channels
      ensures status == Ok ==>
        forall ch :: 0 <= ch < channels ==> stream[ch] == old(stream[ch]) + data[ch][..numberOfSamples]
      ensures status != Ok ==> total == old(total) && stream == old(stream) && writeHead == old(writeHead)
    {
      if |data| != channels { return InvalidArgument; }
      if numberOfSamples > length { return InvalidArgument; }
      for ch := 0 to channels
        invariant Shape() && stream == old(stream) && total == old(total) && writeHead == old(writeHead)
        invariant forall r, c :: 0 <= r < channels && 0 <= c < 2 * capacity ==>
          buffer[r, c] == if r < ch && writeHead <= c < writeHead + numberOfSamples
                          then data[r][c - writeHead] else old(buffer[r, c])
      {
        CopyIn(ch, writeHead, data[ch], numberOfSamples);
      }
      forall ch, e | 0 <= ch < channels && 1 <= e <= capacity - numberOfSamples ensures Holds(ch, e) {
        assert old(Holds(ch, e));
      }
      Commit(data, numberOfSamples);
      status := Ok;
    }

    /** commitWrite: concludes samples placed at the write pointers by the caller. */
    method CommitWrite(ghost data: seq<seq<real>>, numberOfSamples: nat) returns (status: Status)
      requires Shape() && |data| == channels
      requires forall ch :: 0 <= ch < channels ==> |data[ch]| >= numberOfSamples
      requires numberOfSamples <= length ==> Placed(data, numberOfSamples)
      modifies this, buffer
      ensures status == Ok <==> numberOfSamples <= length
      ensures status == Ok ==> Valid() && total == old(total) + numberOfSamples
      ensures status == Ok ==> stream == Appended(old(stream), data, numberOfSamples)
      ensures status == Ok ==> |stream| == channels
      ensures status == Ok ==>
        forall ch :: 0 <= ch < channels ==> stream[ch] == old(stream[ch]) + data[ch][..numberOfSamples]
    {
      if numberOfSamples > length { return InvalidArgument; }
      Commit(data, numberOfSamples);
      status := Ok;
    }

    /** The next n samples stand at the write pointers; all older ones are still in place,
        except in the mirrored half where the new samples may already cover them. */
    ghost predicate Placed(data: seq<seq<real>>, n: nat)
      requires Shape() && |data| == channels && n <= length
      requires forall ch :: 0 <= ch < channels ==> |data[ch]| >= n
      reads this, buffer
    {
      && (forall ch, i {:trigger data[ch][i]} :: 0 <= ch < channels && 0 <= i < n ==>
          buffer[ch, writeHead + i] == data[ch][i])
      && (forall ch, e :: 0 <= ch < channels && 1 <= e <= capacity - n ==> Holds(ch, e))
    }

    method Commit(ghost data: seq<seq<real>>, n: nat)
      requires Shape() && |data| == channels && n <= length
      requires forall ch :: 0 <= ch < channels ==> |data[ch]| >= n
      requires Placed(data, n)
      modifies this, buffer
      ensures Valid() && total == old(total) + n
      ensures stream == Appended(old(stream), data, n)
    {
      hide RAt;
      var newHead := AdvanceWriteIndex(n);
      writeHead := newHead;
      stream := Appended(stream, data, n);
      total := total + n;
      forall ch, e | 0 <= ch < channels && 1 <= e <= capacity ensures Holds(ch, e) {
        SampleAt(old(stream[ch]), data[ch][..n], e);
        if e > n {
          assert old(Holds(ch, e - n));
        } else {
          assert old(buffer[ch, writeHead + (n - e)]) == data[ch][n - e];
        }
      }
    }

    // vectorCopy of the head of src into row ch.
    method CopyIn(ch: nat, to: nat, src: seq<real>, n: nat)
      requires Shape() && ch < channels && n <= |src| && to + n <= 2 * capacity
      modifies buffer
      ensures forall r, c :: 0 <= r < channels && 0 <= c < 2 * capacity ==>
        buffer[r, c] == if r == ch && to <= c < to + n then src[c - to] else old(buffer[r, c])
    {
      for i := 0 to n
        invariant forall r, c :: 0 <= r < channels && 0 <= c < 2 * capacity ==>
          buffer[r, c] == if r == ch && to <= c < to + i then src[c - to] else old(buffer[r, c])
      {
        buffer[ch, to + i] := src[i];
      }
    }

    /** d consecutive cells of one row. */
    ghost function Cells(ch: nat, p: nat, d: nat): seq<real>
      requires buffer.Length0 == channels && buffer.Length1 == 2 * capacity && ch < channels && p + d <= 2 * capacity
      reads buffer
    {
      seq(d, j requires 0 <= j < d reads buffer => buffer[ch, p + j])
    }

    /** getReadPointer: the column from which the last `delay` samples can be read in one go. */
    function GetReadPointer(ch: nat, delay: nat): (p: nat)
      requires Valid() && ch < channels && delay <= length
      reads this, buffer
      ensures p + delay <= 2 * capacity
      ensures Cells(ch, p, delay) == LastSamples(stream[ch], delay)
    {
      assert Cells(ch, capacity + writeHead - delay, delay) == LastSamples(stream[ch], delay) by {
        forall j | 0 <= j < delay
          ensures Cells(ch, capacity + writeHead - delay, delay)[j] == LastSamples(stream[ch], delay)[j]
        {
          assert Holds(ch, delay - j);
        }
      }
      capacity + writeHead - delay
    }

    /** Cell by cell: delay samples before the newest one comes the oldest of those shown, and what
        lies before the first sample is silent. */
    lemma ReadPointerShows(ch: nat, delay: nat, j: nat)
      requires Valid() && ch < channels && j < delay <= length
      ensures var i := |stream[ch]| - delay + j;
        buffer[ch, GetReadPointer(ch, delay) + j] == if i < 0 then 0.0 else stream[ch][i]
    {
      assert Cells(ch, GetReadPointer(ch, delay), delay)[j] == LastSamples(stream[ch], delay)[j];
    }

    /** getReadPointers with one delay for all channels: unlike getReadPointer it refuses a delay
        equal to the length. */
    method GetReadPointers(delay: nat) returns (status: Status, pointers: seq<nat>)
      requires Valid()
      ensures status == Ok <==> delay < length
      ensures status == Ok ==> |pointers| == channels
      ensures status == Ok ==> forall ch :: 0 <= ch < channels ==>
        pointers[ch] + delay <= 2 * capacity && Cells(ch, pointers[ch], delay) == LastSamples(stream[ch], delay)
    {
      pointers := [];
      if delay >= length { return InvalidArgument, pointers; }
      for ch := 0 to channels
        invariant |pointers| == ch
        invariant forall r :: 0 <= r < ch ==>
          pointers[r] + delay <= 2 * capacity && Cells(r, pointers[r], delay) == LastSamples(stream[r], delay)
      {
        pointers := pointers + [GetReadPointer(ch, delay)];
      }
      status := Ok;
    }
  }
}
