/** The buffer behind pipes and local sockets (model/fifo-buffer.cc): a growing, compacting
    array that behaves as a bounded queue of bytes. */
module FifoBuffer {
  newtype uint8 = x: int | 0 <= x < 256

  const MIN_ALLOC := 1024

  function Min(a: nat, b: nat): nat {
    if a < b then a else b
  }

  // ---------- the queue it is meant to be ----------

  datatype Event = Put(bytes: seq<uint8>) | Get(len: nat)

  function Accepted(max: nat, queue: seq<uint8>, bytes: seq<uint8>): seq<uint8>
    requires |queue| <= max
  {
    bytes[..Min(|bytes|, max - |queue|)]
  }

  function Delivered(queue: seq<uint8>, len: nat): seq<uint8> {
    queue[..Min(len, |queue|)]
  }

  /** The queue after a run, what it has delivered, and what it has accepted. */
  function Run(max: nat, events: seq<Event>): (r: (seq<uint8>, seq<uint8>, seq<uint8>))
    ensures |r.0| <= max
  {
    if events == [] then ([], [], [])
    else
      var (queue, out, taken) := Run(max, events[..|events| - 1]);
      match events[|events| - 1]
      case Put(bytes) => (queue + Accepted(max, queue, bytes), out, taken + Accepted(max, queue, bytes))
      case Get(len) => (queue[Min(len, |queue|)..], out + Delivered(queue, len), taken)
  }

  /** First in, first out, nothing lost: what was delivered and what is still there are,
      in this order, what was accepted. */
  lemma {:induction false} InOrder(max: nat, events: seq<Event>)
    ensures var (queue, out, taken) := Run(max, events); out + queue == taken
  {
    if events != [] {
      var init := events[..|events| - 1];
      InOrder(max, init);
      var (queue, out, taken) := Run(max, init);
      match events[|events| - 1]
      case Put(bytes) => assert out + (queue + Accepted(max, queue, bytes)) == taken + Accepted(max, queue, bytes);
      case Get(len) => assert queue == Delivered(queue, len) + queue[Min(len, |queue|)..];
    }
  }

  /** A queue with enough space takes everything, and gives what it holds from the front. */
  lemma QueueSteps(max: nat, events: seq<Event>, bytes: seq<uint8>, len: nat)
    ensures var (queue, out, taken) := Run(max, events);
            var space := max - |queue|;
            && (|bytes| <= space ==> Run(max, events + [Put(bytes)]) == (queue + bytes, out, taken + bytes))
            && (|bytes| > space ==>
                  Run(max, events + [Put(bytes)]) == (queue + bytes[..space], out, taken + bytes[..space]))
            && (len >= |queue| ==> Run(max, events + [Get(len)]) == ([], out + queue, taken))
            && (len < |queue| ==> Run(max, events + [Get(len)]) == (queue[len..], out + queue[..len], taken))
  {
    assert (events + [Put(bytes)])[..|events|] == events && (events + [Get(len)])[..|events|] == events;
    var queue := Run(max, events).0;
    assert bytes[..|bytes|] == bytes && queue[..|queue|] == queue && queue[|queue|..] == [];
  }

  // ---------- the array ----------

  class FifoBuffer {
    const maxSize: nat
    var buffer: array<uint8>
    var read: nat
    var fill: nat
    var size: nat

    ghost predicate Valid()
      reads this
    {
      read <= fill <= size <= maxSize && buffer.Length == size
    }

    ghost function Contents(): (s: seq<uint8>)
      reads this, buffer
      requires Valid()
      ensures |s| <= maxSize
    {
      buffer[read..fill]
    }

    constructor (maxSize: nat)
      ensures Valid() && fresh(buffer) && this.maxSize == maxSize && Contents() == []
    {
      this.maxSize, read, fill, size := maxSize, 0, 0, 0;
      buffer := new uint8[0];
    }

    /** Copies the first n bytes behind the last one in use. */
    method Append(buf: seq<uint8>, n: nat)
      requires Valid() && n <= |buf| && fill + n <= size
      modifies this`fill, buffer
      ensures Valid() && Contents() == old(Contents()) + buf[..n]
    {
      forall i | 0 <= i < n {
        buffer[fill + i] := buf[i];
      }
      assert buffer[..fill] == old(buffer[..fill]) && buffer[fill..fill + n] == buf[..n];
      assert buffer[read..fill + n] == buffer[..fill][read..] + buffer[fill..fill + n];
      fill := fill + n;
    }

    /** Moves the bytes in use to the front. */
    method Compact()
      requires Valid()
      modifies this`read, this`fill, buffer
      ensures Valid() && read == 0 && Contents() == old(Contents())
    {
      if fill > read {
        forall i | 0 <= i < fill - read {
          buffer[i] := buffer[read + i];
        }
      }
      assert buffer[..fill - read] == old(buffer[read..fill]);
      fill := fill - read;
      read := 0;
    }

    /** Moves the bytes in use to a larger array. */
    method Grow(newSize: nat)
      requires Valid() && size <= newSize <= maxSize
      modifies this`buffer, this`read, this`fill, this`size
      ensures Valid() && fresh(buffer) && read == 0 && size == newSize && Contents() == old(Contents())
    {
      var newBuf := new uint8[newSize];
      forall i | 0 <= i < fill - read {
        newBuf[i] := buffer[read + i];
      }
      assert newBuf[..fill - read] == buffer[read..fill];
      buffer := newBuf;
      fill := fill - read;
      read := 0;
      size := newSize;
    }

    /** Appends as much as there is space for.  `memory` tells whether an allocation, if
        one is needed, succeeds; if not, nothing is written and -1 is returned. */
    method Write(buf: seq<uint8>, memory: bool) returns (r: int)
      requires Valid()
      modifies this, buffer
      ensures Valid() && (buffer == old(buffer) || fresh(buffer))
      ensures memory ==> r >= 0
      ensures r < 0 ==> r == -1 && Contents() == old(Contents())
      ensures r >= 0 ==> r == Min(|buf|, maxSize - |old(Contents())|)
      ensures r >= 0 ==> Contents() == old(Contents()) + Accepted(maxSize, old(Contents()), buf)
      ensures r >= 0 ==>
                var was, space := old(Contents()), maxSize - |old(Contents())|;
                && r == (if |buf| <= space then |buf| else space) && |Contents()| == |was| + r
                && (forall i | 0 <= i < |was| :: Contents()[i] == was[i])
                && forall i | 0 <= i < r :: Contents()[|was| + i] == buf[i]
      decreases maxSize - size, read
    {
      var capa := size - fill;
      if |buf| <= capa {
        Append(buf, |buf|);
        return |buf|;
      }
      if read > 0 && size <= maxSize {
        Compact();
        r := Write(buf, memory);
        return;
      }
      if size == maxSize {
        if capa > 0 {
          Append(buf, capa);
          return capa;
        }
      } else {
        var newSize := |buf| + fill;
        if newSize - size < MIN_ALLOC {
          newSize := size + MIN_ALLOC;
        }
        if newSize > maxSize {
          newSize := maxSize;
        }
        if !memory {
          return -1;
        }
        Grow(newSize);
        r := Write(buf, memory);
        return;
      }
      assert buf[..0] == [];
      return 0;
    }

    /** Removes and returns the first bytes. */
    method Read(len: nat) returns (buf: seq<uint8>)
      requires Valid()
      modifies this`read
      ensures Valid() && buf == Delivered(old(Contents()), len)
      ensures Contents() == old(Contents())[Min(len, |old(Contents())|)..]
      ensures var was := old(Contents());
              && |buf| == (if len <= |was| then len else |was|) && |Contents()| == |was| - |buf|
              && (forall i | 0 <= i < |buf| :: buf[i] == was[i])
              && forall i | 0 <= i < |Contents()| :: Contents()[i] == was[|buf| + i]
    {
      var capa := fill - read;
      if capa > 0 {
        var l := Min(len, capa);
        buf := buffer[read..read + l];
        read := read + l;
        return;
      }
      return [];
    }

    method GetSize() returns (n: nat)
      requires Valid()
      ensures n == |Contents()|
    {
      return fill - read;
    }

    method GetSpace() returns (n: nat)
      requires Valid()
      ensures n == maxSize - |Contents()|
    {
      var used := GetSize();
      return maxSize - used;
    }
  }

  /** The buffer does what the queue does, in every interleaving of writes and reads. */
  method Replay(max: nat, events: seq<Event>) returns (b: FifoBuffer, out: seq<uint8>)
    ensures fresh(b) && b.Valid() && b.maxSize == max
    ensures b.Contents() == Run(max, events).0 && out == Run(max, events).1
  {
    b := new FifoBuffer(max);
    out := [];
    for i := 0 to |events|
      invariant fresh(b) && fresh(b.buffer) && b.Valid() && b.maxSize == max
      invariant b.Contents() == Run(max, events[..i]).0 && out == Run(max, events[..i]).1
    {
      assert events[..i + 1][..i] == events[..i];
      match events[i]
      case Put(bytes) =>
        var n := b.Write(bytes, true);
      case Get(len) =>
        var bytes := b.Read(len);
        out := out + bytes;
    }
    assert events[..|events|] == events;
  }
}
