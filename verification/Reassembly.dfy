/**
 Fixed-size frame reassembly: the pair of callbacks `getReadBuffer` / `readDataAvailable` rebuilds
 frames of `n` bytes from a byte stream that the transport delivers in reads of any size.
 */
module Reassembly {
  import opened Common

  type Byte = b: nat | b < 256

  // ----- What the frames of a stream are -----

  /** The whole `n`-byte blocks of a stream, in order. */
  function Cut(stream: seq<Byte>, n: nat): seq<seq<Byte>>
    requires n > 0
  {
    if |stream| < n then [] else [stream[..n]] + Cut(stream[n..], n)
  }

  /** What is left after the whole blocks. */
  function Rest(stream: seq<Byte>, n: nat): (r: seq<Byte>)
    requires n > 0
  {
    if |stream| < n then stream else Rest(stream[n..], n)
  }

  function Concat(frames: seq<seq<Byte>>): seq<Byte> {
    if frames == [] then [] else frames[0] + Concat(frames[1..])
  }

  /** Block k is bytes k*n up to (k+1)*n. */
  lemma {:induction false} CutAt(stream: seq<Byte>, n: nat, k: nat)
    requires n > 0 && k < |Cut(stream, n)|
    ensures k * n + n <= |stream| && Cut(stream, n)[k] == stream[k * n..k * n + n]
  {
    if k > 0 {
      CutAt(stream[n..], n, k - 1);
      assert (k - 1) * n + n == k * n;
      assert stream[n..][k * n - n..k * n] == stream[k * n..k * n + n];
    }
  }

  /** Every byte is in a block or in the remainder, and the remainder is too short to be a block. */
  lemma {:induction false} CutCounts(stream: seq<Byte>, n: nat)
    requires n > 0
    ensures |Cut(stream, n)| * n + |Rest(stream, n)| == |stream|
    ensures |Rest(stream, n)| < n
  {
    if |stream| >= n {
      CutCounts(stream[n..], n);
      assert |Cut(stream, n)| == 1 + |Cut(stream[n..], n)|;
      assert (1 + |Cut(stream[n..], n)|) * n == n + |Cut(stream[n..], n)| * n;
    }
  }

  lemma ConcatFront(first: seq<Byte>, frames: seq<seq<Byte>>, rest: seq<Byte>)
    ensures Concat([first] + frames) + rest == first + (Concat(frames) + rest)
  {
    assert ([first] + frames)[1..] == frames;
    ConcatAssociates(first, Concat(frames), rest);
  }

  lemma {:induction false} CutAndRest(stream: seq<Byte>, n: nat)
    requires n > 0
    ensures Concat(Cut(stream, n)) + Rest(stream, n) == stream
  {
    if |stream| < n {
      assert Concat([]) + stream == stream;
    } else {
      var first, more := stream[..n], stream[n..];
      CutAndRest(more, n);
      ConcatFront(first, Cut(more, n), Rest(more, n));
      SplitAt(stream, n);
    }
  }

  lemma {:induction false} CutLengths(stream: seq<Byte>, n: nat)
    requires n > 0
    ensures forall f :: f in Cut(stream, n) ==> |f| == n
  {
    if |stream| >= n {
      CutLengths(stream[n..], n);
    }
  }

  // ----- One read -----

  /** The reassembly state that matters for later frames: bytes in the partial buffer, then frames delivered so far. */
  datatype Progress = Progress(pending: seq<Byte>, delivered: seq<seq<Byte>>)

  /** How much a read of `wanted` bytes takes from what has arrived: never more than the buffer offers. */
  function Taken(pending: seq<Byte>, arrived: seq<Byte>, wanted: nat, n: nat): nat
    requires |pending| < n
  {
    Min(Min(wanted, |arrived|), n - |pending|)
  }

  /** `readDataAvailable` after `chunk` was written at the offered place. */
  function Feed(p: Progress, chunk: seq<Byte>, n: nat): Progress
    requires |p.pending| + |chunk| <= n
  {
    var bytes := p.pending + chunk;
    if |bytes| >= n then Progress([], p.delivered + [bytes]) else p.(pending := bytes)
  }

  /** A run of reads against `stream`, all of which has arrived; also says how much was consumed. */
  function Drive(p: Progress, stream: seq<Byte>, wants: seq<nat>, n: nat): (Progress, nat)
    requires |p.pending| < n
    decreases |wants|
  {
    if wants == [] then (p, 0) else
    var k := Taken(p.pending, stream, wants[0], n);
    var (q, used) := Drive(Feed(p, stream[..k], n), stream[k..], wants[1..], n);
    (q, k + used)
  }

  /** The transport may deliver any amount that has arrived and fits the offer. */
  lemma AnyReadSize(pending: seq<Byte>, arrived: seq<Byte>, k: nat, n: nat)
    requires |pending| < n
    ensures k <= |arrived| && k <= n - |pending| <==> Taken(pending, arrived, k, n) == k
    ensures Taken(pending, arrived, k, n) <= k
  {
  }

  /** Reads are taken one by one: the last continues where the others stopped. */
  lemma {:induction false} DriveAppend(p: Progress, stream: seq<Byte>, wants: seq<nat>, want: nat, n: nat)
    requires |p.pending| < n
    ensures Drive(p, stream, [], n) == (p, 0)
    ensures var (q, used) := Drive(p, stream, wants, n);
            && |q.pending| < n && used <= |stream|
            && var k := Taken(q.pending, stream[used..], want, n);
            Drive(p, stream, wants + [want], n) == (Feed(q, stream[used..used + k], n), used + k)
    decreases |wants|
  {
    if wants == [] {
      assert [] + [want] == [want] && [want][1..] == [];
      assert stream[0..] == stream;
    } else {
      var first := Taken(p.pending, stream, wants[0], n);
      var p1, rest := Feed(p, stream[..first], n), stream[first..];
      assert (wants + [want])[1..] == wants[1..] + [want];
      DriveAppend(p1, rest, wants[1..], want, n);
      var (q, used) := Drive(p1, rest, wants[1..], n);
      SliceOfRest(stream, first, used, Taken(q.pending, rest[used..], want, n));
    }
  }

  lemma SliceOfRest(stream: seq<Byte>, first: nat, used: nat, k: nat)
    requires first + used + k <= |stream|
    ensures stream[first..][used..] == stream[first + used..]
    ensures stream[first..][used..used + k] == stream[first + used..first + used + k]
  {
  }

  lemma DriveStep(p: Progress, stream: seq<Byte>, wants: seq<nat>, n: nat, k: nat, r: Progress, more: nat)
    requires |p.pending| < n && wants != [] && k == Taken(p.pending, stream, wants[0], n)
    requires (r, more) == Drive(Feed(p, stream[..k], n), stream[k..], wants[1..], n)
    ensures (r, k + more) == Drive(p, stream, wants, n)
  {
  }

  // ----- The result does not depend on the chunking -----

  lemma FeedCuts(p: Progress, chunk: seq<Byte>, n: nat)
    requires |p.pending| < n && |p.pending| + |chunk| <= n
    ensures var q := Feed(p, chunk, n);
            && q.delivered == p.delivered + Cut(p.pending + chunk, n)
            && q.pending == Rest(p.pending + chunk, n)
  {
    var bytes := p.pending + chunk;
    if |bytes| == n {
      assert bytes[..n] == bytes && bytes[n..] == [];
      assert Cut([], n) == [];
    }
  }

  lemma {:induction false} CutAppend(a: seq<Byte>, b: seq<Byte>, n: nat)
    requires n > 0
    ensures Cut(a + b, n) == Cut(a, n) + Cut(Rest(a, n) + b, n)
    ensures Rest(a + b, n) == Rest(Rest(a, n) + b, n)
  {
    if |a| >= n {
      assert (a + b)[..n] == a[..n] && (a + b)[n..] == a[n..] + b;
      CutAppend(a[n..], b, n);
    }
  }

  /** From `p`, consuming `bytes` delivered exactly their whole blocks and left `q` holding exactly the remainder. */
  ghost predicate Reassembled(p: Progress, bytes: seq<Byte>, q: Progress, n: nat)
    requires n > 0
  {
    && q.delivered == p.delivered + Cut(p.pending + bytes, n)
    && q.pending == Rest(p.pending + bytes, n)
  }

  lemma FeedThenMore(p: Progress, chunk: seq<Byte>, more: seq<Byte>, q: Progress, n: nat)
    requires |p.pending| < n && |p.pending| + |chunk| <= n
    requires Reassembled(Feed(p, chunk, n), more, q, n)
    ensures Reassembled(p, chunk + more, q, n)
  {
    FeedCuts(p, chunk, n);
    CutAppend(p.pending + chunk, more, n);
    ConcatAssociates(p.pending, chunk, more);
  }

  /**
   For every stream and every sequence of read sizes: what was delivered is exactly the whole blocks
   of the bytes consumed so far, and the partial buffer holds exactly the remainder.
   */
  lemma {:induction false} ChunkingIndependence(p: Progress, stream: seq<Byte>, wants: seq<nat>, n: nat)
    requires |p.pending| < n
    ensures Drive(p, stream, wants, n).1 <= |stream|
    ensures Reassembled(p, stream[..Drive(p, stream, wants, n).1], Drive(p, stream, wants, n).0, n)
    decreases |wants|
  {
    if wants == [] {
      assert p.pending + stream[..0] == p.pending;
    } else {
      var k := Taken(p.pending, stream, wants[0], n);
      var p1 := Feed(p, stream[..k], n);
      ChunkingIndependence(p1, stream[k..], wants[1..], n);
      var (q, used) := Drive(p1, stream[k..], wants[1..], n);
      FeedThenMore(p, stream[..k], stream[k..][..used], q, n);
      assert stream[..k] + stream[k..][..used] == stream[..k + used];
    }
  }

  /** Two clients that consume the same bytes see the same requests, however their reads were sized. */
  lemma SameBytesSameFrames(stream: seq<Byte>, wants1: seq<nat>, wants2: seq<nat>, n: nat)
    requires n > 0
    requires Drive(Progress([], []), stream, wants1, n).1 == Drive(Progress([], []), stream, wants2, n).1
    ensures Drive(Progress([], []), stream, wants1, n) == Drive(Progress([], []), stream, wants2, n)
  {
    ChunkingIndependence(Progress([], []), stream, wants1, n);
    ChunkingIndependence(Progress([], []), stream, wants2, n);
  }

  // ----- The code -----

  /**
   `ReadCallback` with its user callback: a delivered buffer is appended to `delivered`, and from
   then on belongs to the callback. `contents` remembers what each held when it was handed over.
   */
  class ReadCallback {
    const reqSize: nat
    var rawBuf: array?<Byte>
    var bytesRead: nat
    var delivered: seq<array<Byte>>
    ghost var contents: seq<seq<Byte>>
    ghost var allocations: nat

    ghost predicate Valid()
      reads this, rawBuf, delivered
    {
      && reqSize > 0
      && (rawBuf == null ==> bytesRead == 0)
      && (rawBuf != null ==> rawBuf.Length == reqSize && bytesRead < reqSize && rawBuf !in delivered)
      && (forall i, j :: 0 <= i < j < |delivered| ==> delivered[i] != delivered[j])
      && |contents| == |delivered|
      && (forall i :: 0 <= i < |delivered| ==> contents[i] == delivered[i][..] && delivered[i].Length == reqSize)
      && allocations == |delivered| + if rawBuf == null then 0 else 1
    }

    ghost function View(): Progress
      reads this, rawBuf
      requires rawBuf != null ==> bytesRead <= rawBuf.Length
    {
      Progress(if rawBuf == null then [] else rawBuf[..bytesRead], contents)
    }

    constructor (reqSize: nat)
      requires reqSize > 0
      ensures Valid() && View() == Progress([], []) && this.reqSize == reqSize && rawBuf == null
    {
      this.reqSize := reqSize;
      rawBuf, bytesRead, delivered, contents, allocations := null, 0, [], [], 0;
    }

    /** Lines 73-87: always offers between 1 and `reqSize` bytes, at the end of what has been read. */
    method GetReadBuffer() returns (bufp: array<Byte>, offset: nat, size: nat)
      requires Valid()
      modifies this`rawBuf, this`bytesRead, this`allocations
      ensures Valid() && View() == old(View())
      ensures rawBuf == bufp && offset == bytesRead && size == reqSize - bytesRead && 1 <= size <= reqSize
      ensures if old(rawBuf) == null then fresh(rawBuf) else rawBuf == old(rawBuf)
    {
      if bytesRead >= reqSize || rawBuf == null {
        rawBuf := new Byte[reqSize];
        bytesRead, allocations := 0, allocations + 1;
      }
      bufp, offset, size := rawBuf, bytesRead, reqSize - bytesRead;
    }

    /** Lines 89-106: the buffer leaves the object before the user callback runs. */
    method ReadDataAvailable(len: nat)
      requires Valid() && rawBuf != null && bytesRead + len <= reqSize
      modifies this
      ensures Valid()
      ensures View() == Feed(old(View()), old(rawBuf[bytesRead..bytesRead + len]), reqSize)
      ensures delivered == if old(bytesRead) + len == reqSize then old(delivered) + [old(rawBuf)] else old(delivered)
      ensures rawBuf == if old(bytesRead) + len == reqSize then null else old(rawBuf)
    {
      assert rawBuf[..bytesRead] + rawBuf[bytesRead..bytesRead + len] == rawBuf[..bytesRead + len];
      bytesRead := bytesRead + len;
      if bytesRead >= reqSize {
        assert bytesRead == reqSize;
        var bufp := rawBuf;
        assert bufp[..] == bufp[..bytesRead];
        rawBuf := null;
        bytesRead := 0;
        UserCallback(bufp);
      }
    }

    /** The callback takes ownership; it finds the reassembly state already clean. */
    method UserCallback(bufp: array<Byte>)
      requires rawBuf == null && bytesRead == 0
      modifies this`delivered, this`contents
      ensures delivered == old(delivered) + [bufp] && contents == old(contents) + [bufp[..]]
    {
      delivered, contents := delivered + [bufp], contents + [bufp[..]];
    }

    /**
     One read of the transport: it asks for a buffer, writes at most `wanted` of the bytes that have
     arrived, and reports how many. Delivered buffers are outside the frame of what may change.
     */
    method Receive(arrived: seq<Byte>, wanted: nat) returns (k: nat)
      requires Valid()
      modifies this, rawBuf
      ensures Valid() && k == Taken(old(View()).pending, arrived, wanted, reqSize)
      ensures View() == Feed(old(View()), arrived[..k], reqSize)
      ensures old(delivered) <= delivered
      ensures rawBuf == null || rawBuf == old(rawBuf) || fresh(rawBuf)
    {
      var bufp, offset, size := GetReadBuffer();
      k := Min(Min(wanted, |arrived|), size);
      CopyInto(bufp, offset, arrived[..k]);
      ReadDataAvailable(k);
    }

    /** The transport's part of a read. */
    static method CopyInto(bufp: array<Byte>, offset: nat, bytes: seq<Byte>)
      requires offset + |bytes| <= bufp.Length
      modifies bufp
      ensures bufp[..offset] == old(bufp[..offset]) && bufp[offset..offset + |bytes|] == bytes
    {
      var i := 0;
      while i < |bytes|
        invariant i <= |bytes| && bufp[..offset] == old(bufp[..offset])
        invariant bufp[offset..offset + i] == bytes[..i]
      {
        bufp[offset + i] := bytes[i];
        i := i + 1;
      }
    }

    /** Any run of reads, as long as bytes have arrived. */
    method ReceiveAll(stream: seq<Byte>, wants: seq<nat>) returns (used: nat)
      requires Valid()
      modifies this, rawBuf
      ensures Valid() && old(delivered) <= delivered
      ensures (View(), used) == Drive(old(View()), stream, wants, reqSize)
      decreases |wants|
    {
      if wants == [] {
        used := 0;
      } else {
        var k := Receive(stream, wants[0]);
        var more := ReceiveAll(stream[k..], wants[1..]);
        used := k + more;
      }
    }
  }
}
