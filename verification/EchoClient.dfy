/** The closed-loop client of the socket benchmark: its request format, its counters and its code. */
module EchoClient {
  import opened Common
  import opened Reassembly

  const REQUEST_SIZE: nat := 4096
  const ID_SIZE: nat := 8

  // ----- struct request -----

  function EncodeNat(x: nat, k: nat): (s: seq<Byte>)
    ensures |s| == k
  {
    if k == 0 then [] else [x % 256] + EncodeNat(x / 256, k - 1)
  }

  function DecodeNat(s: seq<Byte>): nat {
    if s == [] then 0 else s[0] + 256 * DecodeNat(s[1..])
  }

  function Zeros(k: nat): (s: seq<Byte>)
    ensures |s| == k
  {
    seq(k, i => 0)
  }

  /** `new request()` is zero-initialised; only the id is set. */
  function Request(id: nat): (r: seq<Byte>)
    ensures |r| == REQUEST_SIZE
  {
    EncodeNat(id, ID_SIZE) + Zeros(REQUEST_SIZE - ID_SIZE)
  }

  function RequestIdOf(frame: seq<Byte>): nat
    requires |frame| == REQUEST_SIZE
  {
    DecodeNat(frame[..ID_SIZE])
  }

  function Pow256(k: nat): nat {
    if k == 0 then 1 else 256 * Pow256(k - 1)
  }

  lemma {:induction false} EncodeRoundTrip(x: nat, k: nat)
    requires x < Pow256(k)
    ensures DecodeNat(EncodeNat(x, k)) == x
  {
    if k > 0 {
      EncodeRoundTrip(x / 256, k - 1);
      assert EncodeNat(x, k)[1..] == EncodeNat(x / 256, k - 1);
    }
  }

  lemma RequestRoundTrip(id: nat)
    requires id < TWO_64
    ensures RequestIdOf(Request(id)) == id
  {
    assert Request(id)[..ID_SIZE] == EncodeNat(id, ID_SIZE);
    assert Pow256(4) == TWO_32 by { assert Pow256(2) == 65536; }
    assert Pow256(8) == TWO_64 by { assert Pow256(6) == 65536 * TWO_32; }
    EncodeRoundTrip(id, ID_SIZE);
  }

  // ----- The client's state, one event at a time -----

  /**
   `toSend` is how many iterations of the send loop remain in the current callback; `stops` counts
   the calls of `stop_benchmark`; `answered` lists the ids found in the responses, in order.
   */
  datatype Client = Client(
    qdepth: nat,
    maxRequests: nat,
    requestId: nat,
    reqTime: map<nat, nat>,
    sent: nat,
    outstanding: nat,
    completed: nat,
    totLatency: int,
    toSend: nat,
    stops: nat,
    answered: seq<nat>
  )

  /** The limits that the program's own constants keep: one million requests, a positive `int32_t` depth. */
  predicate Configured(c: Client) {
    c.maxRequests >= 1 && c.qdepth + c.maxRequests < TWO_32
  }

  function NewClient(qdepth: nat, maxRequests: nat): Client {
    Client(qdepth, maxRequests, 0, map[], 0, 0, 0, 0, 0, 0, [])
  }

  /** One turn of the loop of `requests_send`. */
  function SendOne(c: Client, now: nat): Client
    requires c.toSend > 0
  {
    var id := c.requestId + 1;
    c.(requestId := id, reqTime := c.reqTime[id := now], sent := c.sent + 1, outstanding := c.outstanding + 1,
       toSend := c.toSend - 1)
  }

  /** `request_received` up to its last branch; `None` is the failed assert on the id lookup. */
  function Received(c: Client, frame: seq<Byte>, now: nat): Option<Client>
    requires |frame| == REQUEST_SIZE && c.outstanding > 0
  {
    var id := RequestIdOf(frame);
    if id !in c.reqTime then None else
    var completed, outstanding := c.completed + 1, c.outstanding - 1;
    Some(c.(totLatency := c.totLatency + (now - c.reqTime[id]), completed := completed, outstanding := outstanding,
            toSend := if completed < c.maxRequests then 1 else 0,
            stops := if completed >= c.maxRequests && outstanding == 0 then c.stops + 1 else c.stops,
            answered := c.answered + [id]))
  }

  /** `requests_send(n)`, the clock being read once per request. */
  function SendAll(c: Client, times: seq<nat>): Client
    requires c.toSend >= |times|
    decreases |times|
  {
    if times == [] then c else SendAll(SendOne(c, times[0]), times[1..])
  }

  /** The k-th new request has the k-th next id and the k-th clock reading; old entries are kept. */
  ghost predicate Records(c: Client, d: Client, times: seq<nat>) {
    && d.requestId == c.requestId + |times|
    && d.sent == c.sent + |times| && d.outstanding == c.outstanding + |times|
    && (forall id :: id in d.reqTime <==> id in c.reqTime || c.requestId < id <= c.requestId + |times|)
    && (forall id :: id in c.reqTime && id <= c.requestId ==> d.reqTime[id] == c.reqTime[id])
    && (forall k :: 0 <= k < |times| ==> d.reqTime[c.requestId + 1 + k] == times[k])
  }

  lemma {:induction false} SendAllRecords(c: Client, times: seq<nat>)
    requires c.toSend >= |times|
    ensures Records(c, SendAll(c, times), times)
    ensures SendAll(c, times).toSend == c.toSend - |times|
    ensures SendAll(c, times).completed == c.completed && SendAll(c, times).totLatency == c.totLatency
    decreases |times|
  {
    if times != [] {
      var d := SendOne(c, times[0]);
      SendAllRecords(d, times[1..]);
      var e := SendAll(d, times[1..]);
      forall k | 0 <= k < |times|
        ensures e.reqTime[c.requestId + 1 + k] == times[k]
      {
        if k > 0 {
          assert e.reqTime[d.requestId + 1 + (k - 1)] == times[1..][k - 1];
        }
      }
    }
  }

  /** The frames `f(first)`, `f(first + 1)`, ... written back to back. */
  function Frames(f: nat -> seq<Byte>, first: nat, count: nat): seq<Byte>
    decreases count
  {
    if count == 0 then [] else f(first) + Frames(f, first + 1, count - 1)
  }

  function RequestBytes(first: nat, count: nat): seq<Byte> {
    Frames(Request, first, count)
  }

  // ----- The code -----

  /** The `Benchmark` object; `socket` is everything written to the connection so far. */
  class Benchmark {
    const qdepth: nat
    const maxRequests: nat
    var requestId: nat
    var reqTime: map<nat, nat>
    var reqSent: nat
    var reqOutstanding: nat
    var reqCompleted: nat
    var totReqLatency: int
    var stops: nat
    var socket: seq<Byte>
    ghost var answered: seq<nat>

    ghost function View(toSend: nat): Client
      reads this
    {
      Client(qdepth, maxRequests, requestId, reqTime, reqSent, reqOutstanding, reqCompleted, totReqLatency, toSend, stops, answered)
    }

    constructor (qdepth: nat, maxRequests: nat)
      ensures View(0) == NewClient(qdepth, maxRequests) && socket == []
    {
      this.qdepth, this.maxRequests := qdepth, maxRequests;
      requestId, reqTime, reqSent, reqOutstanding, reqCompleted := 0, map[], 0, 0, 0;
      totReqLatency, stops, socket, answered := 0, 0, [], [];
    }

    /** One turn of the loop; `left` counts the turns still to come, this one included. */
    method SendRequest(now: nat, ghost left: nat)
      requires left > 0
      modifies this
      ensures View(left - 1) == SendOne(old(View(left)), now)
      ensures socket == old(socket) + Request(requestId)
    {
      requestId := requestId + 1;
      reqTime := reqTime[requestId := now];
      socket := socket + Request(requestId);
      reqSent := reqSent + 1;
      reqOutstanding := reqOutstanding + 1;
    }

    /** Lines 137-154; `times[i]` is what the clock says in turn i. */
    method RequestsSend(nrequests: nat, times: seq<nat>)
      requires |times| == nrequests
      modifies this
      ensures View(0) == SendAll(old(View(nrequests)), times)
      ensures Records(old(View(nrequests)), View(0), times)
      ensures reqCompleted == old(reqCompleted) && totReqLatency == old(totReqLatency)
      ensures socket == old(socket) + RequestBytes(old(requestId) + 1, nrequests)
    {
      ghost var c := View(nrequests);
      ghost var all := SendAll(c, times);
      ghost var written := socket + RequestBytes(requestId + 1, nrequests);
      assert times[0..] == times;
      var i := 0;
      while i < nrequests
        invariant 0 <= i <= nrequests
        invariant SendAll(View(nrequests - i), times[i..]) == all
        invariant socket + RequestBytes(requestId + 1, nrequests - i) == written
      {
        assert times[i..][1..] == times[i + 1..];
        ConcatAssociates(socket, Request(requestId + 1), RequestBytes(requestId + 2, nrequests - i - 1));
        SendRequest(times[i], nrequests - i);
        i := i + 1;
      }
      assert socket == written;
      SendAllRecords(c, times);
    }

    /** Lines 161-181; `later` is the clock at the send that may follow. */
    method RequestReceived(frame: seq<Byte>, now: nat, later: nat)
      requires |frame| == REQUEST_SIZE && reqOutstanding > 0
      requires RequestIdOf(frame) in reqTime
      modifies this
      ensures var c := Received(old(View(0)), frame, now).value;
              View(0) == if c.toSend == 1 then SendOne(c, later) else c
      ensures answered == old(answered) + [RequestIdOf(frame)] && reqCompleted == old(reqCompleted) + 1
      ensures totReqLatency == old(totReqLatency) + (now - old(reqTime)[RequestIdOf(frame)])
      ensures socket == if old(reqCompleted) + 1 < maxRequests then old(socket) + Request(old(requestId) + 1) else old(socket)
    {
      var id := RequestIdOf(frame);
      totReqLatency := totReqLatency + (now - reqTime[id]);
      reqCompleted := reqCompleted + 1;
      reqOutstanding := reqOutstanding - 1;
      answered := answered + [id];
      if reqCompleted < maxRequests {
        assert RequestBytes(requestId + 1, 1) == Request(requestId + 1) + [];
        RequestsSend(1, [later]);
      } else if reqOutstanding != 0 {
      } else {
        stops := stops + 1;
      }
    }
  }
}
