/**
 The per-connection stream framer of the TCP listener (`TCPServer` in
 txdnsdoh/tcp_server.py): DNS messages on a stream carry a 2-byte big-endian
 length prefix (section 4.2.2 of RFC 1035, section 8 of RFC 7766).

 The state is the pair `(buffer, expecting)`. Every arrival appends its bytes
 to the buffer and then runs the decoding loop

     while |buffer| > expecting:
       if expecting == 0 and |buffer| >= 2: read a prefix
       if expecting > 0 and |buffer| >= expecting: dispatch a message

 exactly as the source writes it. `Step` is one pass of the loop body,
 `RunLoop` the loop itself with a fuel bound, and `Drain` a total reference
 definition of what the loop does; `LoopAgreesWithDrain` connects the two.
 The guard does not match the body: one buffered byte with `expecting == 0`
 passes the guard but the body does nothing (the loop never ends), and a
 buffer holding exactly `expecting > 0` bytes fails the guard although the
 body could dispatch (the message stalls).
 */
module TcpFraming {
  import opened Bytes

  /** `self.buffer` and `self.expecting` of one connection. */
  datatype Conn = Conn(buffer: seq<Byte>, expecting: nat)

  /** What the loop body did, in the order it did it. */
  datatype Event =
    | PrefixRead(hi: Byte, lo: Byte)      // two bytes consumed as a length prefix
    | Dispatched(message: seq<Byte>)      // one message handed to `client.request`

  /** The state after some code ran, and the events it produced on the way. */
  datatype Pass = Pass(next: Conn, events: seq<Event>)

  /** The loop as written: either it left the `while`, or the fuel ran out. */
  datatype LoopResult = Exited(final: Conn, events: seq<Event>) | OutOfFuel

  /**
   What the loop does: it halts in `state`, or it reaches `state`, where it
   spins forever, after having produced `events`.
   */
  datatype Drained = Halted(state: Conn, events: seq<Event>) | Stuck(state: Conn, events: seq<Event>)

  /** A state the framer can be in: the prefix is an unsigned 16-bit count. */
  predicate Valid(c: Conn)
  {
    c.expecting <= MaxUint16
  }

  /** The bytes an event took from the front of the buffer. */
  function EventBytes(e: Event): seq<Byte>
  {
    match e
    case PrefixRead(hi, lo) => [hi, lo]
    case Dispatched(m) => m
  }

  /** All bytes a list of events took from the buffer, in order. */
  function Flatten(evs: seq<Event>): seq<Byte>
  {
    if |evs| == 0 then [] else EventBytes(evs[0]) + Flatten(evs[1..])
  }

  /** The messages a list of events dispatched, in dispatch order. */
  function Messages(evs: seq<Event>): seq<seq<Byte>>
  {
    if |evs| == 0 then []
    else (if evs[0].Dispatched? then [evs[0].message] else []) + Messages(evs[1..])
  }

  lemma {:induction false} FlattenAppend(a: seq<Event>, b: seq<Event>)
    ensures Flatten(a + b) == Flatten(a) + Flatten(b)
    decreases |a|
  {
    if |a| == 0 {
      assert a + b == b;
    } else {
      assert (a + b)[1..] == a[1..] + b;
      FlattenAppend(a[1..], b);
    }
  }

  lemma {:induction false} MessagesAppend(a: seq<Event>, b: seq<Event>)
    ensures Messages(a + b) == Messages(a) + Messages(b)
    decreases |a|
  {
    if |a| == 0 {
      assert a + b == b;
    } else {
      assert (a + b)[1..] == a[1..] + b;
      MessagesAppend(a[1..], b);
    }
  }

  /** A fresh connection: nothing buffered, awaiting a length prefix. */
  function Init(): (c: Conn)
    ensures Valid(c)
    ensures c.buffer == [] && c.expecting == 0
  {
    Conn([], 0)
  }

  /** The `while` condition. */
  predicate Guard(c: Conn)
  {
    |c.buffer| > c.expecting
  }

  /** The one state that passes the guard but that the body leaves unchanged. */
  predicate Spins(c: Conn)
  {
    c.expecting == 0 && |c.buffer| == 1
  }

  /** The body can do something: read a prefix or take a complete message. */
  predicate CanProgress(c: Conn)
  {
    (c.expecting == 0 && |c.buffer| >= 2) || (0 < c.expecting <= |c.buffer|)
  }

  /**
   The first `if` of the loop body: with `expecting == 0` and two bytes
   buffered, they are read as a big-endian count and dropped.
   */
  function ReadPrefix(c: Conn): (p: Pass)
    ensures c.expecting == 0 && |c.buffer| >= 2 ==>
      && p.events == [PrefixRead(c.buffer[0], c.buffer[1])]
      && c.buffer == Flatten(p.events) + p.next.buffer
      && p.next.expecting == c.buffer[0] as int * 256 + c.buffer[1] as int
      && p.next.expecting <= MaxUint16
    ensures !(c.expecting == 0 && |c.buffer| >= 2) ==> p == Pass(c, [])
  {
    if c.expecting == 0 && |c.buffer| >= 2 then
      Pass(Conn(c.buffer[2..], UnpackUint16(c.buffer[0], c.buffer[1])), [PrefixRead(c.buffer[0], c.buffer[1])])
    else
      Pass(c, [])
  }

  /**
   The second `if` of the loop body: with `0 < expecting <= |buffer|` the
   first `expecting` bytes are dispatched as one message and `expecting`
   returns to 0.
   */
  function TakeMessage(c: Conn): (p: Pass)
    ensures 0 < c.expecting <= |c.buffer| ==>
      && p.events == [Dispatched(c.buffer[..c.expecting])]
      && p.next == Conn(c.buffer[c.expecting..], 0)
      && c.buffer == Flatten(p.events) + p.next.buffer
    ensures !(0 < c.expecting <= |c.buffer|) ==> p == Pass(c, [])
  {
    if c.expecting > 0 && |c.buffer| >= c.expecting then
      var m := c.buffer[..c.expecting];
      assert Flatten([Dispatched(m)]) == m;
      Pass(Conn(c.buffer[c.expecting..], 0), [Dispatched(m)])
    else
      Pass(c, [])
  }

  /** One pass of the loop body: both `if`s, in order, may fire in one pass. */
  function Step(c: Conn): (p: Pass)
    ensures Valid(c) ==> Valid(p.next)
    ensures CanProgress(c) ==> |p.next.buffer| < |c.buffer| && |p.events| > 0
    ensures !CanProgress(c) ==> p == Pass(c, [])
  {
    var p1 := ReadPrefix(c);
    var p2 := TakeMessage(p1.next);
    Pass(p2.next, p1.events + p2.events)
  }

  /**
   Where the guard and the body disagree. The guard admits a state the body
   cannot advance exactly when one byte is buffered with `expecting == 0`
   (the loop spins); the guard refuses a state the body could advance exactly
   when the buffer holds precisely `expecting > 0` bytes (the message stalls).
   Everywhere else the loop runs precisely while the body makes progress.
   */
  lemma GuardVersusProgress(c: Conn)
    ensures Guard(c) && !CanProgress(c) <==> Spins(c)
    ensures CanProgress(c) && !Guard(c) <==> 0 < c.expecting == |c.buffer|
    ensures Guard(c) && !Spins(c) ==> CanProgress(c)
  {
  }

  /** A pass only moves bytes from the front of the buffer into its events. */
  lemma StepConserves(c: Conn)
    ensures Flatten(Step(c).events) + Step(c).next.buffer == c.buffer
  {
    var p1 := ReadPrefix(c);
    var p2 := TakeMessage(p1.next);
    FlattenAppend(p1.events, p2.events);
  }

  /** The `while` loop of `dataReceived` as written, given `fuel` passes. */
  function RunLoop(c: Conn, fuel: nat): (r: LoopResult)
    ensures r.Exited? ==> !Guard(r.final)
    ensures r.Exited? && Valid(c) ==> Valid(r.final)
    decreases fuel
  {
    if !Guard(c) then Exited(c, [])
    else if fuel == 0 then OutOfFuel
    else
      var p := Step(c);
      var r := RunLoop(p.next, fuel - 1);
      if r.Exited? then Exited(r.final, p.events + r.events) else OutOfFuel
  }

  /** Prepends events that happened before a drain. */
  function After(evs: seq<Event>, r: Drained): (r': Drained)
    ensures r'.state == r.state && r'.Halted? == r.Halted? && r'.events == evs + r.events
  {
    if r.Halted? then Halted(r.state, evs + r.events) else Stuck(r.state, evs + r.events)
  }

  /**
   What the loop does, as a total function: every guarded pass except the
   spinning one shrinks the buffer.
   */
  function Drain(c: Conn): Drained
    decreases |c.buffer|
  {
    if !Guard(c) then Halted(c, [])
    else if Spins(c) then Stuck(c, [])
    else
      var p := Step(c);
      After(p.events, Drain(p.next))
  }

  /**
   The loop leaves its `while` only where the guard fails, gets stuck only in
   the spinning state, and keeps the prefix count within 16 bits.
   */
  lemma {:induction false} DrainSettles(c: Conn)
    ensures Drain(c).Halted? ==> !Guard(Drain(c).state)
    ensures Drain(c).Stuck? ==> Spins(Drain(c).state)
    ensures Valid(c) ==> Valid(Drain(c).state)
    decreases |c.buffer|
  {
    if Guard(c) && !Spins(c) {
      DrainSettles(Step(c).next);
    }
  }

  /**
   Conservation and ordering for one run of the loop: the consumed prefixes
   and the dispatched messages, in order, followed by what is left, are the
   buffer the loop started from.
   */
  lemma {:induction false} DrainConserves(c: Conn)
    ensures Flatten(Drain(c).events) + Drain(c).state.buffer == c.buffer
    decreases |c.buffer|
  {
    if Guard(c) && !Spins(c) {
      var p := Step(c);
      StepConserves(c);
      DrainConserves(p.next);
      var r := Drain(p.next);
      assert Drain(c) == After(p.events, r);
      FlattenAppend(p.events, r.events);
      var x, y, z := Flatten(p.events), Flatten(r.events), r.state.buffer;
      assert y + z == p.next.buffer;
      assert x + p.next.buffer == c.buffer;
      assert (x + y) + z == x + (y + z);
    }
  }

  /** In the spinning state the loop never exits, whatever the fuel. */
  lemma {:induction false} SpinForever(c: Conn, fuel: nat)
    requires Spins(c)
    ensures RunLoop(c, fuel) == OutOfFuel
    decreases fuel
  {
    if fuel > 0 {
      SpinForever(c, fuel - 1);
    }
  }

  /**
   `Drain` is what the `while` loop computes: when it halts, the loop exits
   with the same state and events once it has more passes than buffered
   bytes; when it gets stuck, the loop runs out of any fuel.
   */
  lemma {:induction false} LoopAgreesWithDrain(c: Conn, fuel: nat)
    ensures Drain(c).Halted? && fuel > |c.buffer| ==> RunLoop(c, fuel) == Exited(Drain(c).state, Drain(c).events)
    ensures Drain(c).Stuck? ==> RunLoop(c, fuel) == OutOfFuel
    decreases |c.buffer|
  {
    if !Guard(c) {
    } else if Spins(c) {
      SpinForever(c, fuel);
    } else if fuel > 0 {
      var p := Step(c);
      LoopAgreesWithDrain(p.next, fuel - 1);
    }
  }

  /**
   The converse: whenever the loop exits, with whatever fuel, it exits in the
   state and with the events `Drain` gives, so `Drain` halts there.
   */
  lemma {:induction false} ExitAgreesWithDrain(c: Conn, fuel: nat)
    requires RunLoop(c, fuel).Exited?
    ensures Drain(c) == Halted(RunLoop(c, fuel).final, RunLoop(c, fuel).events)
    decreases fuel
  {
    if Guard(c) {
      if Spins(c) {
        SpinForever(c, fuel);
      } else {
        ExitAgreesWithDrain(Step(c).next, fuel - 1);
      }
    }
  }

  /** `dataReceived`: append the arrival to the buffer, then run the loop. */
  function DataReceived(c: Conn, data: seq<Byte>): (r: Drained)
    ensures Flatten(r.events) + r.state.buffer == c.buffer + data
    ensures Valid(c) ==> Valid(r.state)
    ensures r.Halted? ==> |r.state.buffer| <= r.state.expecting
  {
    DrainConserves(Conn(c.buffer + data, c.expecting));
    DrainSettles(Conn(c.buffer + data, c.expecting));
    Drain(Conn(c.buffer + data, c.expecting))
  }

  /**
   A sequence of arrivals on one connection. Once the loop spins, the event
   loop is blocked for good and later arrivals are never processed.
   */
  function Feed(c: Conn, chunks: seq<seq<Byte>>): (r: Drained)
    decreases |chunks|
  {
    if |chunks| == 0 then Halted(c, [])
    else
      var r0 := DataReceived(c, chunks[0]);
      if r0.Stuck? then r0 else After(r0.events, Feed(r0.state, chunks[1..]))
  }

  /**
   Conservation and ordering over a connection's life: when the loop halts,
   the consumed prefixes, the dispatched messages and the remaining buffer,
   in that order, are exactly the bytes of all arrivals.
   */
  lemma {:induction false} FeedConserves(c: Conn, chunks: seq<seq<Byte>>)
    requires Feed(c, chunks).Halted?
    ensures Flatten(Feed(c, chunks).events) + Feed(c, chunks).state.buffer == c.buffer + Concat(chunks)
    ensures Valid(c) ==> Valid(Feed(c, chunks).state)
    decreases |chunks|
  {
    if |chunks| > 0 {
      var r0 := DataReceived(c, chunks[0]);
      var rest := Feed(r0.state, chunks[1..]);
      assert r0.Halted?;
      assert Feed(c, chunks).events == r0.events + rest.events;
      assert Feed(c, chunks).state == rest.state;
      FeedConserves(r0.state, chunks[1..]);
      FlattenAppend(r0.events, rest.events);
      ConcatCons(chunks[0], chunks[1..]);
      assert [chunks[0]] + chunks[1..] == chunks;
      Splice(Flatten(r0.events), r0.state.buffer, Flatten(rest.events), rest.state.buffer,
             c.buffer, chunks[0], Concat(chunks[1..]));
    }
  }

  /**
   When the loop spins, it has consumed the first `k` arrivals the same way
   and the arrivals after them are never looked at.
   */
  lemma {:induction false} FeedStuckConserves(c: Conn, chunks: seq<seq<Byte>>)
    requires Feed(c, chunks).Stuck?
    ensures exists k :: (0 < k <= |chunks| &&
      Flatten(Feed(c, chunks).events) + Feed(c, chunks).state.buffer == c.buffer + Concat(chunks[..k]))
    decreases |chunks|
  {
    var r0 := DataReceived(c, chunks[0]);
    if r0.Stuck? {
      assert Feed(c, chunks) == r0;
      assert chunks[..1] == [chunks[0]];
      assert Concat(chunks[..1]) == Concat([]) + chunks[0];
      assert Flatten(Feed(c, chunks).events) + Feed(c, chunks).state.buffer == c.buffer + Concat(chunks[..1]);
    } else {
      var rest := Feed(r0.state, chunks[1..]);
      assert Feed(c, chunks).events == r0.events + rest.events;
      assert Feed(c, chunks).state == rest.state;
      FeedStuckConserves(r0.state, chunks[1..]);
      var k :| 0 < k <= |chunks[1..]| &&
        Flatten(rest.events) + rest.state.buffer == r0.state.buffer + Concat(chunks[1..][..k]);
      FlattenAppend(r0.events, rest.events);
      TakeCons(chunks, k);
      ConcatCons(chunks[0], chunks[1..][..k]);
      Splice(Flatten(r0.events), r0.state.buffer, Flatten(rest.events), rest.state.buffer,
             c.buffer, chunks[0], Concat(chunks[1..][..k]));
      assert Flatten(Feed(c, chunks).events) + Feed(c, chunks).state.buffer == c.buffer + Concat(chunks[..k + 1]);
    }
  }

  /** Two consecutive conservation facts compose into one. */
  lemma Splice(f0: seq<Byte>, b0: seq<Byte>, f1: seq<Byte>, b1: seq<Byte>, a: seq<Byte>, d0: seq<Byte>, d1: seq<Byte>)
    requires f0 + b0 == a + d0
    requires f1 + b1 == b0 + d1
    ensures (f0 + f1) + b1 == a + (d0 + d1)
  {
    calc {
      (f0 + f1) + b1;
      { assert (f0 + f1) + b1 == f0 + (f1 + b1); }
      f0 + (b0 + d1);
      { assert f0 + (b0 + d1) == (f0 + b0) + d1; }
      (a + d0) + d1;
      { assert (a + d0) + d1 == a + (d0 + d1); }
      a + (d0 + d1);
    }
  }

  /** The framed form of one message: its 2-byte length, then its bytes. */
  function Frame(m: seq<Byte>): (f: seq<Byte>)
    requires |m| <= MaxUint16
    ensures |f| == |m| + 2 && UnpackUint16(f[0], f[1]) == |m| && f[2..] == m
  {
    PackUint16(|m|) + m
  }

  /** A list of frames back to back. */
  function Frames(ms: seq<seq<Byte>>): seq<Byte>
    requires forall m :: m in ms ==> |m| <= MaxUint16
  {
    if |ms| == 0 then [] else Frame(ms[0]) + Frames(ms[1..])
  }

  /** A message a client may frame: non-empty and short enough for the prefix. */
  predicate Framable(m: seq<Byte>)
  {
    1 <= |m| <= MaxUint16
  }

  /** The loop consumes a whole leading frame in a single pass. */
  lemma StepFrame(m: seq<Byte>, rest: seq<Byte>)
    requires Framable(m)
    ensures Step(Conn(Frame(m) + rest, 0)) == Pass(Conn(rest, 0), [PrefixRead(Frame(m)[0], Frame(m)[1]), Dispatched(m)])
  {
    var b := Frame(m) + rest;
    assert b[2..] == m + rest;
    assert (m + rest)[..|m|] == m;
    assert (m + rest)[|m|..] == rest;
  }

  /**
   Round trip: frames of non-empty messages, delivered in one chunk, are
   dispatched exactly and in order, and the connection is left idle.
   */
  lemma {:induction false} FramesRoundTrip(ms: seq<seq<Byte>>)
    requires forall m :: m in ms ==> 1 <= |m| <= MaxUint16
    ensures Drain(Conn(Frames(ms), 0)).Halted?
    ensures Drain(Conn(Frames(ms), 0)).state == Init()
    ensures Messages(Drain(Conn(Frames(ms), 0)).events) == ms
    decreases |ms|
  {
    if |ms| > 0 {
      var m, tail := ms[0], ms[1..];
      assert ms == [m] + tail;
      var c := Conn(Frames(ms), 0);
      var f := Frame(m);
      assert Frames(ms) == f + Frames(tail);
      StepFrame(m, Frames(tail));
      var evs := [PrefixRead(f[0], f[1]), Dispatched(m)];
      assert Step(c) == Pass(Conn(Frames(tail), 0), evs);
      FramesRoundTrip(tail);
      var r := Drain(Conn(Frames(tail), 0));
      assert Guard(c) && !Spins(c);
      assert Drain(c) == Halted(r.state, evs + r.events);
      MessagesOfFrame(f[0], f[1], m);
      MessagesAppend(evs, r.events);
    }
  }

  /** The same round trip through `dataReceived` on a fresh connection. */
  lemma OneChunkRoundTrip(ms: seq<seq<Byte>>)
    requires forall m :: m in ms ==> 1 <= |m| <= MaxUint16
    ensures DataReceived(Init(), Frames(ms)) == Halted(Init(), Drain(Conn(Frames(ms), 0)).events)
    ensures Messages(DataReceived(Init(), Frames(ms)).events) == ms
  {
    assert Init().buffer + Frames(ms) == Frames(ms);
    FramesRoundTrip(ms);
  }

  /** A prefix followed by its message contributes exactly that message. */
  lemma MessagesOfFrame(hi: Byte, lo: Byte, m: seq<Byte>)
    ensures Messages([PrefixRead(hi, lo), Dispatched(m)]) == [m]
  {
    var evs := [PrefixRead(hi, lo), Dispatched(m)];
    assert evs[1..] == [Dispatched(m)];
    assert evs[1..][1..] == [];
    assert Messages(evs[1..]) == [m] + Messages([]);
  }

  /** A zero prefix consumes its two bytes and dispatches nothing. */
  lemma ZeroPrefixDropped(rest: seq<Byte>)
    ensures Step(Conn([0, 0] + rest, 0)) == Pass(Conn(rest, 0), [PrefixRead(0, 0)])
  {
    assert ([0, 0] + rest)[2..] == rest;
  }

  /**
   With exactly `expecting > 0` bytes buffered the guard fails: the loop
   exits without dispatching the complete message it holds.
   */
  lemma StallsOnExactBody(c: Conn)
    requires 0 < c.expecting == |c.buffer|
    ensures Drain(c) == Halted(c, [])
    ensures TakeMessage(c).events == [Dispatched(c.buffer)]
  {
  }

  /**
   A frame whose prefix and message arrive separately: the prefix is read,
   then the message sits in the buffer undispatched, although the same bytes
   in one arrival dispatch it.
   */
  lemma PrefixThenBodyStalls(m: seq<Byte>)
    requires Framable(m)
    ensures DataReceived(Init(), Frame(m)[..2]) == Halted(Conn([], |m|), [PrefixRead(Frame(m)[0], Frame(m)[1])])
    ensures DataReceived(Conn([], |m|), m) == Halted(Conn(m, |m|), [])
    ensures Messages(DataReceived(Init(), Frame(m)).events) == [m]
  {
    var f := Frame(m);
    var c := Conn(Init().buffer + f[..2], 0);
    assert c.buffer == [f[0], f[1]];
    assert Step(c) == Pass(Conn([], |m|), [PrefixRead(f[0], f[1])]) by {
      assert c.buffer[2..] == [];
    }
    assert Drain(Conn([], |m|)) == Halted(Conn([], |m|), []);
    assert Conn([], |m|).buffer + m == m;
    assert Frames([m]) == f by {
      assert [m][1..] == [];
    }
    OneChunkRoundTrip([m]);
  }

  /** A lone byte on a fresh connection: the loop spins on it and never returns. */
  lemma LoneByteSpins(b: Byte)
    ensures DataReceived(Init(), [b]) == Stuck(Conn([b], 0), [])
    ensures forall fuel: nat :: RunLoop(Conn([b], 0), fuel) == OutOfFuel
  {
    assert Init().buffer + [b] == [b];
    forall fuel: nat
      ensures RunLoop(Conn([b], 0), fuel) == OutOfFuel
    {
      SpinForever(Conn([b], 0), fuel);
    }
  }

  /**
   One frame followed by the first byte of the next prefix: the frame is
   dispatched, then the loop spins on the single byte and never returns.
   */
  lemma FrameThenOneByteHangs(m: seq<Byte>, b: Byte)
    requires Framable(m)
    ensures DataReceived(Init(), Frame(m) + [b]).Stuck?
    ensures DataReceived(Init(), Frame(m) + [b]).state == Conn([b], 0)
    ensures Messages(DataReceived(Init(), Frame(m) + [b]).events) == [m]
    ensures forall fuel: nat :: RunLoop(Conn(Frame(m) + [b], 0), fuel) == OutOfFuel
  {
    var f := Frame(m);
    var c := Conn(f + [b], 0);
    assert Init().buffer + (f + [b]) == f + [b];
    StepFrame(m, [b]);
    var evs := [PrefixRead(f[0], f[1]), Dispatched(m)];
    assert Drain(c) == After(evs, Drain(Conn([b], 0)));
    assert Drain(c) == Stuck(Conn([b], 0), evs + []);
    assert evs + [] == evs;
    MessagesOfFrame(f[0], f[1], m);
    forall fuel: nat
      ensures RunLoop(c, fuel) == OutOfFuel
    {
      LoopAgreesWithDrain(c, fuel);
    }
  }

  /** Why a framing of the response failed: `struct.pack` raised. */
  datatype FramingError = LengthDoesNotFit(length: nat)

  /**
   `return_response`: `struct.pack('!H', len(data)) + data`, which raises for
   responses longer than 65535 bytes.
   */
  function FrameResponse(data: seq<Byte>): (r: Result<seq<Byte>, FramingError>)
    ensures r.Success? <==> |data| <= MaxUint16
    ensures r.Success? ==> |r.value| == |data| + 2 && UnpackUint16(r.value[0], r.value[1]) == |data| && r.value[2..] == data
    ensures r.Failure? ==> r.error == LengthDoesNotFit(|data|)
  {
    if |data| <= MaxUint16 then Success(Frame(data)) else Failure(LengthDoesNotFit(|data|))
  }

  /** What the connection does when a dispatched request settles. */
  datatype Action = Write(bytes: seq<Byte>) | LoseConnection

  /**
   The callbacks on a dispatched request: a response is framed and written;
   an upstream failure reaches `error_response`, and so does the exception of
   a response too long to frame, because the errback is chained after the
   callback. Either way the connection is closed.
   */
  function Respond<F>(outcome: Result<seq<Byte>, F>): (a: Action)
    ensures a.Write? <==> outcome.Success? && |outcome.value| <= MaxUint16
    ensures a.Write? ==> FrameResponse(outcome.value) == Success(a.bytes)
  {
    match outcome
    case Failure(_) => LoseConnection
    case Success(data) =>
      match FrameResponse(data)
      case Success(bytes) => Write(bytes)
      case Failure(_) => LoseConnection
  }

  /**
   Framing is symmetric: the bytes written for a non-empty response are
   exactly what this framer, on a fresh connection, reads back as that one
   message.
   */
  lemma ResponseReadsBack(data: seq<Byte>)
    requires Framable(data)
    ensures Respond<()>(Success(data)).Write?
    ensures Messages(DataReceived(Init(), Respond<()>(Success(data)).bytes).events) == [data]
  {
    assert Frames([data]) == Frame(data) by {
      assert [data][1..] == [];
    }
    OneChunkRoundTrip([data]);
  }
}
