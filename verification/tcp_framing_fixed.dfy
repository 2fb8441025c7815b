/**
 A corrected stream framer, kept beside the one the listener runs. Its loop
 runs exactly while the body can make progress (`CanProgress`) and each pass
 does one thing: read a prefix, or take a complete message. Unlike the loop
 as written it exits on every state, and how the stream is split into
 arrivals no longer matters: any split of the same bytes dispatches the same
 messages and leaves the same state.
 */
module TcpFramingFixed {
  import opened Bytes
  import opened TcpFraming

  /** One pass of the corrected loop. */
  function FixedStep(c: Conn): (p: Pass)
    requires CanProgress(c)
    ensures |p.next.buffer| < |c.buffer|
    ensures Flatten(p.events) + p.next.buffer == c.buffer
    ensures Valid(c) ==> Valid(p.next)
  {
    if c.expecting == 0 then ReadPrefix(c) else TakeMessage(c)
  }

  /** The corrected loop, run to its end. */
  function DrainFixed(c: Conn): (r: Pass)
    decreases |c.buffer|
  {
    if !CanProgress(c) then Pass(c, [])
    else
      var p := FixedStep(c);
      var r := DrainFixed(p.next);
      Pass(r.next, p.events + r.events)
  }

  /**
   The loop body as written (both `if`s in one pass), run under the corrected
   condition instead of the strict `>`.
   */
  function DrainBothIfs(c: Conn): Pass
    decreases |c.buffer|
  {
    if !CanProgress(c) then Pass(c, [])
    else
      var p := Step(c);
      var r := DrainBothIfs(p.next);
      Pass(r.next, p.events + r.events)
  }

  /** Taking a message first, or not at all, does not change where the corrected loop ends. */
  lemma TakeThenDrainFixed(c: Conn)
    ensures DrainFixed(c) ==
      Pass(DrainFixed(TakeMessage(c).next).next, TakeMessage(c).events + DrainFixed(TakeMessage(c).next).events)
  {
  }

  /**
   Doing one action per pass loses nothing: the body as written, with both
   `if`s in the same pass, drains every state to the same end and the same
   events as `DrainFixed`.
   */
  lemma {:induction false} BothIfsAgreeWithFixed(c: Conn)
    ensures DrainBothIfs(c) == DrainFixed(c)
    decreases |c.buffer|
  {
    if CanProgress(c) {
      var p1 := ReadPrefix(c);
      var p2 := TakeMessage(p1.next);
      BothIfsAgreeWithFixed(p2.next);
      var r := DrainFixed(p2.next);
      if c.expecting == 0 {
        TakeThenDrainFixed(p1.next);
        Associative(p1.events, p2.events, r.events);
      } else {
        assert p1 == Pass(c, []);
        assert p1.events + p2.events == p2.events;
      }
    }
  }

  /** The corrected loop stops only where no progress is possible, in a valid state. */
  lemma {:induction false} DrainFixedSettles(c: Conn)
    ensures !CanProgress(DrainFixed(c).next)
    ensures Valid(c) ==> Valid(DrainFixed(c).next)
    decreases |c.buffer|
  {
    if CanProgress(c) {
      DrainFixedSettles(FixedStep(c).next);
    }
  }

  /** The corrected loop with a fuel bound, as a `while` would run it. */
  function RunLoopFixed(c: Conn, fuel: nat): (r: LoopResult)
    ensures r.Exited? ==> !CanProgress(r.final)
    decreases fuel
  {
    if !CanProgress(c) then Exited(c, [])
    else if fuel == 0 then OutOfFuel
    else
      var p := FixedStep(c);
      var r := RunLoopFixed(p.next, fuel - 1);
      if r.Exited? then Exited(r.final, p.events + r.events) else OutOfFuel
  }

  /**
   The corrected loop always exits: with more passes than buffered bytes it
   leaves the `while` in the state `DrainFixed` computes.
   */
  lemma {:induction false} FixedLoopExits(c: Conn, fuel: nat)
    requires fuel > |c.buffer|
    ensures RunLoopFixed(c, fuel) == Exited(DrainFixed(c).next, DrainFixed(c).events)
    decreases |c.buffer|
  {
    if CanProgress(c) {
      FixedLoopExits(FixedStep(c).next, fuel - 1);
    }
  }

  /** The corrected loop only moves bytes from the buffer into its events. */
  lemma {:induction false} DrainFixedConserves(c: Conn)
    ensures Flatten(DrainFixed(c).events) + DrainFixed(c).next.buffer == c.buffer
    decreases |c.buffer|
  {
    if CanProgress(c) {
      var p := FixedStep(c);
      var r := DrainFixed(p.next);
      assert DrainFixed(c).events == p.events + r.events;
      assert DrainFixed(c).next == r.next;
      DrainFixedConserves(p.next);
      FlattenAppend(p.events, r.events);
      var x, y, z := Flatten(p.events), Flatten(r.events), r.next.buffer;
      assert y + z == p.next.buffer;
      assert x + p.next.buffer == c.buffer;
      assert (x + y) + z == x + (y + z);
    }
  }

  /** More bytes behind the buffer do not change what a pass does. */
  lemma StepExtends(c: Conn, more: seq<Byte>)
    requires CanProgress(c)
    ensures CanProgress(Conn(c.buffer + more, c.expecting))
    ensures FixedStep(Conn(c.buffer + more, c.expecting))
         == Pass(Conn(FixedStep(c).next.buffer + more, FixedStep(c).next.expecting), FixedStep(c).events)
  {
    var b := c.buffer + more;
    if c.expecting == 0 {
      assert b[0] == c.buffer[0] && b[1] == c.buffer[1];
      assert b[2..] == c.buffer[2..] + more;
    } else {
      assert b[..c.expecting] == c.buffer[..c.expecting];
      assert b[c.expecting..] == c.buffer[c.expecting..] + more;
    }
  }

  /** One unfolding of `DrainFixed` on a state that can progress. */
  lemma UnfoldDrainFixed(c: Conn)
    requires CanProgress(c)
    ensures DrainFixed(c).next == DrainFixed(FixedStep(c).next).next
    ensures DrainFixed(c).events == FixedStep(c).events + DrainFixed(FixedStep(c).next).events
  {
  }

  /**
   Draining a longer buffer is draining the shorter one, then draining what
   is left of it with the extra bytes appended.
   */
  lemma {:induction false} DrainFixedAppend(c: Conn, more: seq<Byte>)
    ensures DrainFixed(Conn(c.buffer + more, c.expecting)).next
         == DrainFixed(Conn(DrainFixed(c).next.buffer + more, DrainFixed(c).next.expecting)).next
    ensures DrainFixed(Conn(c.buffer + more, c.expecting)).events
         == DrainFixed(c).events + DrainFixed(Conn(DrainFixed(c).next.buffer + more, DrainFixed(c).next.expecting)).events
    decreases |c.buffer|
  {
    if !CanProgress(c) {
      assert DrainFixed(c) == Pass(c, []);
    } else {
      DrainFixedAppendNext(c, more);
      DrainFixedAppendEvents(c, more);
    }
  }

  /** One unfolding of `DrainFixed` on the longer buffer: its first pass is the shorter buffer's. */
  lemma UnfoldDrainFixedExtended(c: Conn, more: seq<Byte>)
    requires CanProgress(c)
    ensures DrainFixed(Conn(c.buffer + more, c.expecting)).next
         == DrainFixed(Conn(FixedStep(c).next.buffer + more, FixedStep(c).next.expecting)).next
    ensures DrainFixed(Conn(c.buffer + more, c.expecting)).events
         == FixedStep(c).events + DrainFixed(Conn(FixedStep(c).next.buffer + more, FixedStep(c).next.expecting)).events
  {
    var big := Conn(c.buffer + more, c.expecting);
    StepExtends(c, more);
    UnfoldDrainFixed(big);
  }

  /** The inductive case of `DrainFixedAppend`, for the final state. */
  lemma {:induction false} DrainFixedAppendNext(c: Conn, more: seq<Byte>)
    requires CanProgress(c)
    ensures DrainFixed(Conn(c.buffer + more, c.expecting)).next
         == DrainFixed(Conn(DrainFixed(c).next.buffer + more, DrainFixed(c).next.expecting)).next
    decreases |c.buffer|, 0
  {
    var p := FixedStep(c);
    UnfoldDrainFixed(c);
    UnfoldDrainFixedExtended(c, more);
    DrainFixedAppend(p.next, more);
  }

  /** The inductive case of `DrainFixedAppend`, for the events. */
  lemma {:induction false} DrainFixedAppendEvents(c: Conn, more: seq<Byte>)
    requires CanProgress(c)
    ensures DrainFixed(Conn(c.buffer + more, c.expecting)).events
         == DrainFixed(c).events + DrainFixed(Conn(DrainFixed(c).next.buffer + more, DrainFixed(c).next.expecting)).events
    decreases |c.buffer|, 0
  {
    var p := FixedStep(c);
    UnfoldDrainFixed(c);
    UnfoldDrainFixedExtended(c, more);
    DrainFixedAppend(p.next, more);
    Associative(p.events, DrainFixed(p.next).events,
      DrainFixed(Conn(DrainFixed(c).next.buffer + more, DrainFixed(c).next.expecting)).events);
  }

  /** `dataReceived` with the corrected loop. */
  function DataReceivedFixed(c: Conn, data: seq<Byte>): (r: Pass)
    ensures !CanProgress(r.next)
    ensures Valid(c) ==> Valid(r.next)
  {
    DrainFixedSettles(Conn(c.buffer + data, c.expecting));
    DrainFixed(Conn(c.buffer + data, c.expecting))
  }

  /** A sequence of arrivals on a connection running the corrected loop. */
  function FeedFixed(c: Conn, chunks: seq<seq<Byte>>): (r: Pass)
    decreases |chunks|
  {
    if |chunks| == 0 then Pass(c, [])
    else
      var r0 := DataReceivedFixed(c, chunks[0]);
      var r := FeedFixed(r0.next, chunks[1..]);
      Pass(r.next, r0.events + r.events)
  }

  /**
   Splitting does not matter: feeding the arrivals one by one does exactly
   what one arrival of their concatenation does.
   */
  lemma {:induction false} SplitInvariant(c: Conn, chunks: seq<seq<Byte>>)
    requires !CanProgress(c)
    ensures FeedFixed(c, chunks).next == DrainFixed(Conn(c.buffer + Concat(chunks), c.expecting)).next
    ensures FeedFixed(c, chunks).events == DrainFixed(Conn(c.buffer + Concat(chunks), c.expecting)).events
    decreases |chunks|
  {
    if |chunks| == 0 {
      assert c.buffer + Concat(chunks) == c.buffer;
      assert Conn(c.buffer + Concat(chunks), c.expecting) == c;
    } else {
      var start := Conn(c.buffer + chunks[0], c.expecting);
      var r0 := DrainFixed(start);
      DrainFixedSettles(start);
      var more := Concat(chunks[1..]);
      var r := FeedFixed(r0.next, chunks[1..]);
      assert FeedFixed(c, chunks).next == r.next;
      assert FeedFixed(c, chunks).events == r0.events + r.events;
      SplitInvariant(r0.next, chunks[1..]);
      DrainFixedAppend(start, more);
      ConcatCons(chunks[0], chunks[1..]);
      assert [chunks[0]] + chunks[1..] == chunks;
      assert c.buffer + Concat(chunks) == start.buffer + more;
    }
  }

  /** The corrected loop reads one whole frame in two passes. */
  lemma DrainFixedFrame(m: seq<Byte>, rest: seq<Byte>)
    requires Framable(m)
    ensures DrainFixed(Conn(Frame(m) + rest, 0)).next == DrainFixed(Conn(rest, 0)).next
    ensures DrainFixed(Conn(Frame(m) + rest, 0)).events
         == [PrefixRead(Frame(m)[0], Frame(m)[1]), Dispatched(m)] + DrainFixed(Conn(rest, 0)).events
  {
    var f := Frame(m);
    var c := Conn(f + rest, 0);
    assert (f + rest)[0] == f[0] && (f + rest)[1] == f[1];
    assert (f + rest)[2..] == m + rest;
    var mid := Conn(m + rest, |m|);
    assert FixedStep(c) == Pass(mid, [PrefixRead(f[0], f[1])]);
    assert (m + rest)[..|m|] == m;
    assert (m + rest)[|m|..] == rest;
    assert FixedStep(mid) == Pass(Conn(rest, 0), [Dispatched(m)]);
    var r := DrainFixed(Conn(rest, 0));
    assert DrainFixed(mid).events == [Dispatched(m)] + r.events;
    assert [PrefixRead(f[0], f[1])] + ([Dispatched(m)] + r.events) == [PrefixRead(f[0], f[1]), Dispatched(m)] + r.events;
  }

  /** The corrected loop dispatches back-to-back frames exactly and in order. */
  lemma {:induction false} DrainFixedFrames(ms: seq<seq<Byte>>)
    requires forall m :: m in ms ==> 1 <= |m| <= MaxUint16
    ensures DrainFixed(Conn(Frames(ms), 0)).next == Init()
    ensures Messages(DrainFixed(Conn(Frames(ms), 0)).events) == ms
    decreases |ms|
  {
    if |ms| > 0 {
      var m, tail := ms[0], ms[1..];
      assert ms == [m] + tail;
      var f := Frame(m);
      assert Frames(ms) == f + Frames(tail);
      DrainFixedFrame(m, Frames(tail));
      DrainFixedFrames(tail);
      var evs := [PrefixRead(f[0], f[1]), Dispatched(m)];
      MessagesOfFrame(f[0], f[1], m);
      MessagesAppend(evs, DrainFixed(Conn(Frames(tail), 0)).events);
    }
  }

  /**
   The property the loop as written lacks: however a client splits a stream
   of frames into arrivals, the corrected framer dispatches exactly those
   messages, in order, and ends idle.
   */
  lemma SplitDeliveryRoundTrip(chunks: seq<seq<Byte>>, ms: seq<seq<Byte>>)
    requires forall m :: m in ms ==> 1 <= |m| <= MaxUint16
    requires Concat(chunks) == Frames(ms)
    ensures FeedFixed(Init(), chunks).next == Init()
    ensures Messages(FeedFixed(Init(), chunks).events) == ms
  {
    SplitInvariant(Init(), chunks);
    assert Init().buffer + Concat(chunks) == Frames(ms);
    DrainFixedFrames(ms);
  }

  /** The split of `PrefixThenBodyStalls`, under the corrected loop. */
  lemma PrefixThenBodyDispatches(m: seq<Byte>)
    requires Framable(m)
    ensures Messages(FeedFixed(Init(), [Frame(m)[..2], m]).events) == [m]
  {
    var f := Frame(m);
    var chunks: seq<seq<Byte>> := [f[..2], m];
    assert chunks[..1] == [f[..2]];
    assert Concat(chunks[..1]) == Concat([]) + f[..2];
    assert Concat(chunks) == Concat(chunks[..1]) + m;
    assert f[..2] + m == f;
    var ms: seq<seq<Byte>> := [m];
    assert Frames(ms) == f by {
      assert ms[1..] == [];
    }
    SplitDeliveryRoundTrip(chunks, ms);
  }
}
