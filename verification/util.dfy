/**
 The small protocol helpers the HTTPS client uses (`util.py`): a producer
 that hands a fixed request body to the HTTP layer in one write, and two
 body collectors that store every chunk of a response body and, when the
 body ends, fire their `finished` callback with the concatenation. Log
 output is modelled as a list of entries so that the two collectors can be
 compared; the callback is modelled as the value it would be fired with.
 */
module Util {
  import opened Bytes

  /** `BytesProducer(body)`: `length` is fixed from the body at construction. */
  datatype Producer = Producer(body: seq<Byte>, length: nat)

  function NewProducer(body: seq<Byte>): (p: Producer)
    ensures p.body == body && p.length == |body|
  {
    Producer(body, |body|)
  }

  /**
   What `startProducing` does to its consumer: a single write of the whole
   body, after which the returned deferred has already fired (`succeed(None)`).
   */
  datatype Production = Production(writes: seq<seq<Byte>>, completed: bool)

  function StartProducing(p: Producer): (r: Production)
    ensures |r.writes| == 1 && r.completed
  {
    Production([p.body], true)
  }

  /** The consumer receives exactly the body, and as many bytes as the producer announced. */
  lemma ProducerDeliversBody(body: seq<Byte>)
    ensures Concat(StartProducing(NewProducer(body)).writes) == body
    ensures |Concat(StartProducing(NewProducer(body)).writes)| == NewProducer(body).length
  {
    var w := StartProducing(NewProducer(body)).writes;
    assert w[..|w| - 1] == [];
  }

  /** Why the body ended: `ResponseDone`, or any other failure. */
  datatype LossReason = ResponseDone | OtherLoss(description: string)

  datatype Level = Debug | Error

  datatype LogEntry =
    | ConnectionLostEntry(level: Level, reason: LossReason)
    | BufferEntry(bytes: seq<Byte>)

  /**
   The state shared by `Gather` and `GatherAndLog`: the chunks received so
   far and whether a `finished` deferred was supplied.
   */
  datatype Collector = Collector(chunks: seq<seq<Byte>>, hasFinished: bool)

  function NewCollector(hasFinished: bool): (c: Collector)
    ensures c.chunks == [] && c.hasFinished == hasFinished
  {
    Collector([], hasFinished)
  }

  /** `dataReceived`: the chunk goes to the end of the list. */
  function Received(c: Collector, data: seq<Byte>): (c': Collector)
    ensures Concat(c'.chunks) == Concat(c.chunks) + data
    ensures c'.hasFinished == c.hasFinished
  {
    var r := Collector(c.chunks + [data], c.hasFinished);
    assert r.chunks[..|r.chunks| - 1] == c.chunks;
    r
  }

  /** `dataReceived` for each chunk in order. */
  function ReceivedAll(c: Collector, chunks: seq<seq<Byte>>): Collector
    decreases |chunks|
  {
    if |chunks| == 0 then c else ReceivedAll(Received(c, chunks[0]), chunks[1..])
  }

  /** What `connectionLost` does: the value `finished` fires with (if any) and the log lines. */
  datatype Ending = Ending(delivered: Option<seq<Byte>>, log: seq<LogEntry>)

  /**
   `Gather.connectionLost`: a reason other than `ResponseDone` is logged at
   debug level, then `finished` fires with everything received, whatever the
   reason was.
   */
  function GatherConnectionLost(c: Collector, reason: LossReason): (e: Ending)
    ensures e.delivered.Some? <==> c.hasFinished
    ensures e.delivered.Some? ==> e.delivered.value == Concat(c.chunks)
    ensures reason.ResponseDone? <==> e.log == []
    ensures !reason.ResponseDone? ==> e.log == [ConnectionLostEntry(Debug, reason)]
  {
    var log := if reason.ResponseDone? then [] else [ConnectionLostEntry(Debug, reason)];
    Ending(if c.hasFinished then Some(Concat(c.chunks)) else None, log)
  }

  /**
   `GatherAndLog.connectionLost`: the same, except that an abnormal reason is
   logged as an error and the joined buffer is always logged at debug level.
   */
  function GatherAndLogConnectionLost(c: Collector, reason: LossReason): (e: Ending)
    ensures e.delivered.Some? <==> c.hasFinished
    ensures e.delivered.Some? ==> e.delivered.value == Concat(c.chunks)
    ensures |e.log| >= 1 && e.log[|e.log| - 1] == BufferEntry(Concat(c.chunks))
    ensures reason.ResponseDone? <==> |e.log| == 1
    ensures !reason.ResponseDone? ==> e.log[0] == ConnectionLostEntry(Error, reason)
  {
    var buffer := Concat(c.chunks);
    var lost := if reason.ResponseDone? then [] else [ConnectionLostEntry(Error, reason)];
    Ending(if c.hasFinished then Some(buffer) else None, lost + [BufferEntry(buffer)])
  }

  /** The collected value is the in-order concatenation of every chunk received. */
  lemma {:induction false} ReceivedAllConcat(c: Collector, chunks: seq<seq<Byte>>)
    ensures Concat(ReceivedAll(c, chunks).chunks) == Concat(c.chunks) + Concat(chunks)
    ensures ReceivedAll(c, chunks).hasFinished == c.hasFinished
    decreases |chunks|
  {
    if |chunks| > 0 {
      var c1 := Received(c, chunks[0]);
      ReceivedAllConcat(c1, chunks[1..]);
      ConcatCons(chunks[0], chunks[1..]);
      assert [chunks[0]] + chunks[1..] == chunks;
      var x, y, z := Concat(c.chunks), chunks[0], Concat(chunks[1..]);
      assert (x + y) + z == x + (y + z);
    }
  }

  /**
   A body read from a fresh `Gather` with a `finished` deferred is delivered
   as the concatenation of its chunks, however the body was split and
   whatever ended it.
   */
  lemma GatherDeliversBody(chunks: seq<seq<Byte>>, reason: LossReason)
    ensures GatherConnectionLost(ReceivedAll(NewCollector(true), chunks), reason).delivered == Some(Concat(chunks))
  {
    var start := NewCollector(true);
    ReceivedAllConcat(start, chunks);
    var body := Concat(chunks);
    assert Concat(start.chunks) == [];
    assert [] + body == body;
    assert Concat(ReceivedAll(start, chunks).chunks) == body;
  }

  /** Without a `finished` deferred, nothing is delivered. */
  lemma GatherWithoutFinished(chunks: seq<seq<Byte>>, reason: LossReason)
    ensures GatherConnectionLost(ReceivedAll(NewCollector(false), chunks), reason).delivered == None
    ensures GatherAndLogConnectionLost(ReceivedAll(NewCollector(false), chunks), reason).delivered == None
  {
    ReceivedAllConcat(NewCollector(false), chunks);
  }

  /** The two collectors deliver the same value; they differ only in what they log. */
  lemma CollectorsAgree(c: Collector, reason: LossReason)
    ensures GatherConnectionLost(c, reason).delivered == GatherAndLogConnectionLost(c, reason).delivered
  {
  }
}
