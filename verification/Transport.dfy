/** The wire between the session and the client: the feed model's `Receive` steps are what
    the parser makes of the bytes, wherever the connection breaks. */
module Transport {
  import opened Basics
  import opened EventLog
  import opened Feed
  import Sse

  /** An event as the server frames it; `encode` is the JSON text of the whole event. */
  function FrameOf(e: StoredEvent, encode: StoredEvent -> string): Sse.Item
    requires e.globalSeq >= 0
  {
    Sse.Event(e.globalSeq, e.eventType, encode(e))
  }

  predicate Numbered(events: seq<StoredEvent>) { forall e :: e in events ==> e.globalSeq >= 0 }

  function FramesOf(events: seq<StoredEvent>, encode: StoredEvent -> string): seq<Sse.Item>
    requires Numbered(events)
  {
    if events == [] then [] else [FrameOf(events[0], encode)] + FramesOf(events[1..], encode)
  }

  lemma {:induction false} FramesSeqNo(events: seq<StoredEvent>, encode: StoredEvent -> string, cursor: int)
    requires Numbered(events)
    ensures Sse.SeqNos(FramesOf(events, encode), Sse.At(cursor)) == Sse.At(LastSeq(events, cursor))
    decreases |events|
  {
    if events != [] {
      assert Numbered(events[1..]);
      FramesSeqNo(events[1..], encode, events[0].globalSeq);
    }
  }

  lemma {:induction false} FramesPairs(events: seq<StoredEvent>, encode: StoredEvent -> string, i: nat)
    requires Numbered(events) && i < |events|
    ensures |Sse.Pairs(FramesOf(events, encode))| == |events|
    ensures Sse.Pairs(FramesOf(events, encode))[i] == Sse.Delivery(Sse.At(events[i].globalSeq), encode(events[i]))
    decreases |events|
  {
    if |events| > 1 {
      assert Numbered(events[1..]);
      FramesPairs(events[1..], encode, if i > 0 then i - 1 else 0);
    }
  }

  /** A connection that broke inside the frame after the k-th, read in any chunks, leaves the
      client with exactly the first k events of the wire and its cursor at the k-th: the state
      after k `Receive` steps. */
  lemma BrokenConnection(q: Topic, s: State, k: nat, encode: StoredEvent -> string, chunks: seq<string>, t: string,
                         next: Sse.Item, got: seq<Sse.Delivery>)
    requires k <= |s.wire| && Numbered(s.wire[..k])
    requires Sse.AllSendable(FramesOf(s.wire[..k], encode)) && Sse.Sendable(next) && Sse.Unfinished(t, next)
    requires Sse.Concat(chunks) == Sse.PrintAll(FramesOf(s.wire[..k], encode)) + t
    ensures var client := Sse.TsFrames(Sse.TsState(Sse.At(s.cursor), got), Sse.Frames(Sse.Concat(chunks)));
            var model := Run(q, s, Repeat(Receive, k));
            && client.lastId == Sse.At(model.cursor)
            && model.received == s.received + s.wire[..k]
            && |client.got| == |got| + k && client.got[..|got|] == got
            && forall i :: 0 <= i < k ==>
                 client.got[|got| + i] == Sse.Delivery(Sse.At(s.wire[i].globalSeq), encode(s.wire[i]))
  {
    var events := s.wire[..k];
    forall i: nat | i < k
      ensures |Sse.Pairs(FramesOf(events, encode))| == k
      ensures Sse.Pairs(FramesOf(events, encode))[i] == Sse.Delivery(Sse.At(s.wire[i].globalSeq), encode(s.wire[i]))
    {
      FramesPairs(events, encode, i);
    }
    assert k == 0 ==> FramesOf(events, encode) == [];
    Sse.AnyChunking(chunks, FramesOf(s.wire[..k], encode), t, next, Sse.TsState(Sse.At(s.cursor), got));
    FramesSeqNo(s.wire[..k], encode, s.cursor);
    ReceiveMany(q, s, k);
  }
}
