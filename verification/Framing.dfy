/**
  Length-prefixed frames on a byte stream (vscode-extension/src/daemon/client.ts:
  109-143, src/server/protocol.rs:240-258): however the bytes are cut into
  chunks, the same frames come out.
*/
module Framing {
  import opened Prelude
  import opened Bytes

  const MAX_MESSAGE_SIZE := 100 * 1024 * 1024

  /** `readUInt32LE`. */
  function ReadLength(b: seq<Byte>): nat
    requires |b| >= 4
  {
    NumberAt(b, 0, 4)
  }

  /** `writeUInt32LE`. */
  function WriteLength(n: U32): (b: seq<Byte>)
    ensures |b| == 4
  {
    LittleEndian(n, 4)
  }

  lemma LengthRoundTrip(n: U32)
    ensures ReadLength(WriteLength(n)) == n
  {
    Widths();
    LittleEndianRoundTrip(n, 4);
    assert WriteLength(n)[0..4] == WriteLength(n);
  }

  /** What a buffer yields: the complete frames, the bytes kept, and whether an oversized frame ended the connection. */
  datatype Drained = Drained(frames: seq<seq<Byte>>, rest: seq<Byte>, dead: bool)

  predicate HasFrame(b: seq<Byte>) {
    |b| >= 4 && |b| >= 4 + ReadLength(b)
  }

  predicate Oversized(b: seq<Byte>) {
    |b| >= 4 && ReadLength(b) > MAX_MESSAGE_SIZE
  }

  function Drain(b: seq<Byte>): (d: Drained)
    decreases |b|
  {
    if Oversized(b) then Drained([], [], true)
    else if !HasFrame(b) then Drained([], b, false)
    else
      var n := ReadLength(b);
      var d := Drain(b[4 + n..]);
      d.(frames := [b[4..4 + n]] + d.frames)
  }

  /** The bytes kept are an incomplete frame. */
  lemma {:induction false} RestIncomplete(b: seq<Byte>)
    ensures !HasFrame(Drain(b).rest) && !Oversized(Drain(b).rest)
    decreases |b|
  {
    if !Oversized(b) && HasFrame(b) {
      RestIncomplete(b[4 + ReadLength(b)..]);
    }
  }

  lemma SameLength(b: seq<Byte>, more: seq<Byte>)
    requires |b| >= 4
    ensures ReadLength(b + more) == ReadLength(b)
  {
    assert (b + more)[0..4] == b[0..4];
  }

  lemma CutFrame(b: seq<Byte>, more: seq<Byte>, n: nat)
    requires 4 + n <= |b|
    ensures (b + more)[4..4 + n] == b[4..4 + n] && (b + more)[4 + n..] == b[4 + n..] + more
  {
  }

  /** `frame` is the first frame of `b`, and `rest` follows it. */
  predicate Splits(b: seq<Byte>, frame: seq<Byte>, rest: seq<Byte>) {
    HasFrame(b) && !Oversized(b) && frame == b[4..4 + ReadLength(b)] && rest == b[4 + ReadLength(b)..]
  }

  lemma DrainStep(b: seq<Byte>, frame: seq<Byte>, rest: seq<Byte>)
    requires Splits(b, frame, rest)
    ensures Drain(b) == Drained([frame] + Drain(rest).frames, Drain(rest).rest, Drain(rest).dead)
    ensures |rest| < |b|
  {
  }

  lemma SplitsMore(b: seq<Byte>, frame: seq<Byte>, rest: seq<Byte>, more: seq<Byte>)
    requires Splits(b, frame, rest)
    ensures Splits(b + more, frame, rest + more)
  {
    StillFrame(b, more);
    CutFrame(b, more, ReadLength(b));
  }

  /** What was complete stays complete when more arrives. */
  lemma StillFrame(b: seq<Byte>, more: seq<Byte>)
    requires HasFrame(b)
    ensures HasFrame(b + more) && ReadLength(b + more) == ReadLength(b) && (Oversized(b + more) <==> Oversized(b))
  {
    SameLength(b, more);
  }

  lemma NoFrame(b: seq<Byte>)
    requires !HasFrame(b) && !Oversized(b)
    ensures Drain(b) == Drained([], b, false)
  {
  }

  lemma AliveIsSized(b: seq<Byte>)
    requires !Drain(b).dead
    ensures !Oversized(b)
  {
  }

  /** Draining early and going on with what was kept is draining it all. */
  lemma {:induction false} DrainInTwo(b: seq<Byte>, more: seq<Byte>)
    requires !Drain(b).dead
    ensures var d, e := Drain(b), Drain(Drain(b).rest + more);
            Drain(b + more) == Drained(d.frames + e.frames, e.rest, e.dead)
    decreases |b|
  {
    AliveIsSized(b);
    if HasFrame(b) {
      var frame, rest := b[4..4 + ReadLength(b)], b[4 + ReadLength(b)..];
      assert Splits(b, frame, rest);
      hide *;
      SplitsMore(b, frame, rest, more);
      DrainStep(b, frame, rest);
      DrainStep(b + more, frame, rest + more);
      DrainInTwo(rest, more);
      Cons(frame, Drain(rest).frames, Drain(Drain(rest).rest + more).frames);
    } else {
      NoFrame(b);
      hide *;
      var e := Drain(b + more);
      assert [] + e.frames == e.frames;
    }
  }

  lemma Cons(x: seq<Byte>, a: seq<seq<Byte>>, b: seq<seq<Byte>>)
    ensures [x] + (a + b) == ([x] + a) + b
  {
  }

  /** Nothing that follows an oversized frame is looked at. */
  lemma {:induction false} DeadStays(b: seq<Byte>, more: seq<Byte>)
    requires Drain(b).dead
    ensures Drain(b + more) == Drain(b)
    decreases |b|
  {
    SameLength(b, more);
    if !Oversized(b) {
      var n := ReadLength(b);
      CutFrame(b, more, n);
      DeadStays(b[4 + n..], more);
    }
  }

  /** The state of a reader: frames delivered so far, bytes kept, and whether it gave up. */
  function Feed(state: Drained, chunk: seq<Byte>): Drained {
    if state.dead then state
    else
      var d := Drain(state.rest + chunk);
      Drained(state.frames + d.frames, d.rest, d.dead)
  }

  function FeedAll(chunks: seq<seq<Byte>>): Drained {
    if chunks == [] then Drained([], [], false) else Feed(FeedAll(chunks[..|chunks| - 1]), chunks[|chunks| - 1])
  }

  function Join(chunks: seq<seq<Byte>>): seq<Byte> {
    if chunks == [] then [] else Join(chunks[..|chunks| - 1]) + chunks[|chunks| - 1]
  }

  /** However a stream is cut, the reader delivers the same frames and keeps the same incomplete tail. */
  lemma {:induction false} ChunksDoNotMatter(chunks: seq<seq<Byte>>)
    ensures FeedAll(chunks) == Drain(Join(chunks))
    decreases |chunks|
  {
    if chunks != [] {
      var init, last := chunks[..|chunks| - 1], chunks[|chunks| - 1];
      ChunksDoNotMatter(init);
      if FeedAll(init).dead {
        DeadStays(Join(init), last);
      } else {
        DrainInTwo(Join(init), last);
      }
    }
  }

  // -------------------------------------------------------------------- sending

  function Frame(message: seq<Byte>): seq<Byte>
    requires |message| <= MAX_MESSAGE_SIZE
  {
    WriteLength(|message|) + message
  }

  function Stream(messages: seq<seq<Byte>>): seq<Byte>
    requires forall k :: 0 <= k < |messages| ==> |messages[k]| <= MAX_MESSAGE_SIZE
  {
    if messages == [] then [] else Frame(messages[0]) + Stream(messages[1..])
  }

  lemma FrameComesOut(message: seq<Byte>, rest: seq<Byte>)
    requires |message| <= MAX_MESSAGE_SIZE
    ensures var b := Frame(message) + rest;
            HasFrame(b) && !Oversized(b) && ReadLength(b) == |message|
              && b[4..4 + |message|] == message && b[4 + |message|..] == rest
  {
    LengthRoundTrip(|message|);
    var b := Frame(message) + rest;
    assert b[..4] == WriteLength(|message|);
    assert b[0..4] == b[..4][0..4];
    assert ReadLength(b) == ReadLength(b[..4]);
  }

  /** What was framed comes out, followed by what an unfinished frame yields. */
  lemma {:induction false} StreamRoundTrip(messages: seq<seq<Byte>>, tail: seq<Byte>)
    requires forall k :: 0 <= k < |messages| ==> |messages[k]| <= MAX_MESSAGE_SIZE
    requires !HasFrame(tail) && !Oversized(tail)
    ensures Drain(Stream(messages) + tail) == Drained(messages, tail, false)
    decreases |messages|
  {
    if messages == [] {
      assert Stream(messages) + tail == tail;
    } else {
      var rest := Stream(messages[1..]) + tail;
      assert Stream(messages) + tail == Frame(messages[0]) + rest;
      FrameComesOut(messages[0], rest);
      StreamRoundTrip(messages[1..], tail);
      assert [messages[0]] + messages[1..] == messages;
      hide Frame, ReadLength, Oversized, HasFrame;
    }
  }

  /** Sent in any chunks, the messages arrive one by one in order. */
  lemma MessagesArrive(messages: seq<seq<Byte>>, tail: seq<Byte>, chunks: seq<seq<Byte>>)
    requires forall k :: 0 <= k < |messages| ==> |messages[k]| <= MAX_MESSAGE_SIZE
    requires !HasFrame(tail) && !Oversized(tail)
    requires Join(chunks) == Stream(messages) + tail
    ensures FeedAll(chunks) == Drained(messages, tail, false)
  {
    ChunksDoNotMatter(chunks);
    StreamRoundTrip(messages, tail);
  }
}
