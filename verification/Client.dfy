/** The client side of the pipelined protocol (vscode-extension/src/daemon/client.ts). */
module Client {
  import opened Prelude
  import opened Framing

  type Id = nat  // request ids are the counter, printed

  datatype Body = Answer(text: string) | TooMany | Complaint(text: string)

  /** A response; old servers and error paths leave out the id. */
  datatype Reply = Reply(id: Option<Id>, body: Body)

  datatype Outcome = Resolved(body: Body) | TimedOut | WriteFailed | InvalidJson | ConnectionLost | Disposed

  datatype Settlement = Settlement(id: Id, outcome: Outcome)

  /** The client's books: what was issued, what is open, and what was settled how. */
  datatype Books = Books(counter: nat, pending: set<Id>, queue: seq<Id>, settled: seq<Settlement>)

  const NEW_BOOKS := Books(0, {}, [], [])

  /** `splice(indexOf(id), 1)`: the first occurrence goes. */
  function Spliced(s: seq<Id>, id: Id): (r: seq<Id>)
    ensures |r| <= |s|
  {
    if s == [] then [] else if s[0] == id then s[1..] else [s[0]] + Spliced(s[1..], id)
  }

  function Issue(b: Books): Books {
    Books(b.counter + 1, b.pending + {b.counter}, b.queue + [b.counter], b.settled)
  }

  /** A pending request ends. */
  function Settle(b: Books, id: Id, outcome: Outcome): Books {
    b.(pending := b.pending - {id}, queue := Spliced(b.queue, id), settled := b.settled + [Settlement(id, outcome)])
  }

  /** The oldest request in the queue ends, if it is still pending. */
  function SettleOldest(b: Books, outcome: Outcome): Books {
    if b.queue == [] then b
    else if b.queue[0] in b.pending then
      b.(pending := b.pending - {b.queue[0]},
         queue := b.queue[1..],
         settled := b.settled + [Settlement(b.queue[0], outcome)])
    else b.(queue := b.queue[1..])
  }

  /** By id when there is one, an unknown id dropped; the oldest without one. */
  function HandleReply(b: Books, r: Reply): Books {
    if r.id.Some? then
      if r.id.value in b.pending then Settle(b, r.id.value, Resolved(r.body)) else b
    else SettleOldest(b, Resolved(r.body))
  }

  /** A timer or a failed write; both take the id out whether or not it is still there. */
  function GiveUp(b: Books, id: Id, outcome: Outcome): Books {
    if id in b.pending then Settle(b, id, outcome) else b
  }

  function SettleAll(ids: seq<Id>, outcome: Outcome): (r: seq<Settlement>)
    ensures |r| == |ids| && forall k :: 0 <= k < |ids| ==> r[k] == Settlement(ids[k], outcome)
  {
    seq(|ids|, k requires 0 <= k < |ids| => Settlement(ids[k], outcome))
  }

  /** Every pending request is rejected, oldest first. */
  function Lose(b: Books, outcome: Outcome): Books {
    Books(b.counter, {}, [], b.settled + SettleAll(b.queue, outcome))
  }

  /** `JSON.parse` of a frame. */
  type Parser = seq<Byte> -> Option<Reply>

  function HandleFrame(b: Books, parse: Parser, frame: seq<Byte>): Books {
    match parse(frame)
    case Some(r) => HandleReply(b, r)
    case None => SettleOldest(b, InvalidJson)
  }

  function HandleFrames(b: Books, parse: Parser, frames: seq<seq<Byte>>): Books
    decreases |frames|
  {
    if frames == [] then b else HandleFrames(HandleFrame(b, parse, frames[0]), parse, frames[1..])
  }

  // -------------------------------------------------------------- what books keep

  /**
    Open requests are those issued and not settled, the queue lists exactly them,
    oldest first, and nothing settled twice.
  */
  ghost predicate Balanced(b: Books) {
    && Ascending(b.queue) && Elements(b.queue) == b.pending
    && (forall id :: id in b.pending ==> id < b.counter)
    && (forall k :: 0 <= k < |b.settled| ==> b.settled[k].id < b.counter && b.settled[k].id !in b.pending)
    && (forall j, k :: 0 <= j < k < |b.settled| ==> b.settled[j].id != b.settled[k].id)
    && (forall id: Id :: id < b.counter ==> id in b.pending || SettledId(b, id))
  }

  ghost predicate SettledId(b: Books, id: Id) {
    exists k :: 0 <= k < |b.settled| && b.settled[k].id == id
  }

  lemma {:induction false} SplicedHas(s: seq<Id>, id: Id, x: Id)
    requires Ascending(s)
    ensures x in Spliced(s, id) <==> x in s && x != id
    decreases |s|
  {
    if s != [] {
      var rest := s[1..];
      assert s == [s[0]] + rest;
      if s[0] == id {
        assert forall i :: 0 < i < |s| ==> s[0] < s[i];
      } else {
        SplicedHas(rest, id, x);
      }
    }
  }

  lemma {:induction false} SplicedAscends(s: seq<Id>, id: Id)
    requires Ascending(s)
    ensures Ascending(Spliced(s, id))
    decreases |s|
  {
    if s != [] && s[0] != id {
      var rest := Spliced(s[1..], id);
      SplicedAscends(s[1..], id);
      forall k | 0 <= k < |rest|
        ensures s[0] < rest[k]
      {
        assert rest[k] in rest;
        SplicedHas(s[1..], id, rest[k]);
        var i :| 0 <= i < |s[1..]| && s[1..][i] == rest[k];
        assert s[0] < s[i + 1];
      }
    }
  }

  lemma SplicedKeeps(s: seq<Id>, id: Id)
    requires Ascending(s)
    ensures Ascending(Spliced(s, id)) && Elements(Spliced(s, id)) == Elements(s) - {id}
  {
    SplicedAscends(s, id);
    hide Spliced, Ascending;
    forall x: Id
      ensures x in Spliced(s, id) <==> x in s && x != id
    {
      SplicedHas(s, id, x);
    }
  }

  lemma SettledMore(b: Books, more: seq<Settlement>, id: Id)
    ensures SettledId(b.(settled := b.settled + more), id) <==>
            SettledId(b, id) || exists k :: 0 <= k < |more| && more[k].id == id
  {
    var all := b.settled + more;
    if k :| 0 <= k < |b.settled| && b.settled[k].id == id {
      assert all[k].id == id;
    }
    if k :| 0 <= k < |more| && more[k].id == id {
      assert all[|b.settled| + k].id == id;
    }
  }

  lemma IssueBalances(b: Books)
    requires Balanced(b)
    ensures Balanced(Issue(b))
  {
    var c := Issue(b);
    assert forall k :: 0 <= k < |b.queue| ==> b.queue[k] in Elements(b.queue);
    forall id: Id | id < c.counter
      ensures id in c.pending || SettledId(c, id)
    {
      if id < b.counter && id !in b.pending {
        assert SettledId(b, id);
        var k :| 0 <= k < |b.settled| && b.settled[k].id == id;
        assert c.settled[k].id == id;
      }
    }
  }

  lemma SettleBalances(b: Books, id: Id, outcome: Outcome)
    requires Balanced(b) && id in b.pending
    ensures Balanced(Settle(b, id, outcome))
  {
    SplicedKeeps(b.queue, id);
    var c := Settle(b, id, outcome);
    hide Spliced, Elements;
    forall x: Id | x < c.counter
      ensures x in c.pending || SettledId(c, x)
    {
      SettledMore(b, [Settlement(id, outcome)], x);
      assert [Settlement(id, outcome)][0].id == id;
      assert SettledId(c, x) <==> SettledId(b.(settled := b.settled + [Settlement(id, outcome)]), x);
    }
  }

  lemma OldestIsSettle(b: Books, outcome: Outcome)
    requires Balanced(b) && b.queue != []
    ensures b.queue[0] in b.pending
    ensures SettleOldest(b, outcome) == Settle(b, b.queue[0], outcome)
  {
    assert b.queue[0] in Elements(b.queue);
  }

  lemma ReplyBalances(b: Books, r: Reply)
    requires Balanced(b)
    ensures Balanced(HandleReply(b, r))
  {
    if r.id.Some? {
      if r.id.value in b.pending {
        SettleBalances(b, r.id.value, Resolved(r.body));
      }
    } else if b.queue != [] {
      OldestIsSettle(b, Resolved(r.body));
      SettleBalances(b, b.queue[0], Resolved(r.body));
    }
  }

  lemma GiveUpBalances(b: Books, id: Id, outcome: Outcome)
    requires Balanced(b)
    ensures Balanced(GiveUp(b, id, outcome))
  {
    if id in b.pending {
      SettleBalances(b, id, outcome);
    }
  }

  lemma LoseBalances(b: Books, outcome: Outcome)
    requires Balanced(b)
    ensures Balanced(Lose(b, outcome))
  {
    var c, more := Lose(b, outcome), SettleAll(b.queue, outcome);
    assert forall k :: 0 <= k < |b.queue| ==> b.queue[k] in Elements(b.queue);
    forall x: Id | x < c.counter
      ensures SettledId(c, x)
    {
      SettledMore(b, more, x);
      assert SettledId(c, x) <==> SettledId(b.(settled := b.settled + more), x);
      if x in b.pending {
        assert x in Elements(b.queue);
        var k :| 0 <= k < |b.queue| && b.queue[k] == x;
        assert more[k].id == x;
      }
    }
  }

  // -------------------------------------------------------------------- the class

  class DaemonClient {
    var buffer: seq<Byte>
    var pendingById: set<Id>
    var legacyQueue: seq<Id>
    var requestCounter: nat
    var connected: bool
    var disposed: bool
    ghost var settled: seq<Settlement>  // promises resolved or rejected, in order

    ghost function Value(): Books
      reads this
    {
      Books(requestCounter, pendingById, legacyQueue, settled)
    }

    constructor ()
      ensures Value() == NEW_BOOKS && buffer == [] && !connected && !disposed
    {
      buffer, pendingById, legacyQueue, requestCounter := [], {}, [], 0;
      connected, disposed := false, false;
      settled := [];
    }

    method SpliceQueue(id: Id)
      modifies this`legacyQueue
      ensures legacyQueue == Spliced(old(legacyQueue), id)
    {
      var idx := 0;
      while idx < |legacyQueue|
        invariant 0 <= idx <= |legacyQueue| && legacyQueue == old(legacyQueue)
        invariant Spliced(legacyQueue, id) == legacyQueue[..idx] + Spliced(legacyQueue[idx..], id)
      {
        assert legacyQueue[idx..][1..] == legacyQueue[idx + 1..];
        if legacyQueue[idx] == id {
          legacyQueue := legacyQueue[..idx] + legacyQueue[idx + 1..];
          return;
        }
        assert legacyQueue[..idx + 1] == legacyQueue[..idx] + [legacyQueue[idx]];
        ConsMove(legacyQueue[..idx], legacyQueue[idx], Spliced(legacyQueue[idx + 1..], id));
        idx := idx + 1;
      }
    }

    method SendRaw() returns (id: Id)
      modifies this`requestCounter, this`pendingById, this`legacyQueue
      ensures Value() == Issue(old(Value())) && id == old(requestCounter)
    {
      id := requestCounter;
      requestCounter := requestCounter + 1;
      pendingById := pendingById + {id};
      legacyQueue := legacyQueue + [id];
    }

    /** The timer of a request that is still open, or its write, fails. */
    method Fail(id: Id, outcome: Outcome)
      requires id in pendingById
      modifies this`pendingById, this`legacyQueue, this`settled
      ensures Value() == GiveUp(old(Value()), id, outcome)
    {
      pendingById := pendingById - {id};
      SpliceQueue(id);
      settled := settled + [Settlement(id, outcome)];
    }

    method HandleResponse(response: Reply)
      modifies this`pendingById, this`legacyQueue, this`settled
      ensures Value() == HandleReply(old(Value()), response)
    {
      if response.id.Some? {
        var responseId := response.id.value;
        if responseId in pendingById {
          pendingById := pendingById - {responseId};
          SpliceQueue(responseId);
          settled := settled + [Settlement(responseId, Resolved(response.body))];
        }
      } else if |legacyQueue| > 0 {
        var oldestId := legacyQueue[0];
        legacyQueue := legacyQueue[1..];
        if oldestId in pendingById {
          pendingById := pendingById - {oldestId};
          settled := settled + [Settlement(oldestId, Resolved(response.body))];
        }
      }
    }

    method RejectOldest()
      modifies this`pendingById, this`legacyQueue, this`settled
      ensures Value() == SettleOldest(old(Value()), InvalidJson)
    {
      if |legacyQueue| > 0 {
        var oldestId := legacyQueue[0];
        legacyQueue := legacyQueue[1..];
        if oldestId in pendingById {
          pendingById := pendingById - {oldestId};
          settled := settled + [Settlement(oldestId, InvalidJson)];
        }
      }
    }

    method RejectAll(outcome: Outcome)
      modifies this`pendingById, this`legacyQueue, this`settled
      ensures Value() == Lose(old(Value()), outcome)
    {
      settled := settled + SettleAll(legacyQueue, outcome);
      pendingById := {};
      legacyQueue := [];
    }

    method HandleDisconnect()
      modifies this
      ensures Value() == Lose(old(Value()), ConnectionLost) && buffer == [] && !connected && disposed == old(disposed)
    {
      connected := false;
      buffer := [];
      RejectAll(ConnectionLost);
    }

    method Dispose()
      modifies this
      ensures Value() == Lose(old(Value()), Outcome.Disposed) && disposed && !connected && buffer == old(buffer)
    {
      disposed := true;
      RejectAll(Outcome.Disposed);
      connected := false;
    }

    /** Delivers every complete frame of the buffer and keeps the rest. */
    method OnData(data: seq<Byte>, parse: Parser)
      modifies this
      ensures var d := Drain(old(buffer) + data);
              var delivered := HandleFrames(old(Value()), parse, d.frames);
              && buffer == d.rest
              && Value() == (if d.dead then Lose(delivered, ConnectionLost) else delivered)
              && (connected == if d.dead then false else old(connected))
    {
      hide Lose;
      buffer := buffer + data;
      ghost var all := Drain(buffer);
      ghost var start := Value();
      while |buffer| >= 4
        invariant Drain(buffer).rest == all.rest && Drain(buffer).dead == all.dead
        invariant HandleFrames(Value(), parse, Drain(buffer).frames) == HandleFrames(start, parse, all.frames)
        invariant connected == old(connected)
        decreases |buffer|
      {
        var len := ReadLength(buffer);
        if len > MAX_MESSAGE_SIZE {
          HandleDisconnect();
          return;
        }
        if |buffer| < 4 + len {
          break;
        }
        var json := buffer[4..4 + len];
        ghost var d := Drain(buffer[4 + len..]);
        assert Drain(buffer) == d.(frames := [json] + d.frames);
        assert ([json] + d.frames)[1..] == d.frames;
        buffer := buffer[4 + len..];
        var response := parse(json);
        if response.Some? {
          HandleResponse(response.value);
        } else {
          RejectOldest();
        }
      }
    }
  }
}
