/**
 The pieces of the token stream in their own form: the queue object, the
 generator's loop, the replica server's drain loop and the session's callback.
 Each is proved against the functions TokenStream.dfy composes.
 */
module StreamCode {
  import opened Common
  import opened ChunkedCoding
  import opened TokenText
  import opened ReplicaHandles

  // Each method body runs under the queue's mutex.
  class ThreadSafeQueue {
    var q: seq<Bytes>
    var closed: bool

    constructor ()
      ensures q == [] && !closed
    {
      q, closed := [], false;
    }

    method Put(item: Bytes)
      modifies this`q
      ensures q == old(q) + [item]
    {
      q := q + [item];
    }

    // Returns once the wait condition holds: an item, or nothing when the queue is
    // closed and drained.
    method Get() returns (item: Option<Bytes>)
      requires closed || q != []
      modifies this`q
      ensures item == if old(q) == [] then None else Some(old(q)[0])
      ensures old(q) == (if item.None? then [] else [item.value]) + q
    {
      if q == [] {
        return None;
      }
      item := Some(q[0]);
      q := q[1..];
    }

    method Close()
      modifies this`closed
      ensures closed
    {
      closed := true;
    }
  }

  // Runs the generator to its end: everything the job has to say is put, in order,
  // and then the queue is closed, whether or not the engine raised.
  method GenerateStream(job: Job, queue: ThreadSafeQueue)
    modifies queue
    ensures queue.q == old(queue.q) + Tokens(job) && queue.closed
  {
    var sentPosition: nat := 0;
    ghost var texts: seq<string> := [];
    for k := 0 to |job.outs|
      invariant queue.q == old(queue.q) + EncodeAll(texts)
      invariant texts + Deltas(job.outs[k..], sentPosition) == Deltas(job.outs, 0)
    {
      var currentText := job.outs[k];
      var newText := From(currentText, sentPosition);
      DeltasStep(job.outs, k, sentPosition);
      if newText != "" {
        EncodeOneMore(texts, newText);
        queue.Put(Utf8(newText));
        sentPosition := |currentText|;
        texts := texts + [newText];
      }
    }
    if job.crash.Some? {
      queue.Put(Utf8("[PYTHON ERROR] " + job.crash.value));
      EncodeOneMore(texts, "[PYTHON ERROR] " + job.crash.value);
    }
    queue.Close();
  }

  lemma EncodeOneMore(texts: seq<string>, text: string)
    ensures EncodeAll(texts + [text]) == EncodeAll(texts) + [Utf8(text)]
  {
  }

  lemma {:induction false} DeltasStep(outs: seq<string>, k: nat, sent: nat)
    requires k < |outs|
    ensures var text := From(outs[k], sent);
            Deltas(outs[k..], sent) ==
            if text == "" then Deltas(outs[k + 1..], sent) else [text] + Deltas(outs[k + 1..], |outs[k]|)
  {
    assert outs[k..][1..] == outs[k + 1..];
  }

  // The drain loop on a queue that will get nothing more; the write numbered
  // `failsAt`, if it is reached, fails and stops the loop.
  method Drain(queue: ThreadSafeQueue, failsAt: nat) returns (written: seq<Bytes>)
    requires queue.closed
    modifies queue`q
    ensures written == old(queue.q)[..if failsAt < |old(queue.q)| then failsAt else |old(queue.q)|]
    ensures queue.q == old(queue.q)[if failsAt < |old(queue.q)| then failsAt + 1 else |old(queue.q)|..]
  {
    written := [];
    while true
      invariant |written| <= failsAt && |written| <= |old(queue.q)|
      invariant written == old(queue.q)[..|written|]
      invariant queue.q == old(queue.q)[|written|..]
      decreases |queue.q|
    {
      var item := queue.Get();
      if item.None? {
        break;
      }
      assert queue.q == old(queue.q)[|written| + 1..];
      if |written| == failsAt {
        break;
      }
      written := written + [item.value];
    }
  }

  datatype Outcome = Delivered | Threw

  // How many more bytes the client will take before its connection fails; without a
  // number it does not fail.
  type Room = Option<nat>

  predicate Fits(bytes: Bytes, room: Room) {
    room.None? || |bytes| <= room.value
  }

  function Taken(bytes: Bytes, room: Room): Bytes {
    if Fits(bytes, room) then bytes else bytes[..room.value]
  }

  // A connection that has failed takes nothing more.
  function Left(bytes: Bytes, room: Room): Room {
    if room.None? then None else if Fits(bytes, room) then Some(room.value - |bytes|) else Some(0)
  }

  lemma TakenAppend(a: Bytes, b: Bytes, room: Room)
    ensures Taken(a + b, room) == Taken(a, room) + Taken(b, Left(a, room))
    ensures Fits(a + b, room) <==> Fits(a, room) && Fits(b, Left(a, room))
    ensures Left(a + b, room) == Left(b, Left(a, room))
  {
  }

  // The part of a session that writes to the socket.
  class HttpSession {
    var socket: Bytes
    var room: Room

    constructor (room: Room)
      ensures socket == [] && this.room == room
    {
      socket, this.room := [], room;
    }

    method Write(bytes: Bytes) returns (ok: bool)
      modifies this
      ensures ok <==> Fits(bytes, old(room))
      ensures socket == old(socket) + Taken(bytes, old(room)) && room == Left(bytes, old(room))
    {
      ok := Fits(bytes, room);
      socket, room := socket + Taken(bytes, room), Left(bytes, room);
    }

    // A token becomes one chunk and throws if that cannot be written whole; an error
    // writes nothing and throws.
    method OnToken(expected: Option<Bytes>) returns (outcome: Outcome)
      modifies this
      ensures expected.Some? ==>
                && (outcome == Delivered <==> Fits(Chunk(expected.value), old(room)))
                && socket == old(socket) + Taken(Chunk(expected.value), old(room))
                && room == Left(Chunk(expected.value), old(room))
      ensures expected.None? ==> outcome == Threw && socket == old(socket) && room == old(room)
    {
      if expected.Some? {
        var token := expected.value;
        var chunk := Hex(|token|) + CRLF + token + CRLF;
        var ok := Write(chunk);
        outcome := if ok then Delivered else Threw;
      } else {
        outcome := Threw;
      }
    }

    // Streams the tokens of a call, then the error if it ended with one, until a callback
    // throws; the zero chunk is tried on every path, and its own failure is ignored.
    method Respond(tokens: seq<Bytes>, failed: bool) returns (threw: bool)
      modifies this
      ensures socket == old(socket) + Taken(Wire(tokens) + LAST, old(room))
      ensures threw <==> failed || !Fits(Wire(tokens), old(room))
    {
      threw := Stream(tokens);
      if !threw && failed {
        var outcome := OnToken(None);
        threw := outcome == Threw;
      }
      TakenAppend(Wire(tokens), LAST, old(room));
      var _ := Write(LAST);
    }

    // The first `k` chunks have been written, as far as they were taken.
    ghost predicate Wrote(start: Bytes, was: Room, tokens: seq<Bytes>, k: nat)
      requires k <= |tokens|
      reads this
    {
      socket == start + Taken(Wire(tokens[..k]), was) && room == Left(Wire(tokens[..k]), was)
    }

    // The token callbacks of a call, until one throws.
    method Stream(tokens: seq<Bytes>) returns (threw: bool)
      modifies this
      ensures socket == old(socket) + Taken(Wire(tokens), old(room)) && room == Left(Wire(tokens), old(room))
      ensures threw <==> !Fits(Wire(tokens), old(room))
    {
      assert Wire(tokens[..0]) == [];
      for k := 0 to |tokens|
        invariant Fits(Wire(tokens[..k]), old(room)) && Wrote(old(socket), old(room), tokens, k)
      {
        threw := NextToken(tokens, k, old(socket), old(room));
        if threw {
          NothingMore(tokens, k + 1, old(room));
          return;
        }
      }
      assert tokens[..|tokens|] == tokens;
      threw := false;
    }

    method NextToken(tokens: seq<Bytes>, k: nat, ghost start: Bytes, ghost was: Room) returns (threw: bool)
      requires k < |tokens| && Fits(Wire(tokens[..k]), was) && Wrote(start, was, tokens, k)
      modifies this
      ensures Wrote(start, was, tokens, k + 1)
      ensures threw <==> !Fits(Wire(tokens[..k + 1]), was)
    {
      OneMoreChunk(tokens, k, was);
      ghost var before, more := Wire(tokens[..k]), Taken(Chunk(tokens[k]), room);
      assert start + before + more == start + (before + more);
      var outcome := OnToken(Some(tokens[k]));
      threw := outcome == Threw;
    }
  }

  lemma WireUpTo(tokens: seq<Bytes>, k: nat)
    requires k < |tokens|
    ensures Wire(tokens[..k + 1]) == Wire(tokens[..k]) + Chunk(tokens[k])
  {
    assert tokens[..k + 1] == tokens[..k] + [tokens[k]];
    WireAppend(tokens[..k], tokens[k]);
  }

  lemma {:induction false} WireSplit(tokens: seq<Bytes>, k: nat)
    requires k <= |tokens|
    ensures Wire(tokens) == Wire(tokens[..k]) + Wire(tokens[k..])
  {
    if k == 0 {
      assert tokens[..0] == [] && tokens[0..] == tokens;
    } else {
      WireSplit(tokens, k - 1);
      WireUpTo(tokens, k - 1);
      assert tokens[k - 1..][1..] == tokens[k..];
    }
  }

  lemma OneMoreChunk(tokens: seq<Bytes>, k: nat, room: Room)
    requires k < |tokens| && Fits(Wire(tokens[..k]), room)
    ensures var before, after, left := Wire(tokens[..k]), Wire(tokens[..k + 1]), Left(Wire(tokens[..k]), room);
            && (Fits(Chunk(tokens[k]), left) <==> Fits(after, room))
            && before + Taken(Chunk(tokens[k]), left) == Taken(after, room)
            && Left(Chunk(tokens[k]), left) == Left(after, room)
  {
    WireUpTo(tokens, k);
    TakenAppend(Wire(tokens[..k]), Chunk(tokens[k]), room);
  }

  // Once a chunk does not fit, the later ones leave no trace.
  lemma {:induction false} NothingMore(tokens: seq<Bytes>, k: nat, room: Room)
    requires k <= |tokens| && !Fits(Wire(tokens[..k]), room)
    ensures !Fits(Wire(tokens), room)
    ensures Taken(Wire(tokens), room) == Taken(Wire(tokens[..k]), room)
    ensures Left(Wire(tokens), room) == Left(Wire(tokens[..k]), room)
  {
    WireSplit(tokens, k);
    TakenAppend(Wire(tokens[..k]), Wire(tokens[k..]), room);
  }

  // ---------- from a request's callbacks to the client ----------

  // The tokens among the callbacks a request makes.
  function TokensIn(calls: seq<Call>): (tokens: seq<Bytes>) {
    if calls == [] then []
    else TokensIn(calls[..|calls| - 1]) + match calls[|calls| - 1] case Token(text) => [text] case Error(_) => []
  }

  lemma {:induction false} TokensInCalls(tokens: seq<Bytes>)
    ensures TokensIn(TokenCalls(tokens)) == tokens
  {
    if tokens != [] {
      var front := tokens[..|tokens| - 1];
      TokensInCalls(front);
      assert TokenCalls(tokens)[..|front|] == TokenCalls(front);
    }
  }

  // The tokens of a request: none without a replica or a start.
  function RequestTokens(found: bool, rpc: Rpc): (tokens: seq<Bytes>) {
    if found && rpc.started then rpc.tokens else []
  }

  lemma ScriptTokens(found: bool, rpc: Rpc)
    ensures TokensIn(Script(found, rpc)) == RequestTokens(found, rpc)
  {
    var calls := Script(found, rpc);
    if found && rpc.started {
      TokensInCalls(rpc.tokens);
      if rpc.final.StatusOk? {
        assert calls == TokenCalls(rpc.tokens);
      } else {
        assert calls[..|calls| - 1] == TokenCalls(rpc.tokens);
      }
    } else {
      assert calls[..0] == [];
      assert TokensIn(calls) == TokensIn(calls[..0]);
    }
  }

  lemma {:induction false} SentDecodes(tokens: seq<Bytes>, room: Room)
    requires NonEmpty(tokens)
    ensures var sent := Taken(Wire(tokens) + LAST, room);
            if room.None? || room.value >= |Wire(tokens)| + MARK
            then Decode(sent).Body? && Decode(sent).body == Concat(tokens) else Decode(sent) == Incomplete
  {
    var all := Wire(tokens) + LAST;
    var n := if Fits(all, room) then |all| else room.value;
    CutExact(tokens, n);
    assert Taken(all, room) == all[..n];
  }

  // However a request and its client's connection go, what reaches the client either
  // decodes to exactly the request's tokens or is seen to be incomplete, and it is
  // complete exactly when the connection lasts to the end of the zero chunk.
  lemma {:induction false} RequestDecodes(found: bool, rpc: Rpc, room: Room, rest: Bytes)
    requires NonEmpty(rpc.tokens)
    ensures var tokens := RequestTokens(found, rpc);
            var sent := Taken(Wire(tokens) + LAST, room);
            && TokensIn(Script(found, rpc)) == tokens
            && (if room.None? || room.value >= |Wire(tokens)| + MARK
                then Decode(sent).Body? && Decode(sent).body == Concat(tokens) else Decode(sent) == Incomplete)
            && Decode(Wire(tokens) + (LAST + rest)) == Body(Concat(tokens), [0] + rest)
  {
    var tokens := RequestTokens(found, rpc);
    ScriptTokens(found, rpc);
    assert NonEmpty(tokens);
    SentDecodes(tokens, room);
    DecodeExact(tokens, rest);
  }
}
