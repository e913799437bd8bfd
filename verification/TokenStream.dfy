/**
 One streamed request from the model to the socket: generator, queue, drain loop,
 gRPC stream and chunk encoder, each moving whenever it can. The bytes on the
 socket decode to the answer whatever the interleaving.
 */
module TokenStream {
  import opened Common
  import opened ChunkedCoding
  import opened TokenText

  // `Finishing` has put everything and has yet to put the closing sentinel.
  datatype Generator = Running | Finishing | Closed

  datatype Server = Draining | Returned

  // The proxy's side: reading replies, told how the call ended, terminator written.
  datatype Client = Reading | Ended(ok: bool) | Done(ok: bool)

  datatype Stream = Stream(
    next: nat,            // outputs taken from the engine
    sent: nat,            // sent_position
    generator: Generator,
    queue: seq<Bytes>,
    server: Server,
    taken: nat,           // tokens the drain loop has taken from the queue
    broken: bool,         // the gRPC stream has failed
    wire: seq<Bytes>,     // replies in flight to the proxy
    client: Client,
    got: seq<Bytes>,      // tokens handed to the proxy's callback
    socket: Bytes)

  const START := Stream(0, 0, Running, [], Draining, 0, false, [], Reading, [], [])

  datatype Event =
    | Produce       // one more cumulative output
    | Finish        // the engine stops, or raises and its message is put
    | Close         // the closing sentinel
    | Serve         // take a token and write it to the gRPC stream
    | ServeBroken   // take a token and fail to write it: the drain loop stops
    | ServeEnd      // the queue is closed and empty: the call returns OK
    | Read          // the proxy reads a reply and writes a chunk
    | ReadEnd       // the proxy sees the call end with OK
    | Break         // the gRPC stream fails
    | ReadFail      // the proxy sees the call end with an error
    | Terminate     // the proxy writes the zero chunk

  ghost predicate Can(job: Job, s: Stream, e: Event) {
    match e
    case Produce => s.generator == Running && s.next < |job.outs|
    case Finish => s.generator == Running && s.next == |job.outs|
    case Close => s.generator == Finishing
    case Serve => s.server == Draining && s.queue != []
    case ServeBroken => s.server == Draining && s.queue != [] && s.broken
    case ServeEnd => s.server == Draining && s.queue == [] && s.generator == Closed
    case Read => s.client == Reading && s.wire != []
    case ReadEnd => s.client == Reading && s.wire == [] && s.server == Returned && !s.broken
    case Break => !s.broken
    case ReadFail => s.client == Reading && s.broken
    case Terminate => s.client.Ended?
  }

  function Do(job: Job, s: Stream, e: Event): Stream
    requires Can(job, s, e)
  {
    match e
    case Produce =>
      var text := From(job.outs[s.next], s.sent);
      if text == "" then s.(next := s.next + 1)
      else s.(next := s.next + 1, sent := |job.outs[s.next]|, queue := s.queue + [Utf8(text)])
    case Finish => s.(generator := Finishing, queue := s.queue + EncodeAll(CrashText(job.crash)))
    case Close => s.(generator := Closed)
    case Serve => s.(queue := s.queue[1..], taken := s.taken + 1,
                     wire := if s.broken then s.wire else s.wire + [s.queue[0]])
    case ServeBroken => s.(queue := s.queue[1..], taken := s.taken + 1, server := Returned)
    case ServeEnd => s.(server := Returned)
    case Read => s.(wire := s.wire[1..], got := s.got + [s.wire[0]], socket := s.socket + Chunk(s.wire[0]))
    case ReadEnd => s.(client := Ended(true))
    case Break => s.(broken := true)
    case ReadFail => s.(client := Ended(false))
    case Terminate => s.(client := Done(s.client.ok), socket := s.socket + LAST)
  }

  ghost predicate Runs(job: Job, s: Stream, run: seq<Event>)
    decreases |run|
  {
    run == [] || (Can(job, s, run[0]) && Runs(job, Do(job, s, run[0]), run[1..]))
  }

  ghost function After(job: Job, s: Stream, run: seq<Event>): Stream
    requires Runs(job, s, run)
    decreases |run|
  {
    if run == [] then s else After(job, Do(job, s, run[0]), run[1..])
  }

  // ---------- what every event keeps ----------

  // The texts the generator has yet to put.
  function ToPut(job: Job, s: Stream): seq<string>
    requires s.next <= |job.outs|
  {
    if s.generator == Running then Deltas(job.outs[s.next..], s.sent) + CrashText(job.crash) else []
  }

  // Nothing is lost or reordered between the generator and the drain loop.
  ghost predicate QueueOk(job: Job, s: Stream) {
    && s.next <= |job.outs|
    && s.taken <= |Tokens(job)|
    && s.queue + EncodeAll(ToPut(job, s)) == Tokens(job)[s.taken..]
  }

  // The proxy has a prefix of what was taken, and all of it but what is in flight
  // unless the stream failed.
  ghost predicate WireOk(job: Job, s: Stream) {
    && |s.got| + |s.wire| <= s.taken <= |Tokens(job)|
    && s.got + s.wire == Tokens(job)[..|s.got| + |s.wire|]
    && (!s.broken ==> |s.got| + |s.wire| == s.taken)
    && (!s.broken && s.server == Returned ==> s.queue == [] && s.generator == Closed)
    && (s.client.Ended? || s.client.Done? ==> (if s.client.ok then s.got == Tokens(job) else s.broken))
  }

  ghost predicate SocketOk(s: Stream) {
    s.socket == Wire(s.got) + if s.client.Done? then LAST else []
  }

  ghost predicate Inv(job: Job, s: Stream) {
    QueueOk(job, s) && WireOk(job, s) && SocketOk(s)
  }

  lemma StartInv(job: Job)
    ensures Inv(job, START)
  {
    assert job.outs[0..] == job.outs;
    assert Tokens(job)[0..] == Tokens(job);
  }

  lemma ProduceQueueOk(job: Job, s: Stream)
    requires QueueOk(job, s) && Can(job, s, Produce)
    ensures QueueOk(job, Do(job, s, Produce))
  {
    var s' := Do(job, s, Produce);
    var text := From(job.outs[s.next], s.sent);
    assert job.outs[s.next..][1..] == job.outs[s'.next..];
    if text == "" {
      assert ToPut(job, s) == ToPut(job, s');
    } else {
      assert ToPut(job, s) == [text] + ToPut(job, s');
      assert EncodeAll(ToPut(job, s)) == [Utf8(text)] + EncodeAll(ToPut(job, s'));
      assert s'.queue == s.queue + [Utf8(text)];
    }
  }

  lemma FinishQueueOk(job: Job, s: Stream)
    requires QueueOk(job, s) && Can(job, s, Finish)
    ensures QueueOk(job, Do(job, s, Finish))
  {
    assert ToPut(job, s) == CrashText(job.crash);
    assert ToPut(job, Do(job, s, Finish)) == [];
  }

  // Taking the head of the queue takes the next token of the job.
  lemma TakesNext(job: Job, s: Stream)
    requires QueueOk(job, s) && s.queue != []
    ensures s.taken < |Tokens(job)| && s.queue[0] == Tokens(job)[s.taken]
    ensures s.queue[1..] + EncodeAll(ToPut(job, s)) == Tokens(job)[s.taken + 1..]
  {
    var all := s.queue + EncodeAll(ToPut(job, s));
    assert all[0] == s.queue[0];
    assert all[1..] == s.queue[1..] + EncodeAll(ToPut(job, s));
    assert Tokens(job)[s.taken..][1..] == Tokens(job)[s.taken + 1..];
  }

  lemma DoQueueOk(job: Job, s: Stream, e: Event)
    requires QueueOk(job, s) && Can(job, s, e)
    ensures QueueOk(job, Do(job, s, e))
  {
    if e.Produce? {
      ProduceQueueOk(job, s);
    } else if e.Finish? {
      FinishQueueOk(job, s);
    } else {
      assert ToPut(job, Do(job, s, e)) == ToPut(job, s);
      if e.Serve? || e.ServeBroken? {
        TakesNext(job, s);
      }
    }
  }

  lemma ServeWireOk(job: Job, s: Stream)
    requires QueueOk(job, s) && WireOk(job, s) && Can(job, s, Serve)
    ensures WireOk(job, Do(job, s, Serve))
  {
    TakesNext(job, s);
    if !s.broken {
      assert s.got + (s.wire + [s.queue[0]]) == (s.got + s.wire) + [s.queue[0]];
    }
  }

  lemma DoWireOk(job: Job, s: Stream, e: Event)
    requires QueueOk(job, s) && WireOk(job, s) && Can(job, s, e)
    ensures WireOk(job, Do(job, s, e))
  {
    match e
    case Serve => ServeWireOk(job, s);
    case ServeBroken => TakesNext(job, s);
    case Read =>
      assert s.got + [s.wire[0]] + s.wire[1..] == s.got + s.wire;
    case ReadEnd =>
      assert s.got + [] == s.got;
    case _ =>
  }

  lemma DoSocketOk(job: Job, s: Stream, e: Event)
    requires SocketOk(s) && Can(job, s, e)
    ensures SocketOk(Do(job, s, e))
  {
    if e.Read? {
      WireAppend(s.got, s.wire[0]);
      assert Do(job, s, e).socket == Wire(s.got) + Chunk(s.wire[0]);
    } else {
      assert Do(job, s, e).got == s.got;
    }
  }

  lemma DoInv(job: Job, s: Stream, e: Event)
    requires Inv(job, s) && Can(job, s, e)
    ensures Inv(job, Do(job, s, e))
  {
    DoQueueOk(job, s, e);
    DoWireOk(job, s, e);
    DoSocketOk(job, s, e);
  }

  lemma {:induction false} RunInv(job: Job, s: Stream, run: seq<Event>)
    requires Inv(job, s) && Runs(job, s, run)
    ensures Inv(job, After(job, s, run))
    decreases |run|
  {
    if run != [] {
      DoInv(job, s, run[0]);
      RunInv(job, Do(job, s, run[0]), run[1..]);
    }
  }

  // ---------- end to end ----------

  lemma NonEmptyPrefix(job: Job, s: Stream)
    requires WireOk(job, s)
    ensures NonEmpty(s.got) && s.got == Tokens(job)[..|s.got|]
  {
    TokensSpell(job);
    assert s.got == (s.got + s.wire)[..|s.got|];
  }

  // For every interleaving: before the terminator the client knows the body is
  // not complete; after it the body decodes to exactly the tokens that arrived,
  // a prefix of those sent, and bytes after the terminator are left alone; and if
  // the call ended well, that is the whole answer.
  lemma {:induction false} EndToEnd(job: Job, run: seq<Event>, rest: Bytes)
    requires Runs(job, START, run)
    ensures var s := After(job, START, run);
            && |s.got| <= |Tokens(job)| && s.got == Tokens(job)[..|s.got|]
            && (!s.client.Done? ==> Decode(s.socket) == Incomplete)
            && (s.client.Done? ==> Decode(s.socket + rest) == Body(Concat(s.got), [0] + rest))
            && (s.client == Done(true) ==> Decode(s.socket + rest) == Body(Utf8(Answer(job)), [0] + rest))
  {
    StartInv(job);
    RunInv(job, START, run);
    var s := After(job, START, run);
    NonEmptyPrefix(job, s);
    TokensSpell(job);
    if s.client.Done? {
      assert s.socket + rest == Wire(s.got) + (LAST + rest);
      DecodeExact(s.got, rest);
    } else {
      assert s.socket == Wire(s.got);
      OpenBody(s.got);
    }
  }

  lemma {:induction false} ConcatSplit(tokens: seq<Bytes>, k: nat)
    requires k <= |tokens|
    ensures Concat(tokens) == Concat(tokens[..k]) + Concat(tokens[k..])
  {
    if k == 0 {
      assert tokens[..0] == [] && tokens[0..] == tokens;
    } else {
      ConcatSplit(tokens[1..], k - 1);
      assert tokens[..k][1..] == tokens[1..][..k - 1] && tokens[1..][k - 1..] == tokens[k..];
    }
  }

  // Fewer tokens spell a shorter answer.
  lemma {:induction false} PrefixShorter(tokens: seq<Bytes>, k: nat)
    requires NonEmpty(tokens) && k < |tokens|
    ensures |Concat(tokens[..k])| < |Concat(tokens)|
  {
    ConcatSplit(tokens, k);
    assert Concat(tokens[k..]) == tokens[k] + Concat(tokens[k..][1..]);
  }

  // The terminator is written after a failed call too, so a terminated body is the whole
  // answer exactly when every token arrived.
  lemma {:induction false} WholeAnswerExactly(job: Job, run: seq<Event>, rest: Bytes)
    requires Runs(job, START, run) && After(job, START, run).client.Done?
    ensures var s := After(job, START, run);
            Decode(s.socket + rest) == Body(Utf8(Answer(job)), [0] + rest) <==> |s.got| == |Tokens(job)|
  {
    var s := After(job, START, run);
    EndToEnd(job, run, rest);
    TokensSpell(job);
    if |s.got| < |Tokens(job)| {
      PrefixShorter(Tokens(job), |s.got|);
    } else {
      assert Tokens(job)[..|s.got|] == Tokens(job);
    }
  }

  // The gRPC stream fails before the only token crosses it: the client gets a complete,
  // empty body.
  lemma TruncatedLooksComplete()
    ensures var job, run := Job(["a"], None), [Produce, Break, ReadFail, Terminate];
            && Runs(job, START, run) && After(job, START, run).client == Done(false)
            && Decode(After(job, START, run).socket) == Body([], [0]) && Utf8(Answer(job)) != []
  {
    var job := Job(["a"], None);
    var s1 := Do(job, START, Produce);
    var s2 := Do(job, s1, Break);
    var s3 := Do(job, s2, ReadFail);
    FirstEvent(job, s3, Terminate, []);
    FirstEvent(job, s2, ReadFail, [Terminate]);
    FirstEvent(job, s1, Break, [ReadFail, Terminate]);
    FirstEvent(job, START, Produce, [Break, ReadFail, Terminate]);
    assert [Produce] + [Break, ReadFail, Terminate] == [Produce, Break, ReadFail, Terminate];
    ReadsLast([]);
    assert [] + LAST == LAST && LAST + [] == LAST && [0] + [] == [0];
    TokensSpell(job);
    assert job.outs[1..] == [] && Deltas(job.outs, 0) == ["a"];
    assert |Tokens(job)| == 1;
    PrefixShorter(Tokens(job), 0);
  }

  lemma {:induction false} FirstEvent(job: Job, s: Stream, e: Event, run: seq<Event>)
    requires Can(job, s, e) && Runs(job, Do(job, s, e), run)
    ensures Runs(job, s, [e] + run) && After(job, s, [e] + run) == After(job, Do(job, s, e), run)
  {
    assert ([e] + run)[1..] == run;
  }

  // A client that has only the first `n` bytes of a socket: it takes the body for
  // complete exactly when the terminator is among them, and then has every token.
  lemma {:induction false} CutAnywhere(job: Job, run: seq<Event>, n: nat)
    requires Runs(job, START, run) && n <= |After(job, START, run).socket|
    ensures var s := After(job, START, run);
            && (n < |Wire(s.got)| + MARK ==> Decode(s.socket[..n]) == Incomplete)
            && (n >= |Wire(s.got)| + MARK ==>
                  Decode(s.socket[..n]).Body? && Decode(s.socket[..n]).body == Concat(s.got))
  {
    StartInv(job);
    RunInv(job, START, run);
    var s := After(job, START, run);
    NonEmptyPrefix(job, s);
    CutExact(s.got, n);
    assert s.socket[..n] == (Wire(s.got) + LAST)[..n];
  }

  // When every output extends the one before, what a client reads from a call that ends
  // well is exactly the model's final text, followed by the message if the engine raised.
  lemma {:induction false} FinalTextDelivered(job: Job, run: seq<Event>, rest: Bytes)
    requires Runs(job, START, run) && After(job, START, run).client == Done(true)
    requires Cumulative(job.outs)
    ensures var d := Decode(After(job, START, run).socket + rest);
            && d.Body? && d.rest == [0] + rest
            && ReadUtf8(d.body) ==
               Some(Final(job.outs) + match job.crash case None => "" case Some(message) => "[PYTHON ERROR] " + message)
  {
    EndToEnd(job, run, rest);
    SentIsFinal(job.outs);
    Utf8RoundTrip(Answer(job));
    var error := CrashText(job.crash);
    assert Join(error) == match job.crash case None => "" case Some(message) => "[PYTHON ERROR] " + message by {
      if error != [] {
        assert error[1..] == [] && Join(error) == error[0] + Join(error[1..]);
      }
    }
  }

  // ---------- a stream that fails ----------

  lemma {:induction false} NothingEnters(job: Job, s: Stream, run: seq<Event>)
    requires Runs(job, s, run) && s.broken
    ensures After(job, s, run).broken && After(job, s, run).got + After(job, s, run).wire == s.got + s.wire
    decreases |run|
  {
    if run != [] {
      var s1 := Do(job, s, run[0]);
      if run[0].Read? {
        assert s.got + [s.wire[0]] + s.wire[1..] == s.got + s.wire;
      }
      NothingEnters(job, s1, run[1..]);
    }
  }

  // The stream can fail at any time, and then at most what is on its way can still reach
  // the proxy: nothing is lost of it and nothing is added.
  lemma {:induction false} FailsAnywhere(job: Job, s: Stream, run: seq<Event>)
    requires !s.broken
    ensures Can(job, s, Break)
    ensures Runs(job, Do(job, s, Break), run) ==>
              var s' := After(job, Do(job, s, Break), run); s'.got + s'.wire == s.got + s.wire
  {
    if Runs(job, Do(job, s, Break), run) {
      NothingEnters(job, Do(job, s, Break), run);
    }
  }

  lemma {:induction false} StaysReturned(job: Job, s: Stream, run: seq<Event>)
    requires Runs(job, s, run) && s.server == Returned
    ensures After(job, s, run).server == Returned && After(job, s, run).taken == s.taken
    decreases |run|
  {
    if run != [] {
      StaysReturned(job, Do(job, s, run[0]), run[1..]);
    }
  }

  // The drain loop takes one token for a write that fails, and none after it.
  lemma {:induction false} FailedWriteStops(job: Job, s: Stream, run: seq<Event>)
    requires s.server == Draining && s.queue != [] && s.broken
    ensures Can(job, s, ServeBroken)
    ensures Runs(job, Do(job, s, ServeBroken), run) ==>
              After(job, Do(job, s, ServeBroken), run).taken == s.taken + 1
  {
    if Runs(job, Do(job, s, ServeBroken), run) {
      StaysReturned(job, Do(job, s, ServeBroken), run);
    }
  }

  // ---------- every run ends ----------

  function Work(job: Job, s: Stream): int {
    4 * (|job.outs| - s.next)
    + (match s.generator case Running => 5 case Finishing => 1 case Closed => 0)
    + 2 * |s.queue| + |s.wire|
    + (if s.server == Draining then 1 else 0) + (if s.broken then 0 else 1)
    + (match s.client case Reading => 2 case Ended(_) => 1 case Done(_) => 0)
  }

  lemma DoWork(job: Job, s: Stream, e: Event)
    requires s.next <= |job.outs| && Can(job, s, e)
    ensures 0 <= Work(job, Do(job, s, e)) < Work(job, s) && Do(job, s, e).next <= |job.outs|
  {
  }

  // No component waits forever: until the terminator is written something can move,
  // and not only by the stream failing.
  lemma NeverStuck(job: Job, s: Stream)
    requires Inv(job, s) && !s.client.Done?
    ensures exists e: Event :: !e.Break? && Can(job, s, e)
  {
    if s.client.Ended? {
      assert Can(job, s, Terminate);
    } else if s.broken {
      assert Can(job, s, ReadFail);
    } else if s.wire != [] {
      assert Can(job, s, Read);
    } else if s.server == Returned {
      assert Can(job, s, ReadEnd);
    } else if s.queue != [] {
      assert Can(job, s, Serve);
    } else {
      match s.generator
      case Running =>
        if s.next < |job.outs| {
          assert Can(job, s, Produce);
        } else {
          assert Can(job, s, Finish);
        }
      case Finishing => assert Can(job, s, Close);
      case Closed => assert Can(job, s, ServeEnd);
    }
  }

  lemma {:induction false} RunWork(job: Job, s: Stream, run: seq<Event>)
    requires s.next <= |job.outs| && Runs(job, s, run)
    ensures |run| + Work(job, After(job, s, run)) <= Work(job, s)
    ensures After(job, s, run).next <= |job.outs|
    decreases |run|
  {
    if run != [] {
      DoWork(job, s, run[0]);
      RunWork(job, Do(job, s, run[0]), run[1..]);
    }
  }

  // Every run is finite, a run that cannot go on has written the terminator, and
  // one whose gRPC stream never failed has then delivered the whole answer.
  lemma {:induction false} EveryRunEnds(job: Job, run: seq<Event>)
    requires Runs(job, START, run)
    ensures |run| <= 4 * |job.outs| + 9
    ensures var s := After(job, START, run);
            (forall e: Event :: !e.Break? ==> !Can(job, s, e)) ==>
              && s.client.Done?
              && (!s.broken ==> Decode(s.socket) == Body(Utf8(Answer(job)), [0]))
  {
    StartInv(job);
    RunInv(job, START, run);
    RunWork(job, START, run);
    var s := After(job, START, run);
    if forall e: Event :: !e.Break? ==> !Can(job, s, e) {
      if !s.client.Done? {
        NeverStuck(job, s);
      }
      EndToEnd(job, run, []);
      assert s.socket + [] == s.socket && [0] + [] == [0];
    }
  }
}
