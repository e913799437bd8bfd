/**
 One worker's scheduler: `CreateReplica` issues an id, launches a process and waits
 on a future that `RegisterReplica` completes when that process calls back. Handlers
 interleave at every await; a launch and the creation of its future are one step.
 */
module Handshake {
  import opened Keys

  datatype Reply = Reply(created: bool, worker: nat, address: string, replicaId: nat, port: string)

  datatype Registration = Registration(id: nat, port: string, dep: nat)

  // A `CreateReplica` call; an abandoned one was cancelled by its caller while it
  // waited, and its cancelled future is still filed.
  datatype Call =
    | Allocated(id: nat, dep: nat)
    | Waiting(id: nat, dep: nat)
    | Abandoned(id: nat, dep: nat)
    | Answered(id: nat, dep: nat, reply: Reply)

  datatype Scheduler = Scheduler(
    worker: nat, address: string,
    issued: nat,                        // replica_num
    calls: map<nat, Call>,
    futures: map<nat, nat>,             // replica id -> the call its future answers
    launched: map<nat, nat>,            // every id launched, with its deployment
    checked: map<nat, Registration>,    // RegisterReplica handlers past the duplicate check
    registry: map<nat, Registration>,
    registered: map<nat, set<string>>)  // id -> every port ever filed for it

  datatype Step =
    | Allocate(call: nat, dep: nat)
    | LaunchOk(call: nat)
    | LaunchFailed(call: nat)
    | RegisterCheck(handler: nat, id: nat, port: string)
    | RegisterFile(handler: nat)
    | Abandon(call: nat)
    | Cleanup(dead: set<nat>)

  function Idle(worker: nat, address: string): Scheduler {
    Scheduler(worker, address, 0, map[], map[], map[], map[], map[], map[])
  }

  // A process registers under the id it was launched with.
  ghost predicate Can(s: Scheduler, e: Step) {
    match e
    case Allocate(call, dep) => call !in s.calls
    case LaunchOk(call) => call in s.calls && s.calls[call].Allocated?
    case LaunchFailed(call) => call in s.calls && s.calls[call].Allocated?
    case RegisterCheck(h, id, port) => h !in s.checked && id in s.launched
    case RegisterFile(h) => h in s.checked
    case Abandon(call) => call in s.calls && s.calls[call].Waiting?
    case Cleanup(dead) => true
  }

  // FutureManager.create_future raises when the key is taken.
  predicate CreateRaises(s: Scheduler, id: nat) {
    id in s.futures
  }

  // FutureManager.set_result: the future goes; its call is answered if it still waits.
  function SetResult(s: Scheduler, id: nat, reply: Reply): Scheduler {
    if id !in s.futures then s
    else
      var call := s.futures[id];
      s.(futures := s.futures - {id},
         calls := if call in s.calls && s.calls[call].Waiting?
                  then s.calls[call := Answered(s.calls[call].id, s.calls[call].dep, reply)] else s.calls)
  }

  function PortsOf(s: Scheduler, id: nat): set<string> {
    if id in s.registered then s.registered[id] else {}
  }

  // The port a process is told to listen on.
  function AssignedPort(id: nat): string {
    Decimal(50100 + id)
  }

  function Positive(s: Scheduler, reg: Registration): Reply {
    Reply(true, s.worker, s.address, reg.id, reg.port)
  }

  function Negative(s: Scheduler, id: nat): Reply {
    Reply(false, s.worker, s.address, id, AssignedPort(id))
  }

  function Next(s: Scheduler, e: Step): Scheduler
    requires Can(s, e)
  {
    match e
    case Allocate(call, dep) =>
      s.(issued := s.issued + 1, calls := s.calls[call := Allocated(s.issued + 1, dep)])
    case LaunchOk(call) =>
      var c := s.calls[call];
      if CreateRaises(s, c.id) then s.(launched := s.launched[c.id := c.dep], calls := s.calls - {call})
      else s.(launched := s.launched[c.id := c.dep], futures := s.futures[c.id := call],
              calls := s.calls[call := Waiting(c.id, c.dep)])
    case LaunchFailed(call) =>
      var c := s.calls[call];
      var s' := SetResult(s, c.id, Negative(s, c.id));
      s'.(calls := s'.calls[call := Answered(c.id, c.dep, Negative(s, c.id))])
    case RegisterCheck(h, id, port) =>
      if id in s.registry then s else s.(checked := s.checked[h := Registration(id, port, s.launched[id])])
    case RegisterFile(h) =>
      var reg := s.checked[h];
      SetResult(s.(checked := s.checked - {h}, registry := s.registry[reg.id := reg],
                   registered := s.registered[reg.id := PortsOf(s, reg.id) + {reg.port}]),
                reg.id, Positive(s, reg))
    case Abandon(call) => s.(calls := s.calls[call := Abandoned(s.calls[call].id, s.calls[call].dep)])
    case Cleanup(dead) => s.(registry := s.registry - dead)
  }

  // ---------- what every step keeps ----------

  // A positive answer carries its own id and a port registered for it; a negative
  // one is for an id that was never launched.
  ghost predicate AnswerOk(s: Scheduler, c: Call)
    requires c.Answered?
  {
    if c.reply.created
    then c.id in s.registered && c.reply.port in s.registered[c.id]
         && c.reply == Reply(true, s.worker, s.address, c.id, c.reply.port)
         && c.id in s.launched && s.launched[c.id] == c.dep
    else c.reply == Reply(false, s.worker, s.address, c.id, AssignedPort(c.id)) && c.id !in s.launched
  }

  // A call that waits is the one its future answers.
  ghost predicate CallOk(s: Scheduler, call: nat)
    requires call in s.calls
  {
    var c := s.calls[call];
    && 0 < c.id <= s.issued
    && (c.Allocated? ==> c.id !in s.launched)
    && (c.Waiting? || c.Abandoned? ==> c.id in s.launched && s.launched[c.id] == c.dep)
    && (c.Waiting? ==> c.id in s.futures && s.futures[c.id] == call)
    && (c.Answered? ==> AnswerOk(s, c))
  }

  // The pending futures are those of the ids launched and not yet registered.
  ghost predicate IdOk(s: Scheduler, id: nat) {
    && (id in s.futures <==> id in s.launched && id !in s.registered)
    && (id in s.futures ==>
        var call := s.futures[id];
        call in s.calls && s.calls[call].id == id && (s.calls[call].Waiting? || s.calls[call].Abandoned?))
    && (id in s.launched ==> 0 < id <= s.issued)
    && (id in s.registered ==> id in s.launched)
    && (id in s.registry ==> FiledOk(s, s.registry[id]) && s.registry[id].id == id)
  }

  ghost predicate FiledOk(s: Scheduler, reg: Registration) {
    LaunchedAs(s, reg) && reg.id in s.registered && reg.port in s.registered[reg.id]
  }

  ghost predicate LaunchedAs(s: Scheduler, reg: Registration) {
    reg.id in s.launched && s.launched[reg.id] == reg.dep
  }

  // Every id is issued once.
  ghost predicate DifferentIds(s: Scheduler, call: nat, call': nat)
    requires call in s.calls && call' in s.calls
  {
    s.calls[call].id == s.calls[call'].id ==> call == call'
  }

  ghost predicate Inv(s: Scheduler) {
    && (forall call :: call in s.calls ==> CallOk(s, call))
    && (forall call, call' :: call in s.calls && call' in s.calls ==> DifferentIds(s, call, call'))
    && (forall id :: IdOk(s, id))
    && (forall h :: h in s.checked ==> LaunchedAs(s, s.checked[h]))
  }

  // A call keeps its id; a new one takes the next.
  lemma IdOfCall(s: Scheduler, e: Step, call: nat)
    requires Can(s, e) && call in Next(s, e).calls
    ensures Next(s, e).calls[call].id == if call in s.calls then s.calls[call].id else s.issued + 1
    ensures call !in s.calls ==> e.Allocate? && e.call == call
  {
  }

  lemma StepIds(s: Scheduler, e: Step, call: nat, call': nat)
    requires Inv(s) && Can(s, e) && call in Next(s, e).calls && call' in Next(s, e).calls
    ensures DifferentIds(Next(s, e), call, call')
  {
    IdOfCall(s, e, call);
    IdOfCall(s, e, call');
    assert call in s.calls ==> CallOk(s, call);
    assert call' in s.calls ==> CallOk(s, call');
    assert call in s.calls && call' in s.calls ==> DifferentIds(s, call, call');
  }

  lemma LaunchCall(s: Scheduler, e: Step, call: nat)
    requires Inv(s) && Can(s, e) && call in s.calls && (e.LaunchOk? || e.LaunchFailed?)
    ensures call in Next(s, e).calls && CallOk(Next(s, e), call)
  {
    assert CallOk(s, call) && IdOk(s, s.calls[call].id);
    assert CallOk(s, e.call) && IdOk(s, s.calls[e.call].id);
    assert DifferentIds(s, call, e.call);
  }

  lemma FileCall(s: Scheduler, h: nat, call: nat)
    requires Inv(s) && Can(s, RegisterFile(h)) && call in s.calls
    ensures call in Next(s, RegisterFile(h)).calls && CallOk(Next(s, RegisterFile(h)), call)
  {
    assert CallOk(s, call) && IdOk(s, s.checked[h].id) && LaunchedAs(s, s.checked[h]);
  }

  lemma StepCall(s: Scheduler, e: Step, call: nat)
    requires Inv(s) && Can(s, e) && call in Next(s, e).calls
    ensures CallOk(Next(s, e), call)
  {
    if call !in s.calls {
      assert IdOk(s, s.issued + 1);
    } else if e.LaunchOk? || e.LaunchFailed? {
      LaunchCall(s, e, call);
    } else if e.RegisterFile? {
      FileCall(s, e.handler, call);
    } else {
      assert CallOk(s, call);
    }
  }

  lemma StepId(s: Scheduler, e: Step, id: nat)
    requires Inv(s) && Can(s, e)
    ensures IdOk(Next(s, e), id)
  {
    assert IdOk(s, id);
    match e
    case LaunchOk(c) => assert CallOk(s, c) && IdOk(s, s.calls[c].id);
    case LaunchFailed(c) => assert CallOk(s, c) && IdOk(s, s.calls[c].id);
    case RegisterFile(h) => assert LaunchedAs(s, s.checked[h]) && IdOk(s, s.checked[h].id);
    case _ =>
  }

  lemma StepInv(s: Scheduler, e: Step)
    requires Inv(s) && Can(s, e)
    ensures Inv(Next(s, e))
  {
    forall call | call in Next(s, e).calls ensures CallOk(Next(s, e), call) { StepCall(s, e, call); }
    forall call, call' | call in Next(s, e).calls && call' in Next(s, e).calls
      ensures DifferentIds(Next(s, e), call, call')
    {
      StepIds(s, e, call, call');
    }
    forall id ensures IdOk(Next(s, e), id) { StepId(s, e, id); }
    forall h | h in Next(s, e).checked ensures LaunchedAs(Next(s, e), Next(s, e).checked[h]) {
      StepChecked(s, e, h);
    }
  }

  lemma StepChecked(s: Scheduler, e: Step, h: nat)
    requires Inv(s) && Can(s, e) && h in Next(s, e).checked
    ensures LaunchedAs(Next(s, e), Next(s, e).checked[h])
  {
    if e.LaunchOk? {
      assert CallOk(s, e.call);
    }
  }

  // No step changes an answer.
  lemma AnswerFinal(s: Scheduler, e: Step, call: nat)
    requires Inv(s) && Can(s, e) && call in s.calls && s.calls[call].Answered?
    ensures call in Next(s, e).calls && Next(s, e).calls[call] == s.calls[call]
  {
  }

  // Filing a registration for an id that has already registered answers nothing.
  lemma DuplicateAnswersNothing(s: Scheduler, h: nat)
    requires Inv(s) && Can(s, RegisterFile(h)) && s.checked[h].id in s.registered
    ensures Next(s, RegisterFile(h)).calls == s.calls && Next(s, RegisterFile(h)).futures == s.futures
  {
    assert IdOk(s, s.checked[h].id);
  }

  // ---------- registrations ----------

  // The check and then the filing of a registration.
  ghost function Registered(s: Scheduler, h: nat, id: nat, port: string): Scheduler
    requires Can(s, RegisterCheck(h, id, port)) && h in Next(s, RegisterCheck(h, id, port)).checked
  {
    Next(Next(s, RegisterCheck(h, id, port)), RegisterFile(h))
  }

  // The first registration filed for an id answers the call waiting on it.
  lemma RegistrationAnswers(s: Scheduler, h: nat, call: nat)
    requires Inv(s) && Can(s, RegisterFile(h))
    requires call in s.calls && s.calls[call].Waiting? && s.calls[call].id == s.checked[h].id
    ensures call in Next(s, RegisterFile(h)).calls
    ensures Next(s, RegisterFile(h)).calls[call] ==
            Answered(s.checked[h].id, s.calls[call].dep, Positive(s, s.checked[h]))
  {
    assert CallOk(s, call);
  }

  // A registration of an id that is not in the registry gets through, whoever waits: it is
  // filed, and a call waiting on the id is answered with the id and the port. One of an id
  // that is there changes nothing at all.
  lemma RegistersExactly(s: Scheduler, h: nat, id: nat, port: string)
    requires Inv(s) && Can(s, RegisterCheck(h, id, port))
    ensures id in s.registry ==> Next(s, RegisterCheck(h, id, port)) == s
    ensures id !in s.registry ==>
              && h in Next(s, RegisterCheck(h, id, port)).checked
              && var s' := Registered(s, h, id, port);
                 && s'.registry == s.registry[id := Registration(id, port, s.launched[id])]
                 && s'.checked == s.checked && s'.launched == s.launched && s'.issued == s.issued
                 && id in s'.registered && port in s'.registered[id]
  {
    if id !in s.registry {
      var s1 := Next(s, RegisterCheck(h, id, port));
      assert s1.checked - {h} == s.checked;
    }
  }

  // So the process of a waiting call can always answer it, whatever else is going on.
  lemma WaitingIsAnswered(s: Scheduler, call: nat, h: nat, port: string)
    requires Inv(s) && call in s.calls && s.calls[call].Waiting? && h !in s.checked
    ensures var id := s.calls[call].id;
            && Can(s, RegisterCheck(h, id, port)) && h in Next(s, RegisterCheck(h, id, port)).checked
            && var s' := Registered(s, h, id, port);
               && call in s'.calls
               && s'.calls[call] == Answered(id, s.calls[call].dep, Reply(true, s.worker, s.address, id, port))
               && (forall other :: other in s.calls && other != call ==>
                     other in s'.calls && s'.calls[other] == s.calls[other])
  {
    var id := s.calls[call].id;
    assert CallOk(s, call) && IdOk(s, id);
    var s1 := Next(s, RegisterCheck(h, id, port));
    StepInv(s, RegisterCheck(h, id, port));
    RegistrationAnswers(s1, h, call);
  }

  // Once the scheduler has forgotten a dead replica, its id can register again, on another
  // port too; no call and no future changes.
  lemma RegistersAgain(s: Scheduler, dead: set<nat>, h: nat, id: nat, port: string)
    requires Inv(s) && id in dead && id in s.registered && h !in s.checked
    ensures var s1 := Next(s, Cleanup(dead));
            && id !in s1.registry
            && (forall other :: other !in dead ==> (other in s1.registry <==> other in s.registry))
            && Can(s1, RegisterCheck(h, id, port)) && h in Next(s1, RegisterCheck(h, id, port)).checked
            && var s' := Registered(s1, h, id, port);
               && id in s'.registry && s'.registry[id].port == port
               && s'.calls == s.calls && s'.futures == s.futures
  {
    assert IdOk(s, id);
    StepInv(s, Cleanup(dead));
    var s1 := Next(s, Cleanup(dead));
    StepInv(s1, RegisterCheck(h, id, port));
    DuplicateAnswersNothing(Next(s1, RegisterCheck(h, id, port)), h);
  }

  // A new call, launched at once, waits for its process under the next id.
  lemma LaunchWaits(s: Scheduler, call: nat, dep: nat)
    requires Inv(s) && call !in s.calls
    ensures Can(s, Allocate(call, dep)) && Can(Next(s, Allocate(call, dep)), LaunchOk(call))
    ensures var s2 := Next(Next(s, Allocate(call, dep)), LaunchOk(call));
            && Inv(s2) && s2.checked == s.checked && s2.worker == s.worker && s2.address == s.address
            && s2.issued == s.issued + 1
            && call in s2.calls && s2.calls[call] == Waiting(s.issued + 1, dep)
  {
    var s1 := Next(s, Allocate(call, dep));
    StepInv(s, Allocate(call, dep));
    assert CallOk(s1, call) && IdOk(s1, s1.calls[call].id);
    StepInv(s1, LaunchOk(call));
  }

  // A new call, with nothing else coming in between: its process is launched under the next
  // id, registers, and the call is answered with that id and the port.
  lemma CreationCompletes(s: Scheduler, call: nat, dep: nat, h: nat, port: string)
    requires Inv(s) && call !in s.calls && h !in s.checked
    ensures Can(s, Allocate(call, dep)) && Can(Next(s, Allocate(call, dep)), LaunchOk(call))
    ensures var s2 := Next(Next(s, Allocate(call, dep)), LaunchOk(call));
            var id := s.issued + 1;
            && Inv(s2) && h !in s2.checked
            && Can(s2, RegisterCheck(h, id, port)) && h in Next(s2, RegisterCheck(h, id, port)).checked
            && var s' := Registered(s2, h, id, port);
               && s'.worker == s.worker && s'.address == s.address && s'.issued == id
               && call in s'.calls
               && s'.calls[call] == Answered(id, dep, Reply(true, s.worker, s.address, id, port))
  {
    LaunchWaits(s, call, dep);
    WaitingIsAnswered(Next(Next(s, Allocate(call, dep)), LaunchOk(call)), call, h, port);
  }

  // Every id gets its own port: 50100 and the id, in decimal.
  lemma PortsDiffer(id: nat, id': nat)
    ensures IsNumeral(AssignedPort(id)) && Value(AssignedPort(id)) == 50100 + id
    ensures AssignedPort(id) == AssignedPort(id') <==> id == id'
  {
    DecimalRoundTrip(50100 + id);
    DecimalRoundTrip(50100 + id');
  }

  // ---------- runs ----------

  ghost predicate Runs(s: Scheduler, run: seq<Step>)
    decreases |run|
  {
    run == [] || (Can(s, run[0]) && Runs(Next(s, run[0]), run[1..]))
  }

  ghost function After(s: Scheduler, run: seq<Step>): Scheduler
    requires Runs(s, run)
    decreases |run|
  {
    if run == [] then s else After(Next(s, run[0]), run[1..])
  }

  lemma {:induction false} RunInv(s: Scheduler, run: seq<Step>)
    requires Inv(s) && Runs(s, run)
    ensures Inv(After(s, run))
    decreases |run|
  {
    if run != [] {
      StepInv(s, run[0]);
      RunInv(Next(s, run[0]), run[1..]);
    }
  }

  // Whatever happens after it, a call keeps the one answer it got.
  lemma {:induction false} AnsweredOnce(s: Scheduler, run: seq<Step>, call: nat)
    requires Inv(s) && Runs(s, run) && call in s.calls && s.calls[call].Answered?
    ensures call in After(s, run).calls && After(s, run).calls[call] == s.calls[call]
    decreases |run|
  {
    if run != [] {
      StepInv(s, run[0]);
      AnswerFinal(s, run[0], call);
      AnsweredOnce(Next(s, run[0]), run[1..], call);
    }
  }

  // A call whose launch fails is answered at once, negatively, with its id and port, and
  // keeps that answer; no other call and no future notices.
  lemma {:induction false} FailedLaunchAnswers(s: Scheduler, call: nat, run: seq<Step>)
    requires Inv(s) && call in s.calls && s.calls[call].Allocated?
    ensures Can(s, LaunchFailed(call))
    ensures var s1 := Next(s, LaunchFailed(call));
            && s1.futures == s.futures && s1.launched == s.launched
            && (forall other :: other in s.calls && other != call ==>
                  other in s1.calls && s1.calls[other] == s.calls[other])
            && (Runs(s1, run) ==>
                  && call in After(s1, run).calls
                  && var id := s.calls[call].id;
                     After(s1, run).calls[call] ==
                     Answered(id, s.calls[call].dep, Reply(false, s.worker, s.address, id, AssignedPort(id))))
  {
    assert CallOk(s, call) && IdOk(s, s.calls[call].id);
    StepInv(s, LaunchFailed(call));
    if Runs(Next(s, LaunchFailed(call)), run) {
      AnsweredOnce(Next(s, LaunchFailed(call)), run, call);
    }
  }

  // A call that its caller has given up stays so, whatever registers afterwards.
  lemma {:induction false} AbandonedStays(s: Scheduler, call: nat, run: seq<Step>)
    requires call in s.calls && s.calls[call].Waiting?
    ensures Can(s, Abandon(call))
    ensures Runs(Next(s, Abandon(call)), run) ==>
              var s' := After(Next(s, Abandon(call)), run);
              call in s'.calls && s'.calls[call] == Abandoned(s.calls[call].id, s.calls[call].dep)
  {
    if Runs(Next(s, Abandon(call)), run) {
      StaysAbandoned(Next(s, Abandon(call)), call, run);
    }
  }

  lemma {:induction false} StaysAbandoned(s: Scheduler, call: nat, run: seq<Step>)
    requires call in s.calls && s.calls[call].Abandoned? && Runs(s, run)
    ensures call in After(s, run).calls && After(s, run).calls[call] == s.calls[call]
    decreases |run|
  {
    if run != [] {
      StaysAbandoned(Next(s, run[0]), call, run[1..]);
    }
  }

  // Over all interleavings of calls, launches, registrations, cancellations and
  // cleanups: ids are issued once, pending futures are exactly the launched ids not
  // yet registered, a future is never created twice, and every answer is truthful.
  lemma {:induction false} HandshakeSafe(worker: nat, address: string, run: seq<Step>)
    requires Runs(Idle(worker, address), run)
    ensures var s := After(Idle(worker, address), run);
            && (forall call, call' :: call in s.calls && call' in s.calls ==> DifferentIds(s, call, call'))
            && (forall id :: id in s.futures <==> id in s.launched && id !in s.registered)
            && (forall call :: Can(s, LaunchOk(call)) ==> !CreateRaises(s, s.calls[call].id))
            && (forall call :: call in s.calls && s.calls[call].Answered? ==> AnswerOk(s, s.calls[call]))
  {
    RunInv(Idle(worker, address), run);
    var s := After(Idle(worker, address), run);
    forall id ensures id in s.futures <==> id in s.launched && id !in s.registered {
      assert IdOk(s, id);
    }
    forall call | Can(s, LaunchOk(call)) ensures !CreateRaises(s, s.calls[call].id) {
      assert CallOk(s, call) && IdOk(s, s.calls[call].id);
    }
  }
}
