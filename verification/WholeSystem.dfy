/**
 Everything together: the schedulers, the head, the routing feed and the proxies,
 each as modelled on its own, joined by the messages they exchange.

 The head asks a registered worker for a replica, files a positive answer once, and
 publishes; workers report replicas they launched as dead; proxies apply what
 their streams deliver, in whatever order they walk the table. `create_replica` asks
 for no CPUs and no GPUs, so those are the amounts filed here.
 */
module WholeSystem {
  import opened Keys
  import opened Balancer
  import opened Sums
  import opened Cluster
  import opened Removal
  import opened ClusterRuns
  import opened PythonBalancer
  import H = Handshake
  import F = RoutingFeed
  import opened P = ProxySessions

  datatype System = System(
    scheds: map<nat, H.Scheduler>,
    received: set<(nat, nat)>,       // the answers (worker, call) the head has dealt with
    cluster: Cluster,
    feed: F.Feed<Table>,
    proxies: map<nat, Proxy>)

  datatype Move =
    | Ask(w: nat, call: nat, d: nat)
    | WorkerStep(w: nat, step: H.Step)
    | Receive(w: nat, call: nat, ts: int)
    | HealthReport(w: nat, states: seq<ReplicaState>, ts: int)
    | RegisterNode(w: nat)
    | Deploy(d: nat, name: string, version: string, cpus: int, gpus: int)
    | Metrics(r: nat, w: nat, avg: real, stamp: nat)
    | FeedStep(event: F.Event<Table>)
    | Apply(p: nat, deps: seq<DeploymentMsg>)
    | Serve(p: nat, action: Action)

  // A walk over the table in some order.
  ghost predicate Walks(deps: seq<DeploymentMsg>, table: Table) {
    && (forall i :: 0 <= i < |deps| ==> deps[i].id in table && table[deps[i].id] == deps[i])
    && (forall d :: d in table ==> table[d] in deps)
  }

  // The snapshot the proxy's stream delivers next.
  function NextUp(f: F.Feed<Table>, p: nat): F.Snap<Table>
    requires F.Can(f, F.Deliver(p))
  {
    var s := f.subs[f.views[p].conn.value];
    s.sent[s.delivered]
  }

  // A worker reports as dead only what it launched, with the deployment it was for.
  ghost predicate LaunchedFor(sched: H.Scheduler, entry: ReplicaState) {
    entry.replicaId in sched.launched && sched.launched[entry.replicaId] == entry.deploymentId
  }

  ghost predicate Can(s: System, m: Move) {
    match m
    case Ask(w, call, d) =>
      w in s.scheds && w in s.cluster.nodes && d in s.cluster.deployments && H.Can(s.scheds[w], H.Allocate(call, d))
    case WorkerStep(w, e) => w in s.scheds && !e.Allocate? && H.Can(s.scheds[w], e)
    case Receive(w, call, _) =>
      w in s.scheds && (w, call) !in s.received && call in s.scheds[w].calls && s.scheds[w].calls[call].Answered?
    case HealthReport(w, states, _) =>
      w in s.scheds && forall e :: e in states && IsDead(e) ==> LaunchedFor(s.scheds[w], e)
    case RegisterNode(w) => w in s.scheds
    case Deploy(_, _, _, _, _) => true
    case Metrics(_, _, _, _) => true
    case FeedStep(e) => !e.Change? && !e.Publish? && !e.Deliver? && F.Can(s.feed, e)
    case Apply(p, deps) => p in s.proxies && F.Can(s.feed, F.Deliver(p)) && Walks(deps, NextUp(s.feed, p).table)
    case Serve(p, a) => p in s.proxies && !a.ApplyUpdate? && CanDo(s.proxies[p], a)
  }

  // ---------- addresses ----------

  // The scheduler answered this call with a replica of this key and address, whose
  // port that replica had registered.
  ghost predicate AnsweredWith(sched: H.Scheduler, call: nat, key: string, address: string) {
    && call in sched.calls && sched.calls[call].Answered? && sched.calls[call].reply.created
    && H.AnswerOk(sched, sched.calls[call])
    && key == Key(sched.worker, sched.calls[call].id)
    && address == sched.address + ":" + sched.calls[call].reply.port
  }

  ghost predicate Backed(scheds: map<nat, H.Scheduler>, key: string, address: string) {
    exists w, call :: w in scheds && AnsweredWith(scheds[w], call, key, address)
  }

  // Answers are never taken back.
  ghost predicate Keeps(scheds: map<nat, H.Scheduler>, scheds': map<nat, H.Scheduler>) {
    forall w :: w in scheds ==> w in scheds' && StillAnswers(scheds[w], scheds'[w])
  }

  ghost predicate StillAnswers(a: H.Scheduler, b: H.Scheduler) {
    && a.worker == b.worker && a.address == b.address
    && (forall call :: call in a.calls && a.calls[call].Answered? ==> call in b.calls && b.calls[call] == a.calls[call])
    && (forall call, key, address :: AnsweredWith(a, call, key, address) ==> AnsweredWith(b, call, key, address))
  }

  ghost predicate ListGood(scheds: map<nat, H.Scheduler>, ms: seq<ReplicaMsg>) {
    && UniqueMsgs(ms)
    && (forall i :: 0 <= i < |ms| ==> ms[i].state == "RUNNING" && Backed(scheds, ms[i].id, ms[i].address))
  }

  ghost predicate TableGood(scheds: map<nat, H.Scheduler>, table: Table) {
    forall d :: d in table ==> ListGood(scheds, table[d].replicas)
  }

  ghost predicate HandleGood(scheds: map<nat, H.Scheduler>, rs: seq<Replica>) {
    forall i :: 0 <= i < |rs| ==> Backed(scheds, rs[i].id, rs[i].address)
  }

  ghost predicate ProxyGood(scheds: map<nat, H.Scheduler>, x: Proxy) {
    forall g :: 0 <= g < |x.handles| ==> HandleGood(scheds, x.handles[g].rs)
  }

  // ---------- the head's side ----------

  // The replica under `key` is the answer to this call, filed where it was asked for.
  ghost predicate CameFrom(scheds: map<nat, H.Scheduler>, received: set<(nat, nat)>, c: Cluster, key: string, w: nat,
                           call: nat)
  {
    && key in c.replicaMap && (w, call) in received && w in scheds
    && AnsweredWith(scheds[w], call, key, c.replicaMap[key].address) && c.replicaMap[key].state == "RUNNING"
    && Lists(c, scheds[w].calls[call].dep, c.replicaMap[key])
  }

  ghost predicate Accounted(scheds: map<nat, H.Scheduler>, received: set<(nat, nat)>, c: Cluster) {
    forall key :: key in c.replicaMap ==> exists w, call :: CameFrom(scheds, received, c, key, w, call)
  }

  ghost predicate Costless(rs: map<string, Record>) {
    forall key :: key in rs ==> rs[key].cpus == 0 && rs[key].gpus == 0
  }

  ghost predicate WorkerOk(sched: H.Scheduler, w: nat, c: Cluster) {
    && H.Inv(sched) && sched.worker == w
    && (forall call :: call in sched.calls ==> w in c.nodes && sched.calls[call].dep in c.deployments)
  }

  ghost predicate WorkersOk(scheds: map<nat, H.Scheduler>, c: Cluster) {
    forall w :: w in scheds ==> WorkerOk(scheds[w], w, c)
  }

  ghost predicate HeadOk(scheds: map<nat, H.Scheduler>, received: set<(nat, nat)>, c: Cluster) {
    WorkersOk(scheds, c) && Agree(c) && Costless(c.records) && Accounted(scheds, received, c)
  }

  ghost predicate TablesOk(scheds: map<nat, H.Scheduler>, history: seq<Table>) {
    forall i :: 0 <= i < |history| ==> TableGood(scheds, history[i])
  }

  // ---------- the proxies' side ----------

  ghost predicate Shows(x: Proxy, name: string, m: DeploymentMsg) {
    && m.name == name && name in x.table && x.table[name] < |x.handles|
    && SameList(x.handles[x.table[name]].rs, m.replicas)
  }

  // The proxy's table is the by-name view of `table`.
  ghost predicate Reflects(x: Proxy, table: Table) {
    && (forall name :: name in x.table ==> exists d :: d in table && Shows(x, name, table[d]))
    && (forall d :: d in table ==> table[d].name in x.table)
  }

  ghost function Applied(f: F.Feed<Table>, p: nat): seq<F.Snap<Table>> {
    if p in f.views then f.views[p].applied else []
  }

  ghost predicate InStep(x: Proxy, applied: seq<F.Snap<Table>>) {
    if applied == [] then x.table == map[] else Reflects(x, applied[|applied| - 1].table)
  }

  ghost predicate ProxyOk(scheds: map<nat, H.Scheduler>, x: Proxy, applied: seq<F.Snap<Table>>) {
    Valid(x) && ProxyGood(scheds, x) && InStep(x, applied)
  }

  ghost predicate Inv(s: System) {
    && HeadOk(s.scheds, s.received, s.cluster)
    && F.Inv(s.feed) && TablesOk(s.scheds, s.feed.history)
    && (forall p :: p in s.proxies ==> ProxyOk(s.scheds, s.proxies[p], Applied(s.feed, p)))
  }

  // ---------- moves ----------

  // A delivered snapshot is one of the head's tables, so its lists have no duplicates.
  lemma DeliveredGood(s: System, p: nat)
    requires Inv(s) && F.Can(s.feed, F.Deliver(p))
    ensures TableGood(s.scheds, NextUp(s.feed, p).table)
  {
    assert F.SubOk(s.feed, s.feed.subs[s.feed.views[p].conn.value]);
    assert F.Genuine(s.feed, NextUp(s.feed, p));
  }

  lemma ApplyPossible(s: System, p: nat, deps: seq<DeploymentMsg>)
    requires Inv(s) && Can(s, Apply(p, deps))
    ensures Valid(s.proxies[p]) && CanDo(s.proxies[p], ApplyUpdate(deps))
  {
    DeliveredGood(s, p);
    forall d | d in deps ensures UniqueMsgs(d.replicas) {
      var i :| 0 <= i < |deps| && deps[i] == d;
      assert ListGood(s.scheds, NextUp(s.feed, p).table[d.id].replicas);
    }
    assert ProxyOk(s.scheds, s.proxies[p], Applied(s.feed, p));
  }

  // The add that a positive answer to `call` leads to.
  function AddOf(sched: H.Scheduler, call: nat): Op
    requires call in sched.calls && sched.calls[call].Answered?
  {
    var c := sched.calls[call];
    AddOp(c.dep, c.reply.worker, Content(c.reply.replicaId, c.reply.port), 0, 0, c.reply.address)
  }

  predicate CallsHead(m: Move) {
    m.RegisterNode? || m.Deploy? || m.Metrics?
  }

  // The operation on the head's state that such a call leads to.
  ghost function OpOf(s: System, m: Move): Op
    requires Can(s, m) && CallsHead(m)
  {
    match m
    case RegisterNode(w) => NodeOp(w)
    case Deploy(d, name, version, cpus, gpus) => UpsertOp(d, name, version, cpus, gpus)
    case Metrics(r, w, avg, stamp) => LoadOp(r, w, avg, stamp)
  }

  ghost predicate PositiveReceipt(s: System, m: Move) {
    Can(s, m) && m.Receive? && s.scheds[m.w].calls[m.call].reply.created
  }

  ghost function SchedsAfter(s: System, m: Move): map<nat, H.Scheduler>
    requires Can(s, m)
  {
    match m
    case Ask(w, call, d) => s.scheds[w := H.Next(s.scheds[w], H.Allocate(call, d))]
    case WorkerStep(w, e) => s.scheds[w := H.Next(s.scheds[w], e)]
    case _ => s.scheds
  }

  ghost function ReceivedAfter(s: System, m: Move): set<(nat, nat)>
    requires Can(s, m)
  {
    if m.Receive? then s.received + {(m.w, m.call)} else s.received
  }

  ghost function ClusterAfter(s: System, m: Move): Cluster
    requires Can(s, m)
  {
    if PositiveReceipt(s, m) then Perform(s.cluster, AddOf(s.scheds[m.w], m.call))
    else if m.HealthReport? then Report(s.cluster, m.w, m.states).0
    else if CallsHead(m) then Perform(s.cluster, OpOf(s, m))
    else s.cluster
  }

  // The moves after which the head publishes, in the same stretch: a positive answer
  // and a report of something dead.
  ghost predicate Publishes(s: System, m: Move) {
    PositiveReceipt(s, m) || (m.HealthReport? && AnyDead(m.states))
  }

  function Republished(f: F.Feed<Table>, table: Table, ts: int): F.Feed<Table> {
    F.Next(F.Next(f, F.Change(table)), F.Publish(ts))
  }

  // The head's tables are those its cluster state has had.
  ghost function FeedAfter(s: System, m: Move): F.Feed<Table>
    requires Can(s, m)
  {
    if Publishes(s, m) then Republished(s.feed, RoutingTable(ClusterAfter(s, m)), m.ts)
    else if m.Deploy? then F.Next(s.feed, F.Change(RoutingTable(ClusterAfter(s, m))))
    else if m.FeedStep? then F.Next(s.feed, m.event)
    else if m.Apply? then F.Next(s.feed, F.Deliver(m.p))
    else s.feed
  }

  // The proxy that moves, if one does, is in a state its own actions are defined for,
  // and a table to be installed has no replica twice. Every reachable state is ready.
  ghost predicate Ready(s: System, m: Move)
    requires Can(s, m)
  {
    match m
    case Apply(p, deps) => Valid(s.proxies[p]) && CanDo(s.proxies[p], ApplyUpdate(deps))
    case Serve(p, a) => Valid(s.proxies[p])
    case _ => true
  }

  lemma AlwaysReady(s: System, m: Move)
    requires Inv(s) && Can(s, m)
    ensures Ready(s, m)
  {
    if m.Apply? {
      ApplyPossible(s, m.p, m.deps);
    } else if m.Serve? {
      assert ProxyOk(s.scheds, s.proxies[m.p], Applied(s.feed, m.p));
    }
  }

  ghost function ProxiesAfter(s: System, m: Move): map<nat, Proxy>
    requires Can(s, m) && Ready(s, m)
  {
    match m
    case Apply(p, deps) => s.proxies[p := Act(s.proxies[p], ApplyUpdate(deps))]
    case Serve(p, a) => s.proxies[p := Act(s.proxies[p], a)]
    case _ => s.proxies
  }

  ghost function Next(s: System, m: Move): System
    requires Can(s, m) && Ready(s, m)
  {
    System(SchedsAfter(s, m), ReceivedAfter(s, m), ClusterAfter(s, m), FeedAfter(s, m), ProxiesAfter(s, m))
  }

  // ---------- scheduler steps ----------

  lemma AnswersKept(sched: H.Scheduler, e: H.Step)
    requires H.Inv(sched) && H.Can(sched, e)
    ensures StillAnswers(sched, H.Next(sched, e))
  {
    var sched' := H.Next(sched, e);
    H.StepInv(sched, e);
    forall call | call in sched.calls && sched.calls[call].Answered?
      ensures call in sched'.calls && sched'.calls[call] == sched.calls[call]
    {
      H.AnswerFinal(sched, e, call);
    }
    forall call, key, address | AnsweredWith(sched, call, key, address)
      ensures AnsweredWith(sched', call, key, address)
    {
      assert H.CallOk(sched', call);
    }
  }

  lemma BackedStays(scheds: map<nat, H.Scheduler>, scheds': map<nat, H.Scheduler>, key: string, address: string)
    requires Keeps(scheds, scheds') && Backed(scheds, key, address)
    ensures Backed(scheds', key, address)
  {
    var w, call :| w in scheds && AnsweredWith(scheds[w], call, key, address);
    assert StillAnswers(scheds[w], scheds'[w]);
    assert AnsweredWith(scheds'[w], call, key, address);
  }

  lemma TableStays(scheds: map<nat, H.Scheduler>, scheds': map<nat, H.Scheduler>, table: Table)
    requires Keeps(scheds, scheds') && TableGood(scheds, table)
    ensures TableGood(scheds', table)
  {
    forall d | d in table ensures ListGood(scheds', table[d].replicas) {
      var ms := table[d].replicas;
      assert ListGood(scheds, ms);
      forall i | 0 <= i < |ms| ensures Backed(scheds', ms[i].id, ms[i].address) {
        BackedStays(scheds, scheds', ms[i].id, ms[i].address);
      }
    }
  }

  lemma ProxyStays(scheds: map<nat, H.Scheduler>, scheds': map<nat, H.Scheduler>, x: Proxy)
    requires Keeps(scheds, scheds') && ProxyGood(scheds, x)
    ensures ProxyGood(scheds', x)
  {
    forall g | 0 <= g < |x.handles| ensures HandleGood(scheds', x.handles[g].rs) {
      var rs := x.handles[g].rs;
      assert HandleGood(scheds, rs);
      forall i | 0 <= i < |rs| ensures Backed(scheds', rs[i].id, rs[i].address) {
        BackedStays(scheds, scheds', rs[i].id, rs[i].address);
      }
    }
  }

  lemma AccountedStays(scheds: map<nat, H.Scheduler>, scheds': map<nat, H.Scheduler>, received: set<(nat, nat)>,
                       c: Cluster)
    requires Keeps(scheds, scheds') && Accounted(scheds, received, c)
    ensures Accounted(scheds', received, c)
  {
    forall key | key in c.replicaMap ensures exists w, call :: CameFrom(scheds', received, c, key, w, call) {
      var w, call :| CameFrom(scheds, received, c, key, w, call);
      assert StillAnswers(scheds[w], scheds'[w]);
      assert CameFrom(scheds', received, c, key, w, call);
    }
  }

  // The deployment of a call never changes.
  lemma CallsKept(sched: H.Scheduler, e: H.Step, w: nat, c: Cluster)
    requires WorkerOk(sched, w, c) && H.Can(sched, e)
    requires e.Allocate? ==> w in c.nodes && e.dep in c.deployments
    ensures WorkerOk(H.Next(sched, e), w, c)
  {
    H.StepInv(sched, e);
  }

  lemma AllStay(scheds: map<nat, H.Scheduler>, scheds': map<nat, H.Scheduler>, history: seq<Table>)
    requires Keeps(scheds, scheds') && TablesOk(scheds, history)
    ensures TablesOk(scheds', history)
  {
    forall i | 0 <= i < |history| ensures TableGood(scheds', history[i]) {
      TableStays(scheds, scheds', history[i]);
    }
  }

  lemma WorkerHead(scheds: map<nat, H.Scheduler>, received: set<(nat, nat)>, c: Cluster, w: nat, e: H.Step)
    requires HeadOk(scheds, received, c) && w in scheds && H.Can(scheds[w], e)
    requires e.Allocate? ==> w in c.nodes && e.dep in c.deployments
    ensures HeadOk(scheds[w := H.Next(scheds[w], e)], received, c)
  {
    assert WorkerOk(scheds[w], w, c);
    AnswersKept(scheds[w], e);
    CallsKept(scheds[w], e, w, c);
    assert Keeps(scheds, scheds[w := H.Next(scheds[w], e)]);
    AccountedStays(scheds, scheds[w := H.Next(scheds[w], e)], received, c);
  }

  // ---------- cluster moves ----------

  // Every table built from the head's state lists only replicas that answered.
  lemma BuiltGood(scheds: map<nat, H.Scheduler>, received: set<(nat, nat)>, c: Cluster)
    requires Agree(c) && Accounted(scheds, received, c)
    ensures TableGood(scheds, RoutingTable(c))
  {
    forall d | d in c.deployments ensures ListGood(scheds, c.deployments[d].replicas) {
      var ms := c.deployments[d].replicas;
      forall i | 0 <= i < |ms| ensures ms[i].state == "RUNNING" && Backed(scheds, ms[i].id, ms[i].address) {
        assert Lists(c, d, ms[i]);
        var w, call :| CameFrom(scheds, received, c, ms[i].id, w, call);
        assert AnsweredWith(scheds[w], call, ms[i].id, ms[i].address);
      }
    }
  }

  // Two answers that name the same key are the answer to the same call.
  lemma SameCall(scheds: map<nat, H.Scheduler>, c: Cluster, w: nat, call: nat, w': nat, call': nat, key: string,
                 a: string, a': string)
    requires WorkersOk(scheds, c) && w in scheds && w' in scheds
    requires AnsweredWith(scheds[w], call, key, a) && AnsweredWith(scheds[w'], call', key, a')
    ensures w == w' && call == call'
  {
    assert WorkerOk(scheds[w], w, c) && WorkerOk(scheds[w'], w', c);
    KeyInjective(w, scheds[w].calls[call].id, w', scheds[w'].calls[call'].id);
    assert H.DifferentIds(scheds[w], call, call');
  }

  lemma PositiveAnswer(sched: H.Scheduler, w: nat, c: Cluster, call: nat)
    requires WorkerOk(sched, w, c)
    requires call in sched.calls && sched.calls[call].Answered? && sched.calls[call].reply.created
    ensures AddOf(sched, call) ==
            AddOp(sched.calls[call].dep, w, Content(sched.calls[call].id, sched.calls[call].reply.port), 0, 0,
                  sched.address)
    ensures AnsweredWith(sched, call, Key(w, sched.calls[call].id), sched.address + ":" + sched.calls[call].reply.port)
    ensures sched.calls[call].dep in c.deployments && w in c.nodes
  {
    assert H.CallOk(sched, call);
  }

  // A first answer names a replica the head does not have yet.
  lemma AnswerFresh(s: System, w: nat, call: nat, ts: int, key: string)
    requires HeadOk(s.scheds, s.received, s.cluster) && PositiveReceipt(s, Receive(w, call, ts))
    requires key == Key(w, s.scheds[w].calls[call].id)
    ensures key !in s.cluster.replicaMap
  {
    PositiveAnswer(s.scheds[w], w, s.cluster, call);
    if key in s.cluster.replicaMap {
      var w', call' :| CameFrom(s.scheds, s.received, s.cluster, key, w', call');
      SameCall(s.scheds, s.cluster, w, call, w', call', key,
               s.scheds[w].address + ":" + s.scheds[w].calls[call].reply.port, s.cluster.replicaMap[key].address);
      assert false;
    }
  }

  // A replica that is still filed where it was keeps its account.
  lemma KeepsAccount(scheds: map<nat, H.Scheduler>, received: set<(nat, nat)>, c: Cluster,
                     received': set<(nat, nat)>, c': Cluster, key: string)
    requires key in c.replicaMap && exists w, call :: CameFrom(scheds, received, c, key, w, call)
    requires received <= received' && key in c'.replicaMap && c'.replicaMap[key] == c.replicaMap[key]
    requires forall d :: Lists(c, d, c.replicaMap[key]) ==> Lists(c', d, c.replicaMap[key])
    ensures exists w, call :: CameFrom(scheds, received', c', key, w, call)
  {
    var w, call :| CameFrom(scheds, received, c, key, w, call);
    assert Lists(c', scheds[w].calls[call].dep, c.replicaMap[key]);
    assert CameFrom(scheds, received', c', key, w, call);
  }

  // What adding one fresh replica of no cost does to the head's state.
  lemma AddAccounted(scheds: map<nat, H.Scheduler>, received: set<(nat, nat)>, c: Cluster, d: nat, e: ReplicaMsg,
                     w: nat, call: nat)
    requires Accounted(scheds, received, c) && d in c.deployments && w in c.nodes && w in scheds
    requires AnsweredWith(scheds[w], call, e.id, e.address) && scheds[w].calls[call].dep == d
    requires e.id !in c.replicaMap && e.state == "RUNNING"
    ensures Accounted(scheds, received + {(w, call)}, Use(AddOne(c, d, e, 0, 0), w, 0, 0))
  {
    var c' := Use(AddOne(c, d, e, 0, 0), w, 0, 0);
    var received' := received + {(w, call)};
    AddedLists(c, d, e, w);
    forall key | key in c'.replicaMap ensures exists w', call' :: CameFrom(scheds, received', c', key, w', call') {
      if key == e.id {
        assert CameFrom(scheds, received', c', key, w, call);
      } else {
        KeepsAccount(scheds, received, c, received', c', key);
      }
    }
  }

  lemma AddedLists(c: Cluster, d: nat, e: ReplicaMsg, w: nat)
    requires d in c.deployments && w in c.nodes
    ensures var c' := Use(AddOne(c, d, e, 0, 0), w, 0, 0);
            && c'.replicaMap == c.replicaMap[e.id := e]
            && (forall d', e' :: Lists(c, d', e') ==> Lists(c', d', e'))
            && Lists(c', d, e)
  {
  }

  lemma MoreNodes(scheds: map<nat, H.Scheduler>, c: Cluster, c': Cluster)
    requires WorkersOk(scheds, c) && c.nodes.Keys <= c'.nodes.Keys && c.deployments.Keys <= c'.deployments.Keys
    ensures WorkersOk(scheds, c')
  {
    forall w | w in scheds ensures WorkerOk(scheds[w], w, c') {
      assert WorkerOk(scheds[w], w, c);
      assert forall d :: d in c.deployments.Keys ==> d in c'.deployments.Keys;
      assert w in c.nodes.Keys ==> w in c'.nodes.Keys;
    }
  }

  // Filing a fresh replica of no cost on a registered node.
  lemma FreshHead(scheds: map<nat, H.Scheduler>, received: set<(nat, nat)>, c: Cluster, w: nat, call: nat, d: nat,
                  content: Content, address: string)
    requires HeadOk(scheds, received, c) && d in c.deployments && w in c.nodes && w in scheds
    requires Key(w, content.replicaId) !in c.replicaMap
    requires AnsweredWith(scheds[w], call, Key(w, content.replicaId), address + ":" + content.port)
    requires scheds[w].calls[call].dep == d
    ensures HeadOk(scheds, received + {(w, call)}, Perform(c, AddOp(d, w, content, 0, 0, address)))
  {
    PerformAgrees(c, AddOp(d, w, content, 0, 0, address));
    SingleAdd(c, d, w, content, 0, 0, address);
    FiledHead(scheds, received, c, w, call, d, Entry(w, content, address));
  }

  lemma FiledHead(scheds: map<nat, H.Scheduler>, received: set<(nat, nat)>, c: Cluster, w: nat, call: nat, d: nat,
                  e: ReplicaMsg)
    requires HeadOk(scheds, received, c) && d in c.deployments && w in c.nodes && w in scheds
    requires AnsweredWith(scheds[w], call, e.id, e.address) && scheds[w].calls[call].dep == d
    requires e.id !in c.replicaMap && e.state == "RUNNING"
    requires Agree(Use(AddOne(c, d, e, 0, 0), w, 0, 0))
    ensures HeadOk(scheds, received + {(w, call)}, Use(AddOne(c, d, e, 0, 0), w, 0, 0))
  {
    AddAccounted(scheds, received, c, d, e, w, call);
    AddedParts(c, d, e, w);
    MoreNodes(scheds, c, Use(AddOne(c, d, e, 0, 0), w, 0, 0));
  }

  lemma AddedParts(c: Cluster, d: nat, e: ReplicaMsg, w: nat)
    requires d in c.deployments && w in c.nodes && Costless(c.records)
    ensures var c' := Use(AddOne(c, d, e, 0, 0), w, 0, 0);
            Costless(c'.records) && c.nodes.Keys <= c'.nodes.Keys && c.deployments.Keys <= c'.deployments.Keys
  {
  }

  lemma ReceiveHead(s: System, w: nat, call: nat, ts: int)
    requires HeadOk(s.scheds, s.received, s.cluster) && PositiveReceipt(s, Receive(w, call, ts))
    ensures HeadOk(s.scheds, s.received + {(w, call)}, Perform(s.cluster, AddOf(s.scheds[w], call)))
  {
    var sched, c := s.scheds[w], s.cluster;
    var id, port, dep := sched.calls[call].id, sched.calls[call].reply.port, sched.calls[call].dep;
    assert WorkerOk(sched, w, c);
    PositiveAnswer(sched, w, c, call);
    AnswerFresh(s, w, call, ts, Key(w, id));
    FreshHead(s.scheds, s.received, c, w, call, dep, Content(id, port), sched.address);
  }

  // A worker's launches and its answers agree on the deployment of a replica.
  lemma SameDeployment(scheds: map<nat, H.Scheduler>, c: Cluster, w: nat, id: nat, w': nat, call: nat, key: string,
                       address: string)
    requires WorkersOk(scheds, c) && w in scheds && w' in scheds && id in scheds[w].launched && key == Key(w, id)
    requires AnsweredWith(scheds[w'], call, key, address)
    ensures w == w' && scheds[w].calls[call].dep == scheds[w].launched[id]
  {
    assert WorkerOk(scheds[w'], w', c) && WorkerOk(scheds[w], w, c);
    KeyInjective(w, id, w', scheds[w'].calls[call].id);
  }

  // A replica a worker reports is listed in the deployment it was launched for.
  lemma ReportNames(scheds: map<nat, H.Scheduler>, received: set<(nat, nat)>, c: Cluster, w: nat, id: nat, key: string)
    requires WorkersOk(scheds, c) && Accounted(scheds, received, c)
    requires w in scheds && id in scheds[w].launched && key == Key(w, id)
    ensures NamesIt(c, scheds[w].launched[id], key)
  {
    if key in c.replicaMap {
      var w', call :| CameFrom(scheds, received, c, key, w', call);
      SameDeployment(scheds, c, w, id, w', call, key, c.replicaMap[key].address);
    }
  }

  lemma RemoveAccounted(scheds: map<nat, H.Scheduler>, received: set<(nat, nat)>, c: Cluster, dead: set<string>)
    requires Accounted(scheds, received, c) && Mapped(c)
    ensures Accounted(scheds, received, Without(c, dead))
  {
    var c' := Without(c, dead);
    WithoutLists(c, dead);
    forall key | key in c'.replicaMap ensures exists w, call :: CameFrom(scheds, received, c', key, w, call) {
      KeepsAccount(scheds, received, c, received, c', key);
    }
  }

  lemma ReportWellNamed(scheds: map<nat, H.Scheduler>, received: set<(nat, nat)>, c: Cluster, w: nat,
                        states: seq<ReplicaState>)
    requires WorkersOk(scheds, c) && Accounted(scheds, received, c) && w in scheds
    requires forall e :: e in states && IsDead(e) ==> LaunchedFor(scheds[w], e)
    ensures WellNamed(c, w, states)
  {
    forall i | 0 <= i < |states| && FirstDead(states, i)
      ensures NamesIt(c, states[i].deploymentId, Key(w, states[i].replicaId))
    {
      assert states[i] in states;
      ReportNames(scheds, received, c, w, states[i].replicaId, Key(w, states[i].replicaId));
    }
  }

  lemma WithoutHead(scheds: map<nat, H.Scheduler>, received: set<(nat, nat)>, c: Cluster, dead: set<string>)
    requires HeadOk(scheds, received, c)
    ensures HeadOk(scheds, received, Without(c, dead))
  {
    WithoutAgree(c, dead);
    RemoveAccounted(scheds, received, c, dead);
    MoreNodes(scheds, c, Without(c, dead));
  }

  lemma {:induction false} ReportHead(scheds: map<nat, H.Scheduler>, received: set<(nat, nat)>, c: Cluster, w: nat,
                                      states: seq<ReplicaState>)
    requires HeadOk(scheds, received, c) && w in scheds
    requires forall e :: e in states && IsDead(e) ==> LaunchedFor(scheds[w], e)
    ensures HeadOk(scheds, received, Report(c, w, states).0)
  {
    ReportWellNamed(scheds, received, c, w, states);
    ReportRemovesDead(c, w, states);
    WithoutHead(scheds, received, c, DeadKeys(w, states));
  }

  lemma SameAccounts(scheds: map<nat, H.Scheduler>, received: set<(nat, nat)>, c: Cluster, c': Cluster)
    requires Accounted(scheds, received, c) && c'.replicaMap == c.replicaMap
    requires forall d, e :: Lists(c, d, e) ==> Lists(c', d, e)
    ensures Accounted(scheds, received, c')
  {
    forall key | key in c'.replicaMap ensures exists w, call :: CameFrom(scheds, received, c', key, w, call) {
      KeepsAccount(scheds, received, c, received, c', key);
    }
  }

  lemma HeadKept(scheds: map<nat, H.Scheduler>, received: set<(nat, nat)>, c: Cluster, c': Cluster)
    requires HeadOk(scheds, received, c) && Agree(c') && Costless(c'.records)
    requires c'.replicaMap == c.replicaMap && (forall d, e :: Lists(c, d, e) ==> Lists(c', d, e))
    requires c.nodes.Keys <= c'.nodes.Keys && c.deployments.Keys <= c'.deployments.Keys
    ensures HeadOk(scheds, received, c')
  {
    SameAccounts(scheds, received, c, c');
    MoreNodes(scheds, c, c');
  }

  lemma UpsertLists(c: Cluster, d: nat, name: string, version: string, cpus: int, gpus: int)
    ensures var c' := Upsert(c, d, name, version, cpus, gpus);
            && (forall x, e :: Lists(c, x, e) ==> Lists(c', x, e))
            && c'.replicaMap == c.replicaMap && c'.records == c.records && c'.nodes == c.nodes
            && c.deployments.Keys <= c'.deployments.Keys
  {
  }

  lemma LoadRecords(c: Cluster, r: nat, w: nat, avg: real, stamp: nat, key: string)
    requires key == Key(w, r) && Costless(c.records)
    ensures var c' := LoadMetrics(c, r, w, avg, stamp);
            && Costless(c'.records)
            && c'.deployments == c.deployments && c'.replicaMap == c.replicaMap && c'.nodes == c.nodes
  {
  }

  // With nothing in use, registering a node again does no harm.
  lemma HarmlessNode(c: Cluster, w: nat)
    requires Agree(c) && Costless(c.records)
    ensures Agree(AddNode(c, w))
  {
    SumZero(c.records, CpusOn(w));
    SumZero(c.records, GpusOn(w));
    NodeAgree(c, w);
  }

  lemma NodeHead(scheds: map<nat, H.Scheduler>, received: set<(nat, nat)>, c: Cluster, w: nat)
    requires HeadOk(scheds, received, c)
    ensures HeadOk(scheds, received, Perform(c, NodeOp(w)))
  {
    HarmlessNode(c, w);
    HeadKept(scheds, received, c, AddNode(c, w));
  }

  lemma DeployHead(scheds: map<nat, H.Scheduler>, received: set<(nat, nat)>, c: Cluster,
                   d: nat, name: string, version: string, cpus: int, gpus: int)
    requires HeadOk(scheds, received, c)
    ensures HeadOk(scheds, received, Perform(c, UpsertOp(d, name, version, cpus, gpus)))
  {
    UpsertAgree(c, d, name, version, cpus, gpus);
    UpsertLists(c, d, name, version, cpus, gpus);
    HeadKept(scheds, received, c, Upsert(c, d, name, version, cpus, gpus));
  }

  lemma MetricsHead(scheds: map<nat, H.Scheduler>, received: set<(nat, nat)>, c: Cluster,
                    r: nat, w: nat, avg: real, stamp: nat)
    requires HeadOk(scheds, received, c)
    ensures HeadOk(scheds, received, Perform(c, LoadOp(r, w, avg, stamp)))
  {
    LoadAgree(c, r, w, avg, stamp);
    LoadRecords(c, r, w, avg, stamp, Key(w, r));
    HeadKept(scheds, received, c, LoadMetrics(c, r, w, avg, stamp));
  }

  lemma OpHead(s: System, m: Move)
    requires HeadOk(s.scheds, s.received, s.cluster) && Can(s, m) && CallsHead(m)
    ensures HeadOk(s.scheds, s.received, Perform(s.cluster, OpOf(s, m)))
  {
    if m.RegisterNode? {
      NodeHead(s.scheds, s.received, s.cluster, m.w);
    } else if m.Deploy? {
      DeployHead(s.scheds, s.received, s.cluster, m.d, m.name, m.version, m.cpus, m.gpus);
    } else {
      MetricsHead(s.scheds, s.received, s.cluster, m.r, m.w, m.avg, m.stamp);
    }
  }

  // A negative answer leads to no change but its own receipt.
  lemma MoreReceived(scheds: map<nat, H.Scheduler>, received: set<(nat, nat)>, c: Cluster, answer: (nat, nat))
    requires Accounted(scheds, received, c)
    ensures Accounted(scheds, received + {answer}, c)
  {
    forall key | key in c.replicaMap ensures exists w, call :: CameFrom(scheds, received + {answer}, c, key, w, call) {
      KeepsAccount(scheds, received, c, received + {answer}, c, key);
    }
  }

  lemma ReceiptHead(s: System, w: nat, call: nat, ts: int)
    requires HeadOk(s.scheds, s.received, s.cluster) && Can(s, Receive(w, call, ts))
    ensures HeadOk(s.scheds, s.received + {(w, call)}, ClusterAfter(s, Receive(w, call, ts)))
  {
    if PositiveReceipt(s, Receive(w, call, ts)) {
      ReceiveHead(s, w, call, ts);
    } else {
      MoreReceived(s.scheds, s.received, s.cluster, (w, call));
    }
  }

  lemma HeadStep(s: System, m: Move)
    requires HeadOk(s.scheds, s.received, s.cluster) && Can(s, m)
    ensures HeadOk(SchedsAfter(s, m), ReceivedAfter(s, m), ClusterAfter(s, m))
  {
    if m.Ask? {
      WorkerHead(s.scheds, s.received, s.cluster, m.w, H.Allocate(m.call, m.d));
    } else if m.WorkerStep? {
      WorkerHead(s.scheds, s.received, s.cluster, m.w, m.step);
    } else if m.Receive? {
      ReceiptHead(s, m.w, m.call, m.ts);
    } else if m.HealthReport? {
      ReportHead(s.scheds, s.received, s.cluster, m.w, m.states);
    } else if CallsHead(m) {
      OpHead(s, m);
    }
  }

  lemma KeepsStep(s: System, m: Move)
    requires WorkersOk(s.scheds, s.cluster) && Can(s, m)
    ensures Keeps(s.scheds, SchedsAfter(s, m))
  {
    if m.Ask? {
      assert WorkerOk(s.scheds[m.w], m.w, s.cluster);
      AnswersKept(s.scheds[m.w], H.Allocate(m.call, m.d));
    } else if m.WorkerStep? {
      assert WorkerOk(s.scheds[m.w], m.w, s.cluster);
      AnswersKept(s.scheds[m.w], m.step);
    }
  }

  // ---------- feed moves ----------

  lemma RepublishedInv(f: F.Feed<Table>, table: Table, ts: int)
    requires F.Inv(f)
    ensures F.Inv(Republished(f, table, ts))
  {
    F.StepInv(f, F.Change(table));
    F.StepInv(F.Next(f, F.Change(table)), F.Publish(ts));
  }

  lemma FeedInv(s: System, m: Move)
    requires F.Inv(s.feed) && Can(s, m)
    ensures F.Inv(FeedAfter(s, m))
  {
    if Publishes(s, m) {
      RepublishedInv(s.feed, RoutingTable(ClusterAfter(s, m)), m.ts);
    } else if m.Deploy? {
      F.StepInv(s.feed, F.Change(RoutingTable(ClusterAfter(s, m))));
    } else if m.FeedStep? {
      F.StepInv(s.feed, m.event);
    } else if m.Apply? {
      F.StepInv(s.feed, F.Deliver(m.p));
    }
  }

  // The head's history grows only by the table of its new state.
  lemma HistoryStep(s: System, m: Move)
    requires Can(s, m)
    ensures var history := FeedAfter(s, m).history;
            || (history == s.feed.history && RoutingTable(ClusterAfter(s, m)) == RoutingTable(s.cluster))
            || history == s.feed.history + [RoutingTable(ClusterAfter(s, m))]
  {
    if m.Metrics? {
      SameDeployments(s.cluster, m.r, m.w, m.avg, m.stamp);
    } else if m.HealthReport? && !AnyDead(m.states) {
      NothingDead(s.cluster, m.w, m.states);
    }
  }

  lemma {:induction false} NothingDead(c: Cluster, w: nat, states: seq<ReplicaState>)
    requires !AnyDead(states)
    ensures Report(c, w, states) == (c, false)
  {
    forall i | 0 <= i < |states| ensures states[i].status != "DEAD" {
      assert states[i] in states;
    }
    NoneDead(c, w, states);
  }

  lemma SameDeployments(c: Cluster, r: nat, w: nat, avg: real, stamp: nat)
    ensures LoadMetrics(c, r, w, avg, stamp).deployments == c.deployments
  {
  }

  lemma TablesMore(scheds: map<nat, H.Scheduler>, history: seq<Table>, table: Table)
    requires TablesOk(scheds, history) && TableGood(scheds, table)
    ensures TablesOk(scheds, history + [table])
  {
  }

  lemma TablesStep(s: System, m: Move)
    requires HeadOk(s.scheds, s.received, s.cluster) && TablesOk(s.scheds, s.feed.history) && Can(s, m)
    ensures TablesOk(SchedsAfter(s, m), FeedAfter(s, m).history)
  {
    HeadStep(s, m);
    KeepsStep(s, m);
    BuiltGood(SchedsAfter(s, m), ReceivedAfter(s, m), ClusterAfter(s, m));
    AllStay(s.scheds, SchedsAfter(s, m), s.feed.history);
    TablesMore(SchedsAfter(s, m), s.feed.history, RoutingTable(ClusterAfter(s, m)));
    HistoryStep(s, m);
  }

  lemma EventApplied(f: F.Feed<Table>, e: F.Event<Table>, p: nat)
    requires F.Inv(f) && F.Can(f, e) && !e.Deliver?
    ensures Applied(F.Next(f, e), p) == Applied(f, p)
  {
    if p in f.views {
      F.ViewEffect(f, e, p);
    }
  }

  lemma DeliverApplied(f: F.Feed<Table>, p: nat, q: nat)
    requires F.Can(f, F.Deliver(p))
    ensures Applied(F.Next(f, F.Deliver(p)), q) == if q == p then Applied(f, p) + [NextUp(f, p)] else Applied(f, q)
  {
  }

  lemma RepublishedApplied(f: F.Feed<Table>, table: Table, ts: int, p: nat)
    ensures Applied(Republished(f, table, ts), p) == Applied(f, p)
  {
  }

  // Nothing but its own delivery changes what a proxy has applied.
  lemma AppliedStep(s: System, m: Move, p: nat)
    requires F.Inv(s.feed) && Can(s, m)
    ensures Applied(FeedAfter(s, m), p) ==
            if m.Apply? && m.p == p then Applied(s.feed, p) + [NextUp(s.feed, p)] else Applied(s.feed, p)
  {
    if Publishes(s, m) {
      RepublishedApplied(s.feed, RoutingTable(ClusterAfter(s, m)), m.ts, p);
    } else if m.Deploy? {
      EventApplied(s.feed, F.Change(RoutingTable(ClusterAfter(s, m))), p);
    } else if m.FeedStep? {
      EventApplied(s.feed, m.event, p);
    } else if m.Apply? {
      DeliverApplied(s.feed, m.p, p);
    }
  }

  // ---------- proxy moves ----------

  // Installing a table leaves the old handles alone and starts good new ones.
  lemma ApplyGood(scheds: map<nat, H.Scheduler>, x: Proxy, deps: seq<DeploymentMsg>, table: Table)
    requires Valid(x) && CanDo(x, ApplyUpdate(deps)) && ProxyGood(scheds, x)
    requires Walks(deps, table) && TableGood(scheds, table)
    ensures ProxyGood(scheds, Act(x, ApplyUpdate(deps)))
  {
    var x' := Act(x, ApplyUpdate(deps));
    forall g | 0 <= g < |x'.handles| ensures HandleGood(scheds, x'.handles[g].rs) {
      if g < |x.handles| {
        assert HandleGood(scheds, x.handles[g].rs);
      } else {
        assert ListGood(scheds, table[deps[g - |x.handles|].id].replicas);
      }
    }
  }

  lemma ApplyReflects(x: Proxy, deps: seq<DeploymentMsg>, table: Table)
    requires Valid(x) && CanDo(x, ApplyUpdate(deps)) && Walks(deps, table)
    ensures Reflects(Act(x, ApplyUpdate(deps)), table)
  {
    var x' := Act(x, ApplyUpdate(deps));
    var base := |x.handles|;
    forall name | name in x'.table ensures exists d :: d in table && Shows(x', name, table[d]) {
      InstallRange(deps, base, name);
      var k := x'.table[name] - base;
      assert Shows(x', name, table[deps[k].id]);
    }
    forall d | d in table ensures table[d].name in x'.table {
      InstallRange(deps, base, table[d].name);
      var k :| 0 <= k < |deps| && deps[k] == table[d];
    }
  }

  lemma ApplyOk(scheds: map<nat, H.Scheduler>, x: Proxy, applied: seq<F.Snap<Table>>, deps: seq<DeploymentMsg>,
                snap: F.Snap<Table>)
    requires ProxyOk(scheds, x, applied) && CanDo(x, ApplyUpdate(deps))
    requires Walks(deps, snap.table) && TableGood(scheds, snap.table)
    ensures ProxyOk(scheds, Act(x, ApplyUpdate(deps)), applied + [snap])
  {
    UpdateValid(x, deps);
    ApplyGood(scheds, x, deps, snap.table);
    ApplyReflects(x, deps, snap.table);
  }

  // Whatever its sessions do, a proxy's handles keep their replicas and its table
  // stays where it is.
  lemma ServeSame(x: Proxy, a: Action, g: nat)
    requires Valid(x) && CanDo(x, a) && !a.ApplyUpdate? && g < |x.handles|
    ensures Act(x, a).table == x.table && |Act(x, a).handles| == |x.handles|
    ensures SameReplicas(x.handles[g].rs, Act(x, a).handles[g].rs)
  {
    ActSame(x, a, g);
  }

  lemma ShowsKept(x: Proxy, a: Action, name: string, m: DeploymentMsg)
    requires Valid(x) && CanDo(x, a) && !a.ApplyUpdate? && Shows(x, name, m)
    ensures Shows(Act(x, a), name, m)
  {
    ServeSame(x, a, x.table[name]);
    SameListKept(x.handles[x.table[name]].rs, Act(x, a).handles[x.table[name]].rs, m.replicas);
  }

  lemma ServeGood(scheds: map<nat, H.Scheduler>, x: Proxy, a: Action)
    requires Valid(x) && CanDo(x, a) && !a.ApplyUpdate? && ProxyGood(scheds, x)
    ensures ProxyGood(scheds, Act(x, a))
  {
    forall g | 0 <= g < |Act(x, a).handles| ensures HandleGood(scheds, Act(x, a).handles[g].rs) {
      if g < |x.handles| {
        ServeSame(x, a, g);
        assert HandleGood(scheds, x.handles[g].rs);
      }
    }
  }

  lemma ServeReflects(x: Proxy, a: Action, table: Table)
    requires Valid(x) && CanDo(x, a) && !a.ApplyUpdate? && Reflects(x, table)
    ensures Reflects(Act(x, a), table)
  {
    ServeTable(x, a);
    forall name | name in x.table ensures exists d :: d in table && Shows(Act(x, a), name, table[d]) {
      var d :| d in table && Shows(x, name, table[d]);
      ShowsKept(x, a, name, table[d]);
    }
  }

  lemma ServeTable(x: Proxy, a: Action)
    requires Valid(x) && CanDo(x, a) && !a.ApplyUpdate?
    ensures Act(x, a).table == x.table
  {
  }

  lemma ServeOk(scheds: map<nat, H.Scheduler>, x: Proxy, applied: seq<F.Snap<Table>>, a: Action)
    requires ProxyOk(scheds, x, applied) && CanDo(x, a) && !a.ApplyUpdate?
    ensures ProxyOk(scheds, Act(x, a), applied)
  {
    ActValid(x, a);
    ServeGood(scheds, x, a);
    if applied != [] {
      ServeReflects(x, a, applied[|applied| - 1].table);
    }
  }

  lemma ProxyApplies(s: System, p: nat, deps: seq<DeploymentMsg>)
    requires Inv(s) && Can(s, Apply(p, deps)) && Ready(s, Apply(p, deps))
    ensures ProxyOk(s.scheds, Act(s.proxies[p], ApplyUpdate(deps)), Applied(s.feed, p) + [NextUp(s.feed, p)])
  {
    DeliveredGood(s, p);
    assert ProxyOk(s.scheds, s.proxies[p], Applied(s.feed, p));
    ApplyOk(s.scheds, s.proxies[p], Applied(s.feed, p), deps, NextUp(s.feed, p));
  }

  lemma ProxyServes(s: System, p: nat, a: Action)
    requires Inv(s) && Can(s, Serve(p, a)) && Ready(s, Serve(p, a))
    ensures ProxyOk(s.scheds, Act(s.proxies[p], a), Applied(s.feed, p))
  {
    assert ProxyOk(s.scheds, s.proxies[p], Applied(s.feed, p));
    ServeOk(s.scheds, s.proxies[p], Applied(s.feed, p), a);
  }

  predicate Moves(m: Move, p: nat) {
    (m.Apply? && m.p == p) || (m.Serve? && m.p == p)
  }

  lemma OthersStay(s: System, m: Move, p: nat)
    requires Can(s, m) && Ready(s, m) && p in s.proxies && !Moves(m, p)
    ensures p in ProxiesAfter(s, m) && ProxiesAfter(s, m)[p] == s.proxies[p]
  {
  }

  lemma ProxyRests(s: System, m: Move, p: nat)
    requires Inv(s) && Can(s, m) && Ready(s, m) && p in s.proxies && !Moves(m, p)
    ensures p in ProxiesAfter(s, m) && ProxyOk(s.scheds, ProxiesAfter(s, m)[p], Applied(s.feed, p))
  {
    OthersStay(s, m, p);
    assert ProxyOk(s.scheds, s.proxies[p], Applied(s.feed, p));
  }

  lemma ProxyStep(s: System, m: Move, p: nat)
    requires Inv(s) && Can(s, m) && Ready(s, m) && p in s.proxies
    ensures p in ProxiesAfter(s, m) && ProxyOk(s.scheds, ProxiesAfter(s, m)[p], Applied(FeedAfter(s, m), p))
  {
    AppliedStep(s, m, p);
    if !Moves(m, p) {
      ProxyRests(s, m, p);
    } else if m.Apply? {
      ProxyApplies(s, p, m.deps);
    } else {
      ProxyServes(s, p, m.action);
    }
  }

  lemma ProxiesStep(s: System, m: Move)
    requires Inv(s) && Can(s, m) && Ready(s, m) && Keeps(s.scheds, SchedsAfter(s, m))
    ensures forall p :: p in ProxiesAfter(s, m) ==>
              ProxyOk(SchedsAfter(s, m), ProxiesAfter(s, m)[p], Applied(FeedAfter(s, m), p))
  {
    forall p | p in ProxiesAfter(s, m)
      ensures ProxyOk(SchedsAfter(s, m), ProxiesAfter(s, m)[p], Applied(FeedAfter(s, m), p))
    {
      ProxyStep(s, m, p);
      ProxyStays(s.scheds, SchedsAfter(s, m), ProxiesAfter(s, m)[p]);
    }
  }

  lemma StepInv(s: System, m: Move)
    requires Inv(s) && Can(s, m)
    ensures Ready(s, m) && Inv(Next(s, m))
  {
    AlwaysReady(s, m);
    HeadStep(s, m);
    KeepsStep(s, m);
    FeedInv(s, m);
    TablesStep(s, m);
    ProxiesStep(s, m);
  }

  // ---------- runs ----------

  // Nothing created, nothing registered, and every proxy without a table.
  ghost function Begin(addresses: map<nat, string>, proxies: set<nat>): System {
    System(map w | w in addresses :: H.Idle(w, addresses[w]), {}, NO_CLUSTER,
           F.Begin(map[]), map p | p in proxies :: EMPTY)
  }

  lemma BeginInv(addresses: map<nat, string>, proxies: set<nat>)
    ensures Inv(Begin(addresses, proxies))
  {
    var s := Begin(addresses, proxies);
    ReachableAgrees([]);
    forall w | w in s.scheds ensures WorkerOk(s.scheds[w], w, s.cluster) {
      H.HandshakeSafe(w, addresses[w], []);
    }
  }

  ghost predicate Possible(s: System, run: seq<Move>)
    requires Inv(s)
    decreases |run|
  {
    run == [] || (Can(s, run[0]) && (StepInv(s, run[0]); Possible(Next(s, run[0]), run[1..])))
  }

  ghost function After(s: System, run: seq<Move>): (s': System)
    requires Inv(s) && Possible(s, run)
    ensures Inv(s')
    decreases |run|
  {
    if run == [] then s else StepInv(s, run[0]); After(Next(s, run[0]), run[1..])
  }

  ghost predicate Reachable(addresses: map<nat, string>, proxies: set<nat>, run: seq<Move>) {
    BeginInv(addresses, proxies);
    Possible(Begin(addresses, proxies), run)
  }

  ghost function Reached(addresses: map<nat, string>, proxies: set<nat>, run: seq<Move>): (s: System)
    requires Reachable(addresses, proxies, run)
    ensures Inv(s)
  {
    BeginInv(addresses, proxies);
    After(Begin(addresses, proxies), run)
  }

  // ---------- what the calls of the head and the proxies lead to ----------

  // The deployment is as this move described it.
  predicate DeployedAs(c: Cluster, m: Move)
    requires m.Deploy?
  {
    m.d in c.deployments &&
    var dep := c.deployments[m.d];
    dep.name == m.name && dep.version == m.version && dep.cpus == m.cpus && dep.gpus == m.gpus
  }

  predicate Redeploys(m: Move, d: nat) {
    m.Deploy? && m.d == d
  }

  // The two say the same of deployment `d`, its replicas apart.
  predicate SameDescription(c: Cluster, c': Cluster, d: nat) {
    d in c.deployments ==>
      && d in c'.deployments
      && c'.deployments[d] == c.deployments[d].(replicas := c'.deployments[d].replicas)
  }

  lemma {:induction false} ReportDescribes(c: Cluster, w: nat, states: seq<ReplicaState>, d: nat)
    ensures SameDescription(c, Report(c, w, states).0, d)
  {
    if states != [] {
      ReportDescribes(c, w, states[..|states| - 1], d);
    }
  }

  lemma AddDescribes(s: System, m: Move, d: nat)
    requires PositiveReceipt(s, m)
    ensures SameDescription(s.cluster, ClusterAfter(s, m), d)
  {
    var op := AddOf(s.scheds[m.w], m.call);
    if op.d in s.cluster.deployments {
      SingleAdd(s.cluster, op.d, op.w, op.content, op.cpus, op.gpus, op.address);
    }
  }

  lemma OthersDescribe(s: System, m: Move, d: nat)
    requires Can(s, m) && !Redeploys(m, d)
    ensures SameDescription(s.cluster, ClusterAfter(s, m), d)
  {
    if PositiveReceipt(s, m) {
      AddDescribes(s, m, d);
    } else if m.HealthReport? {
      ReportDescribes(s.cluster, m.w, m.states, d);
    }
  }

  lemma {:induction false} StaysDeployed(s: System, m: Move, run: seq<Move>)
    requires Inv(s) && Possible(s, run) && m.Deploy? && DeployedAs(s.cluster, m)
    requires forall j :: 0 <= j < |run| ==> !Redeploys(run[j], m.d)
    ensures DeployedAs(After(s, run).cluster, m)
    decreases |run|
  {
    if run != [] {
      StepInv(s, run[0]);
      OthersDescribe(s, run[0], m.d);
      StaysDeployed(Next(s, run[0]), m, run[1..]);
    }
  }

  lemma DeployDescribes(s: System, m: Move)
    requires Can(s, m) && m.Deploy?
    ensures DeployedAs(ClusterAfter(s, m), m)
  {
  }

  lemma {:induction false} DeployedFrom(s: System, run: seq<Move>, i: nat)
    requires Inv(s) && Possible(s, run) && i < |run| && run[i].Deploy?
    requires forall j :: i < j < |run| ==> !Redeploys(run[j], run[i].d)
    ensures DeployedAs(After(s, run).cluster, run[i])
    decreases |run|
  {
    StepInv(s, run[0]);
    var rest := run[1..];
    assert forall j :: 0 <= j < |rest| ==> rest[j] == run[j + 1];
    if i == 0 {
      DeployDescribes(s, run[0]);
      StaysDeployed(Next(s, run[0]), run[0], rest);
    } else {
      DeployedFrom(Next(s, run[0]), rest, i - 1);
    }
  }

  // Whatever else goes on, the head knows a deployment as it was last described.
  lemma {:induction false} LastDeployWins(addresses: map<nat, string>, proxies: set<nat>, run: seq<Move>, i: nat)
    requires Reachable(addresses, proxies, run) && i < |run| && run[i].Deploy?
    requires forall j :: i < j < |run| ==> !Redeploys(run[j], run[i].d)
    ensures DeployedAs(Reached(addresses, proxies, run).cluster, run[i])
  {
    BeginInv(addresses, proxies);
    DeployedFrom(Begin(addresses, proxies), run, i);
  }

  // The move can be made, and leads to `s'`.
  ghost predicate Makes(s: System, m: Move, s': System) {
    Can(s, m) && Ready(s, m) && s' == Next(s, m)
  }

  lemma {:induction false} OneMoveOn(s: System, run: seq<Move>, m: Move, last: System, next: System)
    requires Inv(s) && Possible(s, run) && After(s, run) == last && Makes(last, m, next)
    ensures Possible(s, run + [m]) && After(s, run + [m]) == next
    decreases |run|
  {
    if run == [] {
      LastMove(s, m);
      assert run + [m] == [m];
    } else {
      AtFirst(s, run);
      OneMoveOn(Next(s, run[0]), run[1..], m, last, next);
      MoveBefore(s, run, m, Next(s, run[0]));
    }
  }

  lemma {:induction false} LastMove(s: System, m: Move)
    requires Inv(s) && Can(s, m) && Ready(s, m)
    ensures Possible(s, [m]) && After(s, [m]) == Next(s, m)
  {
    StepInv(s, m);
    assert [m][1..] == [];
  }

  lemma {:induction false} MoveBefore(s: System, run: seq<Move>, m: Move, s1: System)
    requires Inv(s) && run != [] && Can(s, run[0]) && Ready(s, run[0]) && s1 == Next(s, run[0])
    requires Inv(s1) && Possible(s1, run[1..] + [m])
    ensures Possible(s, run + [m]) && After(s, run + [m]) == After(s1, run[1..] + [m])
  {
    assert (run + [m])[0] == run[0] && (run + [m])[1..] == run[1..] + [m];
  }

  lemma {:induction false} AtFirst(s: System, run: seq<Move>)
    requires Inv(s) && Possible(s, run) && run != []
    ensures Can(s, run[0]) && Ready(s, run[0]) && Inv(Next(s, run[0])) && Possible(Next(s, run[0]), run[1..])
    ensures After(s, run) == After(Next(s, run[0]), run[1..])
  {
    StepInv(s, run[0]);
  }

  lemma {:induction false} ReachesOn(addresses: map<nat, string>, proxies: set<nat>, run: seq<Move>, m: Move)
    requires Reachable(addresses, proxies, run) && Can(Reached(addresses, proxies, run), m)
    ensures Ready(Reached(addresses, proxies, run), m)
    ensures Reachable(addresses, proxies, run + [m])
    ensures Reached(addresses, proxies, run + [m]) == Next(Reached(addresses, proxies, run), m)
  {
    AlwaysReady(Reached(addresses, proxies, run), m);
    BeginInv(addresses, proxies);
    var s := Reached(addresses, proxies, run);
    OneMoveOn(Begin(addresses, proxies), run, m, s, Next(s, m));
  }

  // A deployment can be described at any time, anew or for the first time.
  lemma {:induction false} DeploysAnytime(addresses: map<nat, string>, proxies: set<nat>, run: seq<Move>, m: Move)
    requires Reachable(addresses, proxies, run) && m.Deploy?
    ensures Reachable(addresses, proxies, run + [m])
    ensures DeployedAs(Reached(addresses, proxies, run + [m]).cluster, m)
  {
    ReachesOn(addresses, proxies, run, m);
    DeployDescribes(Reached(addresses, proxies, run), m);
  }

  // A worker's report of replicas it launched, whenever it comes and however often, leaves
  // exactly the cluster without those it calls DEAD.
  lemma {:induction false} ReportsAnytime(addresses: map<nat, string>, proxies: set<nat>, run: seq<Move>,
                                          w: nat, states: seq<ReplicaState>, ts: int)
    requires Reachable(addresses, proxies, run) && w in Reached(addresses, proxies, run).scheds
    requires forall e :: e in states && e.status == "DEAD" ==>
               LaunchedFor(Reached(addresses, proxies, run).scheds[w], e)
    ensures var s := Reached(addresses, proxies, run);
            && Reachable(addresses, proxies, run + [HealthReport(w, states, ts)])
            && Reached(addresses, proxies, run + [HealthReport(w, states, ts)]).cluster ==
               Without(s.cluster, set e | e in states && e.status == "DEAD" :: Key(w, e.replicaId))
  {
    var s := Reached(addresses, proxies, run);
    ReachesOn(addresses, proxies, run, HealthReport(w, states, ts));
    ReportLeaves(s, w, states, ts, set e | e in states && e.status == "DEAD" :: Key(w, e.replicaId));
  }

  lemma {:induction false} ReportLeaves(s: System, w: nat, states: seq<ReplicaState>, ts: int, dead: set<string>)
    requires HeadOk(s.scheds, s.received, s.cluster) && Can(s, HealthReport(w, states, ts))
    requires dead == set e | e in states && e.status == "DEAD" :: Key(w, e.replicaId)
    ensures ClusterAfter(s, HealthReport(w, states, ts)) == Without(s.cluster, dead)
  {
    ReportWellNamed(s.scheds, s.received, s.cluster, w, states);
    ReportRemovesDead(s.cluster, w, states);
    assert dead == DeadKeys(w, states);
  }

  // Metrics are kept for the replica they are of, if the head has it, and touch nothing else.
  lemma MetricsFiled(addresses: map<nat, string>, proxies: set<nat>, run: seq<Move>, r: nat, w: nat, avg: real,
                     stamp: nat)
    requires Reachable(addresses, proxies, run)
    ensures var s := Reached(addresses, proxies, run);
            var c := ClusterAfter(s, Metrics(r, w, avg, stamp));
            && c == s.cluster.(records := c.records)
            && c.records == if Key(w, r) in s.cluster.replicaMap
                            then s.cluster.records[Key(w, r) := Record(avg, stamp, 0, 0)] else s.cluster.records
  {
    var s := Reached(addresses, proxies, run);
    MetricsStep(s, r, w, avg, stamp, Key(w, r));
  }

  lemma MetricsStep(s: System, r: nat, w: nat, avg: real, stamp: nat, key: string)
    requires HeadOk(s.scheds, s.received, s.cluster) && key == Key(w, r)
    ensures var c := ClusterAfter(s, Metrics(r, w, avg, stamp));
            && c == s.cluster.(records := c.records)
            && c.records == if key in s.cluster.replicaMap then s.cluster.records[key := Record(avg, stamp, 0, 0)]
                            else s.cluster.records
  {
    assert Agree(s.cluster) && Costless(s.cluster.records);
    MetricsMove(s, r, w, avg, stamp);
    MetricsOf(s.cluster, r, w, avg, stamp, key);
  }

  lemma MetricsMove(s: System, r: nat, w: nat, avg: real, stamp: nat)
    ensures ClusterAfter(s, Metrics(r, w, avg, stamp)) == LoadMetrics(s.cluster, r, w, avg, stamp)
  {
  }

  lemma MetricsOf(c: Cluster, r: nat, w: nat, avg: real, stamp: nat, key: string)
    requires key == Key(w, r) && Costless(c.records) && Placed(c)
    ensures var c' := LoadMetrics(c, r, w, avg, stamp);
            && c' == c.(records := c'.records)
            && c'.records == if key in c.replicaMap then c.records[key := Record(avg, stamp, 0, 0)] else c.records
  {
    assert key in c.replicaMap <==> key in c.records;
  }

  // A session is given the replicas of a deployment with the name it asked for, in the
  // table its proxy applied last; with different names that deployment is the only one.
  lemma OpensListed(addresses: map<nat, string>, proxies: set<nat>, run: seq<Move>, p: nat, sid: nat, name: string)
    requires Reachable(addresses, proxies, run)
    requires Can(Reached(addresses, proxies, run), Serve(p, Open(sid, name)))
    ensures var s := Reached(addresses, proxies, run);
            var applied := Applied(s.feed, p);
            && Ready(s, Serve(p, Open(sid, name)))
            && var x := Next(s, Serve(p, Open(sid, name))).proxies[p];
               && sid in x.sessions && x.sessions[sid].Looked? && x.sessions[sid].handle < |x.handles|
               && applied != [] && HandleFrom(x, sid, name, applied[|applied| - 1].table)
  {
    var s := Reached(addresses, proxies, run);
    assert ProxyOk(s.scheds, s.proxies[p], Applied(s.feed, p));
    OpenedHandle(s.proxies[p], sid, name, Applied(s.feed, p));
  }

  // The session's handle has the replicas of a deployment of that name in the table.
  ghost predicate HandleFrom(x: Proxy, sid: nat, name: string, table: Table)
    requires sid in x.sessions && x.sessions[sid].handle < |x.handles|
  {
    exists d :: d in table && table[d].name == name && SameList(x.handles[x.sessions[sid].handle].rs, table[d].replicas)
  }

  lemma OpenedHandle(x: Proxy, sid: nat, name: string, applied: seq<F.Snap<Table>>)
    requires Valid(x) && CanDo(x, Open(sid, name)) && InStep(x, applied)
    ensures var x' := Act(x, Open(sid, name));
            && sid in x'.sessions && x'.sessions[sid].Looked? && x'.sessions[sid].handle < |x'.handles|
            && applied != [] && HandleFrom(x', sid, name, applied[|applied| - 1].table)
  {
    var table := applied[|applied| - 1].table;
    var d :| d in table && Shows(x, name, table[d]);
    assert d in table && table[d].name == name && SameList(x.handles[x.table[name]].rs, table[d].replicas);
  }

  // ---------- what the balancers are given ----------

  // A two-part id is never empty, nor is an address with its port.
  lemma BackedAttempted(scheds: map<nat, H.Scheduler>, m: ReplicaMsg)
    requires Backed(scheds, m.id, m.address)
    ensures Attempted(m)
  {
    var w, call :| w in scheds && AnsweredWith(scheds[w], call, m.id, m.address);
    KeyRoundTrip(scheds[w].worker, scheds[w].calls[call].id);
    assert |m.address| >= |":"|;
  }

  lemma GoodServes(scheds: map<nat, H.Scheduler>, ms: seq<ReplicaMsg>)
    requires ListGood(scheds, ms)
    ensures AllServing(ms)
  {
    forall i | 0 <= i < |ms| ensures Attempted(ms[i]) {
      BackedAttempted(scheds, ms[i]);
    }
  }

  // Every list of every table this head ever has is one on which the C++ and the Python
  // balancer make the same picks, in every run without failures.
  lemma {:induction false} SamePicksEverywhere(addresses: map<nat, string>, proxies: set<nat>, run: seq<Move>,
                                               i: nat, d: nat, clock: int, steps: seq<Step>)
    requires Reachable(addresses, proxies, run)
    requires var history := Reached(addresses, proxies, run).feed.history; i < |history| && d in history[i]
    requires var ms := Reached(addresses, proxies, run).feed.history[i][d].replicas;
             Feasible(Start(ms, clock), steps) && NoFailures(steps)
    ensures var ms := Reached(addresses, proxies, run).feed.history[i][d].replicas;
            && AllServing(ms)
            && InLockstep(ms, Start(ms, clock), Side(InitialCache(ms), map[]), steps)
  {
    var s := Reached(addresses, proxies, run);
    var ms := s.feed.history[i][d].replicas;
    assert TableGood(s.scheds, s.feed.history[i]);
    GoodServes(s.scheds, ms);
    SamePicks(ms, clock, steps);
  }

  // The session holds a replica that some worker answered with.
  ghost predicate HoldsBacked(scheds: map<nat, H.Scheduler>, x: Proxy, sid: nat)
    requires sid in x.sessions && x.sessions[sid].handle < |x.handles|
  {
    x.sessions[sid].Holding? ==>
      var rs := x.handles[x.sessions[sid].handle].rs;
      var i := x.sessions[sid].replica;
      i < |rs| && Backed(scheds, rs[i].id, rs[i].address)
  }

  // In every reachable state, each replica in any table the head ever had and in any
  // handle a proxy has or had, and so each replica a session holds, was the positive
  // answer to some call: its address is that worker's, with a port the replica had
  // registered there.
  lemma RoutingSafety(addresses: map<nat, string>, proxies: set<nat>, run: seq<Move>, p: nat)
    requires Reachable(addresses, proxies, run) && p in Reached(addresses, proxies, run).proxies
    ensures var s := Reached(addresses, proxies, run);
            var x := s.proxies[p];
            && TablesOk(s.scheds, s.feed.history) && ProxyGood(s.scheds, x)
            && forall sid :: sid in x.sessions ==> x.sessions[sid].handle < |x.handles| && HoldsBacked(s.scheds, x, sid)
  {
    var s := Reached(addresses, proxies, run);
    assert ProxyOk(s.scheds, s.proxies[p], Applied(s.feed, p));
    forall sid | sid in s.proxies[p].sessions
      ensures s.proxies[p].sessions[sid].handle < |s.proxies[p].handles| && HoldsBacked(s.scheds, s.proxies[p], sid)
    {
      SessionBacked(s.scheds, s.proxies[p], sid);
    }
  }

  lemma SessionBacked(scheds: map<nat, H.Scheduler>, x: Proxy, sid: nat)
    requires Valid(x) && ProxyGood(scheds, x) && sid in x.sessions
    ensures x.sessions[sid].handle < |x.handles| && HoldsBacked(scheds, x, sid)
  {
    var g := x.sessions[sid].handle;
    assert Tied(x, g, sid) && Balancer.Inv(x.handles[g]) && HandleGood(scheds, x.handles[g].rs);
  }

  // In every reachable state the four structures agree, and whatever is done to them
  // next meets its obligations: fresh keys on registered nodes, the deployments that
  // list the replicas, and no registration of a node with something in use.
  lemma SystemAgrees(addresses: map<nat, string>, proxies: set<nat>, run: seq<Move>, m: Move)
    requires Reachable(addresses, proxies, run) && Can(Reached(addresses, proxies, run), m)
    ensures var s := Reached(addresses, proxies, run);
            && Agree(s.cluster) && Agree(ClusterAfter(s, m))
            && (PositiveReceipt(s, m) ==> Proper(s.cluster, AddOf(s.scheds[m.w], m.call)))
            && (m.HealthReport? ==> WellNamed(s.cluster, m.w, m.states) && !Report(s.cluster, m.w, m.states).1)
            && (CallsHead(m) ==> Proper(s.cluster, OpOf(s, m)))
  {
    var s := Reached(addresses, proxies, run);
    ObligationsMet(s, m);
  }

  lemma ObligationsMet(s: System, m: Move)
    requires HeadOk(s.scheds, s.received, s.cluster) && Can(s, m)
    ensures Agree(ClusterAfter(s, m))
    ensures PositiveReceipt(s, m) ==> Proper(s.cluster, AddOf(s.scheds[m.w], m.call))
    ensures m.HealthReport? ==> WellNamed(s.cluster, m.w, m.states) && !Report(s.cluster, m.w, m.states).1
    ensures CallsHead(m) ==> Proper(s.cluster, OpOf(s, m))
  {
    HeadStep(s, m);
    if m.HealthReport? {
      ReportWellNamed(s.scheds, s.received, s.cluster, m.w, m.states);
      ReportCompletes(s.cluster, m.w, m.states);
    } else if PositiveReceipt(s, m) {
      PerformAgrees(s.cluster, AddOf(s.scheds[m.w], m.call));
    } else if CallsHead(m) {
      PerformAgrees(s.cluster, OpOf(s, m));
    }
  }

  ghost predicate DifferentNames(table: Table) {
    forall d, d' :: d in table && d' in table && table[d].name == table[d'].name ==> d == d'
  }

  // The head's history ends with the table of its current state.
  ghost predicate Current(history: seq<Table>, c: Cluster) {
    history != [] && history[|history| - 1] == RoutingTable(c)
  }

  lemma CurrentStep(s: System, m: Move)
    requires Can(s, m) && Current(s.feed.history, s.cluster)
    ensures Current(FeedAfter(s, m).history, ClusterAfter(s, m))
  {
    HistoryStep(s, m);
  }

  lemma {:induction false} CurrentRun(s: System, run: seq<Move>)
    requires Inv(s) && Possible(s, run) && Current(s.feed.history, s.cluster)
    ensures Current(After(s, run).feed.history, After(s, run).cluster)
    decreases |run|
  {
    if run != [] {
      StepInv(s, run[0]);
      CurrentStep(s, run[0]);
      CurrentRun(Next(s, run[0]), run[1..]);
    }
  }

  // The table of every proxy is empty, or the by-name view of a table the head has
  // had; those moments only move forward, whatever reconnects come between; and with
  // different names the view shows every deployment.
  ghost predicate PastViewOf(x: Proxy, applied: seq<F.Snap<Table>>, history: seq<Table>) {
    && F.Forward(applied)
    && (applied == [] ==> x.table == map[])
    && (applied != [] ==>
        var moment := applied[|applied| - 1].moment;
        && moment < |history| && Reflects(x, history[moment])
        && (DifferentNames(history[moment]) ==> ShowsAll(x, history[moment])))
  }

  ghost predicate ShowsAll(x: Proxy, table: Table) {
    forall d :: d in table ==> Shows(x, table[d].name, table[d])
  }

  lemma PastView(addresses: map<nat, string>, proxies: set<nat>, run: seq<Move>, p: nat)
    requires Reachable(addresses, proxies, run) && p in Reached(addresses, proxies, run).proxies
    ensures var s := Reached(addresses, proxies, run);
            && Current(s.feed.history, s.cluster)
            && PastViewOf(s.proxies[p], Applied(s.feed, p), s.feed.history)
  {
    BeginInv(addresses, proxies);
    CurrentRun(Begin(addresses, proxies), run);
    var s := Reached(addresses, proxies, run);
    assert ProxyOk(s.scheds, s.proxies[p], Applied(s.feed, p));
    ViewOfFeed(s.feed, s.proxies[p], p);
  }

  lemma ViewOfFeed(f: F.Feed<Table>, x: Proxy, p: nat)
    requires F.Inv(f) && InStep(x, Applied(f, p))
    ensures PastViewOf(x, Applied(f, p), f.history)
  {
    var applied := Applied(f, p);
    if p in f.views {
      assert F.ViewOk(f, f.views[p]);
      F.ForwardAll(applied);
      if applied != [] {
        assert F.Genuine(f, applied[|applied| - 1]);
        if DifferentNames(applied[|applied| - 1].table) {
          ByName(x, applied[|applied| - 1].table);
        }
      }
    }
  }

  lemma ByName(x: Proxy, table: Table)
    requires Reflects(x, table) && DifferentNames(table)
    ensures ShowsAll(x, table)
  {
    forall d | d in table ensures Shows(x, table[d].name, table[d]) {
      var d' :| d' in table && Shows(x, table[d].name, table[d']);
    }
  }

  // ---------- with a strictly increasing clock ----------

  ghost predicate Ticks(s: System, m: Move) {
    (m.FeedStep? ==> F.Ticks(s.feed, m.event)) && (Publishes(s, m) ==> m.ts > s.feed.clock)
  }

  ghost predicate RunTicks(s: System, run: seq<Move>)
    requires Inv(s) && Possible(s, run)
    decreases |run|
  {
    run == [] || (Ticks(s, run[0]) && (StepInv(s, run[0]); RunTicks(Next(s, run[0]), run[1..])))
  }

  // What the head's and the proxies' moves do to the feed are events of the feed.
  lemma FeedTracked(s: System, m: Move)
    requires F.Timely(s.feed) && F.Tracked(s.feed) && Can(s, m) && Ticks(s, m)
    ensures F.Timely(FeedAfter(s, m)) && F.Tracked(FeedAfter(s, m))
  {
    if Publishes(s, m) {
      RepublishedTracked(s.feed, RoutingTable(ClusterAfter(s, m)), m.ts);
    } else if m.Deploy? {
      TrackedEvent(s.feed, F.Change(RoutingTable(ClusterAfter(s, m))));
    } else if m.FeedStep? {
      TrackedEvent(s.feed, m.event);
    } else if m.Apply? {
      TrackedEvent(s.feed, F.Deliver(m.p));
    }
  }

  lemma RepublishedTracked(f: F.Feed<Table>, table: Table, ts: int)
    requires F.Timely(f) && F.Tracked(f) && ts > f.clock
    ensures F.Timely(Republished(f, table, ts)) && F.Tracked(Republished(f, table, ts))
  {
    TrackedEvent(f, F.Change(table));
    TrackedEvent(F.Next(f, F.Change(table)), F.Publish(ts));
  }

  lemma TrackedEvent(f: F.Feed<Table>, e: F.Event<Table>)
    requires F.Timely(f) && F.Tracked(f) && F.Can(f, e) && F.Ticks(f, e)
    ensures F.Timely(F.Next(f, e)) && F.Tracked(F.Next(f, e))
  {
    F.StepTimely(f, e);
    F.StepTracked(f, e);
  }

  lemma {:induction false} RunTracked(s: System, run: seq<Move>)
    requires Inv(s) && Possible(s, run) && RunTicks(s, run) && F.Timely(s.feed) && F.Tracked(s.feed)
    ensures F.Timely(After(s, run).feed) && F.Tracked(After(s, run).feed)
    decreases |run|
  {
    if run != [] {
      StepInv(s, run[0]);
      FeedTracked(s, run[0]);
      RunTracked(Next(s, run[0]), run[1..]);
    }
  }

  lemma LastApplied(x: Proxy, applied: seq<F.Snap<Table>>, c: Cluster)
    requires applied != [] && applied[|applied| - 1].table == RoutingTable(c) && InStep(x, applied)
    ensures ShowsNow(x, c)
  {
    var table := RoutingTable(c);
    forall name | name in x.table ensures exists d :: d in c.deployments && RoutesTo(x, name, c.deployments[d]) {
      var d :| d in table && Shows(x, name, table[d]);
      assert RoutesTo(x, name, c.deployments[d]);
    }
    forall d | d in c.deployments ensures c.deployments[d].name in x.table {
      assert d in table;
    }
    if NamesDiffer(c) {
      ByName(x, table);
      forall d | d in c.deployments ensures RoutesTo(x, c.deployments[d].name, c.deployments[d]) {
        assert d in table && Shows(x, table[d].name, table[d]);
      }
    }
  }

  lemma SettledView(f: F.Feed<Table>, x: Proxy, c: Cluster, p: nat)
    requires F.Timely(f) && F.Tracked(f) && F.Settled(f, p)
    requires Current(f.history, c) && InStep(x, Applied(f, p))
    ensures ShowsNow(x, c)
  {
    F.SettledShowsCurrent(f, p);
    LastApplied(x, Applied(f, p), c);
  }

  // The proxy knows the deployment by this name, with the replicas the head lists for it.
  ghost predicate RoutesTo(x: Proxy, name: string, dep: Deployment) {
    && dep.name == name && name in x.table && x.table[name] < |x.handles|
    && SameList(x.handles[x.table[name]].rs, dep.replicas)
  }

  ghost predicate NamesDiffer(c: Cluster) {
    forall d, d' :: d in c.deployments && d' in c.deployments && c.deployments[d].name == c.deployments[d'].name ==>
      d == d'
  }

  // The proxy routes by the head's current state: it knows the deployments' names and no
  // others, each with the replicas of a deployment of that name; when the names differ,
  // every deployment with its own replicas.
  ghost predicate ShowsNow(x: Proxy, c: Cluster) {
    && (forall name :: name in x.table ==> exists d :: d in c.deployments && RoutesTo(x, name, c.deployments[d]))
    && (forall d :: d in c.deployments ==> c.deployments[d].name in x.table)
    && (NamesDiffer(c) ==> forall d :: d in c.deployments ==> RoutesTo(x, c.deployments[d].name, c.deployments[d]))
  }

  // The run that led here took every time stamp from a strictly increasing clock.
  ghost predicate Ticking(addresses: map<nat, string>, proxies: set<nat>, run: seq<Move>)
    requires Reachable(addresses, proxies, run)
  {
    BeginInv(addresses, proxies);
    RunTicks(Begin(addresses, proxies), run)
  }

  lemma ReachedTracked(addresses: map<nat, string>, proxies: set<nat>, run: seq<Move>)
    requires Reachable(addresses, proxies, run) && Ticking(addresses, proxies, run)
    ensures var s := Reached(addresses, proxies, run);
            F.Timely(s.feed) && F.Tracked(s.feed) && Current(s.feed.history, s.cluster)
  {
    BeginInv(addresses, proxies);
    RunTracked(Begin(addresses, proxies), run);
    CurrentRun(Begin(addresses, proxies), run);
  }

  // A proxy that has settled routes by the head's current state: its subscription waits
  // and was not in a send at the last publication, it has taken all it was sent, and the
  // last publication carried the current table.
  lemma SettledProxyCurrent(addresses: map<nat, string>, proxies: set<nat>, run: seq<Move>, p: nat)
    requires Reachable(addresses, proxies, run) && Ticking(addresses, proxies, run)
    requires p in Reached(addresses, proxies, run).proxies && F.Settled(Reached(addresses, proxies, run).feed, p)
    ensures ShowsNow(Reached(addresses, proxies, run).proxies[p], Reached(addresses, proxies, run).cluster)
  {
    var s := Reached(addresses, proxies, run);
    ReachedTracked(addresses, proxies, run);
    assert ProxyOk(s.scheds, s.proxies[p], Applied(s.feed, p));
    SettledView(s.feed, s.proxies[p], s.cluster, p);
  }

  // Deployments are set up before the first snapshot is taken.
  ghost predicate SetUpFirst(s: System, run: seq<Move>)
    requires Inv(s) && Possible(s, run)
    decreases |run|
  {
    run == [] ||
    (&& (run[0].Deploy? ==> s.feed.latest.None?)
     && (StepInv(s, run[0]); SetUpFirst(Next(s, run[0]), run[1..])))
  }

  lemma LiveStep(s: System, m: Move)
    requires F.Timely(s.feed) && F.Live(s.feed) && Can(s, m) && (m.Deploy? ==> s.feed.latest.None?)
    ensures F.Live(FeedAfter(s, m))
  {
    if Publishes(s, m) {
      F.LiveChange(s.feed, RoutingTable(ClusterAfter(s, m)), m.ts);
    } else if m.Deploy? {
      F.LiveBefore(s.feed, RoutingTable(ClusterAfter(s, m)));
    } else if m.FeedStep? {
      F.LiveEvent(s.feed, m.event);
    } else if m.Apply? {
      F.LiveEvent(s.feed, F.Deliver(m.p));
    }
  }

  lemma {:induction false} RunLive(s: System, run: seq<Move>)
    requires Inv(s) && Possible(s, run) && RunTicks(s, run) && SetUpFirst(s, run)
    requires F.Timely(s.feed) && F.Tracked(s.feed) && F.Live(s.feed)
    ensures F.Live(After(s, run).feed)
    decreases |run|
  {
    if run != [] {
      StepInv(s, run[0]);
      FeedTracked(s, run[0]);
      LiveStep(s, run[0]);
      RunLive(Next(s, run[0]), run[1..]);
    }
  }

  ghost predicate SetUp(addresses: map<nat, string>, proxies: set<nat>, run: seq<Move>)
    requires Reachable(addresses, proxies, run)
  {
    BeginInv(addresses, proxies);
    SetUpFirst(Begin(addresses, proxies), run)
  }

  lemma ReachedLive(addresses: map<nat, string>, proxies: set<nat>, run: seq<Move>)
    requires Reachable(addresses, proxies, run) && Ticking(addresses, proxies, run) && SetUp(addresses, proxies, run)
    ensures F.Live(Reached(addresses, proxies, run).feed)
  {
    BeginInv(addresses, proxies);
    RunLive(Begin(addresses, proxies), run);
  }

  lemma LiveView(f: F.Feed<Table>, x: Proxy, c: Cluster, p: nat)
    requires F.Timely(f) && F.Tracked(f) && F.Live(f) && F.CaughtUp(f, p)
    requires Current(f.history, c) && InStep(x, Applied(f, p))
    ensures ShowsNow(x, c)
  {
    F.LiveShowsCurrent(f, p);
    LastApplied(x, Applied(f, p), c);
  }

  // This head publishes whatever it files or removes in the same stretch. So once the
  // deployments are set up, a proxy routes by the head's current state as soon as its
  // subscription waits, was not in a send at the last publication, and has been read.
  lemma CaughtUpProxyCurrent(addresses: map<nat, string>, proxies: set<nat>, run: seq<Move>, p: nat)
    requires Reachable(addresses, proxies, run) && Ticking(addresses, proxies, run) && SetUp(addresses, proxies, run)
    requires p in Reached(addresses, proxies, run).proxies && F.CaughtUp(Reached(addresses, proxies, run).feed, p)
    ensures ShowsNow(Reached(addresses, proxies, run).proxies[p], Reached(addresses, proxies, run).cluster)
  {
    var s := Reached(addresses, proxies, run);
    ReachedTracked(addresses, proxies, run);
    ReachedLive(addresses, proxies, run);
    assert ProxyOk(s.scheds, s.proxies[p], Applied(s.feed, p));
    LiveView(s.feed, s.proxies[p], s.cluster, p);
  }
}
