/**
 That the parts work together: from any state of the whole system a worker can be asked
 for one more replica, and a request can be served from a list that has it.
 */
module Delivery {
  import opened Common
  import opened Keys
  import opened Balancer
  import opened Cluster
  import opened ClusterRuns
  import H = Handshake
  import F = RoutingFeed
  import opened P = ProxySessions
  import opened W = WholeSystem

  // ---------- runs with their states ----------

  ghost predicate Along(trace: seq<System>, run: seq<Move>) {
    |trace| == |run| + 1 && forall i :: 0 <= i < |run| ==> Makes(trace[i], run[i], trace[i + 1])
  }

  // The moves can be made one after the other, and lead from `s` to `s'`.
  ghost predicate Leads(s: System, run: seq<Move>, s': System) {
    exists trace :: Along(trace, run) && trace[0] == s && trace[|run|] == s'
  }

  lemma {:induction false} AlongRun(trace: seq<System>, run: seq<Move>)
    requires Along(trace, run) && W.Inv(trace[0])
    ensures W.Possible(trace[0], run) && W.After(trace[0], run) == trace[|run|]
    decreases |run|
  {
    if run != [] {
      assert Makes(trace[0], run[0], trace[1]);
      W.StepInv(trace[0], run[0]);
      AlongRest(trace, run);
      AlongRun(trace[1..], run[1..]);
    }
  }

  lemma AlongRest(trace: seq<System>, run: seq<Move>)
    requires Along(trace, run) && run != []
    ensures Along(trace[1..], run[1..]) && trace[1..][|run| - 1] == trace[|run|]
  {
    forall i | 0 <= i < |run| - 1 ensures Makes(trace[1..][i], run[1..][i], trace[1..][i + 1]) {
      assert Makes(trace[i + 1], run[i + 1], trace[i + 2]);
    }
  }

  lemma {:induction false} LeadsRun(s: System, run: seq<Move>, s': System)
    requires W.Inv(s) && Leads(s, run, s')
    ensures W.Possible(s, run) && W.After(s, run) == s' && W.Inv(s')
  {
    var trace :| Along(trace, run) && trace[0] == s && trace[|run|] == s';
    AlongRun(trace, run);
  }

  lemma {:induction false} LeadsOn(s: System, a: seq<Move>, s1: System, b: seq<Move>, s2: System)
    requires Leads(s, a, s1) && Leads(s1, b, s2)
    ensures Leads(s, a + b, s2)
  {
    var ta :| Along(ta, a) && ta[0] == s && ta[|a|] == s1;
    var tb :| Along(tb, b) && tb[0] == s1 && tb[|b|] == s2;
    AlongOn(ta, a, tb, b);
  }

  lemma AlongOn(ta: seq<System>, a: seq<Move>, tb: seq<System>, b: seq<Move>)
    requires Along(ta, a) && Along(tb, b) && ta[|a|] == tb[0]
    ensures Along(ta + tb[1..], a + b) && (ta + tb[1..])[0] == ta[0] && (ta + tb[1..])[|a + b|] == tb[|b|]
  {
    var trace, run := ta + tb[1..], a + b;
    forall i | 0 <= i < |run| ensures Makes(trace[i], run[i], trace[i + 1]) {
      if i < |a| {
        assert Makes(ta[i], a[i], ta[i + 1]);
      } else {
        assert Makes(tb[i - |a|], b[i - |a|], tb[i - |a| + 1]);
        assert trace[i] == tb[i - |a|];
      }
    }
  }

  lemma LeadsStep(s: System, m: Move)
    requires W.Can(s, m) && Ready(s, m)
    ensures Leads(s, [m], W.Next(s, m))
  {
    var trace := [s, W.Next(s, m)];
    assert Makes(trace[0], [m][0], trace[1]);
    assert Along(trace, [m]);
  }
  // The same system but for this worker's scheduler.
  ghost function Moved(s: System, w: nat, sched: H.Scheduler): System {
    s.(scheds := s.scheds[w := sched])
  }

  lemma WorkerEffect(s: System, w: nat, e: H.Step)
    requires W.Can(s, WorkerStep(w, e))
    ensures W.Next(s, WorkerStep(w, e)) == Moved(s, w, H.Next(s.scheds[w], e))
  {
  }

  lemma AskEffect(s: System, w: nat, call: nat, d: nat)
    requires W.Can(s, Ask(w, call, d))
    ensures W.Next(s, Ask(w, call, d)) == Moved(s, w, H.Next(s.scheds[w], H.Allocate(call, d)))
  {
  }

  lemma {:induction false} WorkerMoves(s: System, w: nat, sched: H.Scheduler, e: H.Step, sched': H.Scheduler)
    requires !e.Allocate? && H.Can(sched, e) && sched' == H.Next(sched, e)
    ensures Leads(Moved(s, w, sched), [WorkerStep(w, e)], Moved(s, w, sched'))
  {
    LeadsStep(Moved(s, w, sched), WorkerStep(w, e));
    WorkerEffect(Moved(s, w, sched), w, e);
    assert s.scheds[w := sched][w := sched'] == s.scheds[w := sched'];
  }

  lemma {:induction false} AskMoves(s: System, w: nat, call: nat, d: nat, sched: H.Scheduler)
    requires W.Can(s, Ask(w, call, d)) && sched == H.Next(s.scheds[w], H.Allocate(call, d))
    ensures Leads(s, [Ask(w, call, d)], Moved(s, w, sched))
  {
    LeadsStep(s, Ask(w, call, d));
    AskEffect(s, w, call, d);
  }

  // Asking, launching and registering, one after the other.
  function Creating(w: nat, call: nat, d: nat, h: nat, id: nat, port: string): seq<Move> {
    [Ask(w, call, d)] + [WorkerStep(w, H.LaunchOk(call))] + [WorkerStep(w, H.RegisterCheck(h, id, port))] +
    [WorkerStep(w, H.RegisterFile(h))]
  }

  lemma {:induction false} Creates(s: System, w: nat, call: nat, d: nat, h: nat, port: string)
    returns (sched: H.Scheduler)
    requires Askable(s, w, call, d, h)
    ensures var id := s.scheds[w].issued + 1;
            && Leads(s, Creating(w, call, d, h, id, port), Moved(s, w, sched))
            && sched.address == s.scheds[w].address && call in sched.calls
            && sched.calls[call] == H.Answered(id, d, H.Reply(true, w, sched.address, id, port))
  {
    var id := s.scheds[w].issued + 1;
    var a1, a2 := Launches(s, w, call, d, h);
    var a3;
    a3, sched := RegistersNext(s, w, call, d, h, port, a2);
    LeadsFour(s, Ask(w, call, d), Moved(s, w, a1), WorkerStep(w, H.LaunchOk(call)), Moved(s, w, a2),
              WorkerStep(w, H.RegisterCheck(h, id, port)), Moved(s, w, a3), WorkerStep(w, H.RegisterFile(h)),
              Moved(s, w, sched));
  }

  ghost predicate Askable(s: System, w: nat, call: nat, d: nat, h: nat) {
    && w in s.scheds && H.Inv(s.scheds[w]) && s.scheds[w].worker == w
    && w in s.cluster.nodes && d in s.cluster.deployments
    && call !in s.scheds[w].calls && h !in s.scheds[w].checked
  }

  // The scheduler's call has been launched and waits; no registration is under way.
  ghost predicate WaitsFor(a: H.Scheduler, a2: H.Scheduler, call: nat, d: nat, h: nat) {
    && H.Inv(a2) && h !in a2.checked && a2.worker == a.worker && a2.address == a.address
    && call in a2.calls && a2.calls[call] == H.Waiting(a.issued + 1, d)
  }

  lemma {:induction false} Launches(s: System, w: nat, call: nat, d: nat, h: nat)
    returns (a1: H.Scheduler, a2: H.Scheduler)
    requires Askable(s, w, call, d, h)
    ensures Leads(s, [Ask(w, call, d)], Moved(s, w, a1))
    ensures Leads(Moved(s, w, a1), [WorkerStep(w, H.LaunchOk(call))], Moved(s, w, a2))
    ensures WaitsFor(s.scheds[w], a2, call, d, h)
  {
    H.LaunchWaits(s.scheds[w], call, d);
    a1 := H.Next(s.scheds[w], H.Allocate(call, d));
    a2 := H.Next(a1, H.LaunchOk(call));
    AskMoves(s, w, call, d, a1);
    WorkerMoves(s, w, a1, H.LaunchOk(call), a2);
  }

  lemma {:induction false} RegistersNext(s: System, w: nat, call: nat, d: nat, h: nat, port: string, a2: H.Scheduler)
    returns (a3: H.Scheduler, a4: H.Scheduler)
    requires Askable(s, w, call, d, h) && WaitsFor(s.scheds[w], a2, call, d, h)
    ensures var id := s.scheds[w].issued + 1;
            && Leads(Moved(s, w, a2), [WorkerStep(w, H.RegisterCheck(h, id, port))], Moved(s, w, a3))
            && Leads(Moved(s, w, a3), [WorkerStep(w, H.RegisterFile(h))], Moved(s, w, a4))
            && a4.address == s.scheds[w].address && call in a4.calls
            && a4.calls[call] == H.Answered(id, d, H.Reply(true, w, a4.address, id, port))
  {
    var id := s.scheds[w].issued + 1;
    H.WaitingIsAnswered(a2, call, h, port);
    a3 := H.Next(a2, H.RegisterCheck(h, id, port));
    a4 := H.Next(a3, H.RegisterFile(h));
    WorkerMoves(s, w, a2, H.RegisterCheck(h, id, port), a3);
    WorkerMoves(s, w, a3, H.RegisterFile(h), a4);
  }

  lemma {:induction false} LeadsFour(s: System, m1: Move, s1: System, m2: Move, s2: System, m3: Move, s3: System,
                                     m4: Move, s4: System)
    requires Leads(s, [m1], s1) && Leads(s1, [m2], s2) && Leads(s2, [m3], s3) && Leads(s3, [m4], s4)
    ensures Leads(s, [m1] + [m2] + [m3] + [m4], s4)
  {
    LeadsOn(s, [m1], s1, [m2], s2);
    LeadsOn(s, [m1] + [m2], s2, [m3], s3);
    LeadsOn(s, [m1] + [m2] + [m3], s3, [m4], s4);
  }

  // The deployments with one more replica.
  function OneMore(ds: map<nat, Deployment>, d: nat, m: ReplicaMsg): map<nat, Deployment>
    requires d in ds
  {
    ds[d := ds[d].(replicas := ds[d].replicas + [m])]
  }

  // Filed and published, with the streams as they were.
  ghost predicate FiledAs(s: System, s': System, d: nat, m: ReplicaMsg)
    requires d in s.cluster.deployments
  {
    && s'.cluster.deployments == OneMore(s.cluster.deployments, d, m)
    && s'.proxies == s.proxies && s'.feed.views == s.feed.views && s'.feed.subs.Keys == s.feed.subs.Keys
    && W.Current(s'.feed.history, s'.cluster)
  }

  lemma ReceiptCluster(s: System, w: nat, call: nat, ts: int)
    requires W.Inv(s) && PositiveReceipt(s, Receive(w, call, ts))
    ensures var sched := s.scheds[w];
            var c := sched.calls[call];
            var m := ReplicaMsg(Key(w, c.id), sched.address + ":" + c.reply.port, "RUNNING");
            && sched.calls[call].dep in s.cluster.deployments
            && ClusterAfter(s, Receive(w, call, ts)).deployments ==
               OneMore(s.cluster.deployments, sched.calls[call].dep, m)
  {
    var sched := s.scheds[w];
    var dep, id, port := sched.calls[call].dep, sched.calls[call].id, sched.calls[call].reply.port;
    assert WorkerOk(sched, w, s.cluster);
    PositiveAnswer(sched, w, s.cluster, call);
    SingleAdd(s.cluster, dep, w, Content(id, port), 0, 0, sched.address);
  }

  lemma {:induction false} ReceiptFiles(s: System, w: nat, call: nat, ts: int)
    requires W.Inv(s) && PositiveReceipt(s, Receive(w, call, ts))
    ensures var sched := s.scheds[w];
            var c := sched.calls[call];
            var m := ReplicaMsg(Key(w, c.id), sched.address + ":" + c.reply.port, "RUNNING");
            && Ready(s, Receive(w, call, ts))
            && Leads(s, [Receive(w, call, ts)], W.Next(s, Receive(w, call, ts)))
            && sched.calls[call].dep in s.cluster.deployments
            && FiledAs(s, W.Next(s, Receive(w, call, ts)), sched.calls[call].dep, m)
  {
    AlwaysReady(s, Receive(w, call, ts));
    LeadsStep(s, Receive(w, call, ts));
    ReceiptCluster(s, w, call, ts);
    RepublishedParts(s.feed, RoutingTable(ClusterAfter(s, Receive(w, call, ts))), ts);
  }

  lemma RepublishedParts(f: F.Feed<Table>, table: Table, ts: int)
    ensures var f' := Republished(f, table, ts);
            && f'.views == f.views && f'.subs.Keys == f.subs.Keys && f'.history == f.history + [table]
            && f'.latest == Some(F.Snap(ts, table, |f.history|)) && f'.published == f'.latest
  {
  }

  lemma {:induction false} NodeMoves(s: System, w: nat)
    requires W.Inv(s) && w in s.scheds
    ensures var s' := s.(cluster := AddNode(s.cluster, w));
            Leads(s, [RegisterNode(w)], s')
  {
    LeadsStep(s, RegisterNode(w));
    NodeEffect(s, w);
  }

  lemma NodeEffect(s: System, w: nat)
    requires w in s.scheds
    ensures W.Next(s, RegisterNode(w)) == s.(cluster := AddNode(s.cluster, w))
  {
  }

  // A worker's node registers, is asked for a replica, and the head files the answer.
  function Filing(w: nat, call: nat, d: nat, h: nat, id: nat, port: string, ts: int): seq<Move> {
    [RegisterNode(w)] + (Creating(w, call, d, h, id, port) + [Receive(w, call, ts)])
  }

  ghost predicate NewLabels(s: System, w: nat, call: nat, h: nat) {
    w in s.scheds && call !in s.scheds[w].calls && (w, call) !in s.received && h !in s.scheds[w].checked
  }

  lemma {:induction false} Files(s: System, w: nat, call: nat, d: nat, h: nat, port: string, ts: int)
    returns (s': System)
    requires W.Inv(s) && d in s.cluster.deployments && NewLabels(s, w, call, h)
    ensures var id := s.scheds[w].issued + 1;
            && Leads(s, Filing(w, call, d, h, id, port, ts), s')
            && FiledAs(s, s', d, ReplicaMsg(Key(w, id), s.scheds[w].address + ":" + port, "RUNNING"))
  {
    var id := s.scheds[w].issued + 1;
    NodeMoves(s, w);
    var s1 := s.(cluster := AddNode(s.cluster, w));
    s' := FilesNew(s, s1, w, call, d, h, port, ts);
    LeadsOn(s, [RegisterNode(w)], s1, Creating(w, call, d, h, id, port) + [Receive(w, call, ts)], s');
  }

  lemma {:induction false} FilesNew(s0: System, s: System, w: nat, call: nat, d: nat, h: nat, port: string, ts: int)
    returns (s': System)
    requires W.Inv(s0) && Leads(s0, [RegisterNode(w)], s)
    requires d in s.cluster.deployments && NewLabels(s, w, call, h) && w in s.cluster.nodes
    ensures var id := s.scheds[w].issued + 1;
            && Leads(s, Creating(w, call, d, h, id, port) + [Receive(w, call, ts)], s')
            && FiledAs(s, s', d, ReplicaMsg(Key(w, id), s.scheds[w].address + ":" + port, "RUNNING"))
  {
    var id := s.scheds[w].issued + 1;
    LeadsInv(s0, [RegisterNode(w)], s);
    SchedulerOk(s, w);
    var sched := Creates(s, w, call, d, h, port);
    LeadsInv(s, Creating(w, call, d, h, id, port), Moved(s, w, sched));
    s' := FilesAnswer(s, w, sched, call, d, id, port, ts);
    LeadsOn(s, Creating(w, call, d, h, id, port), Moved(s, w, sched), [Receive(w, call, ts)], s');
  }

  lemma SchedulerOk(s: System, w: nat)
    requires W.Inv(s) && w in s.scheds
    ensures H.Inv(s.scheds[w]) && s.scheds[w].worker == w
  {
    assert WorkerOk(s.scheds[w], w, s.cluster);
  }

  lemma {:induction false} LeadsInv(s: System, run: seq<Move>, s': System)
    requires W.Inv(s) && Leads(s, run, s')
    ensures W.Inv(s')
  {
    LeadsRun(s, run, s');
  }

  lemma {:induction false} FilesAnswer(s: System, w: nat, sched: H.Scheduler, call: nat, d: nat, id: nat, port: string,
                                       ts: int)
    returns (s': System)
    requires W.Inv(Moved(s, w, sched)) && (w, call) !in s.received && d in s.cluster.deployments
    requires call in sched.calls
    requires sched.calls[call] == H.Answered(id, d, H.Reply(true, w, sched.address, id, port))
    ensures Leads(Moved(s, w, sched), [Receive(w, call, ts)], s')
    ensures FiledAs(s, s', d, ReplicaMsg(Key(w, id), sched.address + ":" + port, "RUNNING"))
  {
    ReceiptFiles(Moved(s, w, sched), w, call, ts);
    s' := W.Next(Moved(s, w, sched), Receive(w, call, ts));
  }

  // A proxy leaves the stream it reads, if any, subscribes anew and applies the first
  // snapshot it is sent.
  function Connecting(f: F.Feed<Table>, p: nat, sid: nat, ts: int, deps: seq<DeploymentMsg>): seq<Move> {
    (if p in f.views && f.views[p].conn.Some? then [FeedStep(F.Disconnect(p))] else []) +
    ([FeedStep(F.Subscribe(sid, p, ts))] + [Apply(p, deps)])
  }

  // The proxy reads a stream whose next snapshot is the head's current table.
  ghost predicate AboutToShow(s: System, s1: System, p: nat) {
    && F.Can(s1.feed, F.Deliver(p)) && NextUp(s1.feed, p).table == RoutingTable(s.cluster)
    && s1.cluster == s.cluster && s1.proxies == s.proxies
  }

  lemma {:induction false} Subscribes(s: System, p: nat, sid: nat, ts: int) returns (s1: System)
    requires W.Current(s.feed.history, s.cluster)
    requires F.Unused(s.feed, sid) && (p in s.feed.views ==> s.feed.views[p].conn.None?)
    ensures Leads(s, [FeedStep(F.Subscribe(sid, p, ts))], s1) && AboutToShow(s, s1, p)
  {
    LeadsStep(s, FeedStep(F.Subscribe(sid, p, ts)));
    s1 := W.Next(s, FeedStep(F.Subscribe(sid, p, ts)));
    assert NextUp(s1.feed, p) == F.Newest(s.feed, ts);
  }

  lemma {:induction false} AppliesNext(s: System, s1: System, p: nat, deps: seq<DeploymentMsg>) returns (s': System)
    requires W.Inv(s1) && AboutToShow(s, s1, p) && p in s.proxies && Walks(deps, RoutingTable(s.cluster))
    ensures CanDo(s.proxies[p], ApplyUpdate(deps)) && Valid(s.proxies[p])
    ensures Leads(s1, [Apply(p, deps)], s')
    ensures s'.cluster == s.cluster && p in s'.proxies && s'.proxies[p] == Act(s.proxies[p], ApplyUpdate(deps))
  {
    ApplyPossible(s1, p, deps);
    LeadsStep(s1, Apply(p, deps));
    s' := W.Next(s1, Apply(p, deps));
  }

  lemma {:induction false} Shown(s: System, p: nat, sid: nat, ts: int, deps: seq<DeploymentMsg>)
    returns (s': System)
    requires W.Inv(s) && W.Current(s.feed.history, s.cluster) && p in s.proxies
    requires F.Unused(s.feed, sid) && (p in s.feed.views ==> s.feed.views[p].conn.None?)
    requires Walks(deps, RoutingTable(s.cluster))
    ensures CanDo(s.proxies[p], ApplyUpdate(deps)) && Valid(s.proxies[p])
    ensures Leads(s, [FeedStep(F.Subscribe(sid, p, ts))] + [Apply(p, deps)], s')
    ensures s'.cluster == s.cluster && p in s'.proxies && s'.proxies[p] == Act(s.proxies[p], ApplyUpdate(deps))
  {
    var s1 := Subscribes(s, p, sid, ts);
    LeadsInv(s, [FeedStep(F.Subscribe(sid, p, ts))], s1);
    s' := AppliesNext(s, s1, p, deps);
    LeadsOn(s, [FeedStep(F.Subscribe(sid, p, ts))], s1, [Apply(p, deps)], s');
  }

  // Free to subscribe, with nothing else changed.
  ghost predicate Left(s: System, s1: System, p: nat, sid: nat) {
    && s1.cluster == s.cluster && s1.proxies == s.proxies && W.Current(s1.feed.history, s.cluster)
    && F.Unused(s1.feed, sid) && (p in s1.feed.views ==> s1.feed.views[p].conn.None?)
  }

  lemma {:induction false} Leaves(s: System, p: nat, sid: nat) returns (s1: System)
    requires W.Current(s.feed.history, s.cluster)
    requires p in s.feed.views && s.feed.views[p].conn.Some? && F.Unused(s.feed, sid)
    ensures Leads(s, [FeedStep(F.Disconnect(p))], s1) && Left(s, s1, p, sid)
  {
    LeadsStep(s, FeedStep(F.Disconnect(p)));
    s1 := W.Next(s, FeedStep(F.Disconnect(p)));
  }

  lemma {:induction false} Connects(s: System, p: nat, sid: nat, ts: int, deps: seq<DeploymentMsg>)
    returns (s': System)
    requires W.Inv(s) && W.Current(s.feed.history, s.cluster) && p in s.proxies && F.Unused(s.feed, sid)
    requires Walks(deps, RoutingTable(s.cluster))
    ensures CanDo(s.proxies[p], ApplyUpdate(deps)) && Valid(s.proxies[p])
    ensures Leads(s, Connecting(s.feed, p, sid, ts, deps), s')
    ensures s'.cluster == s.cluster && p in s'.proxies && s'.proxies[p] == Act(s.proxies[p], ApplyUpdate(deps))
  {
    var run := [FeedStep(F.Subscribe(sid, p, ts))] + [Apply(p, deps)];
    if p in s.feed.views && s.feed.views[p].conn.Some? {
      var s1 := Leaves(s, p, sid);
      s' := Reconnects(s, s1, p, sid, ts, deps);
    } else {
      s' := Shown(s, p, sid, ts, deps);
      assert [] + run == run;
    }
  }

  lemma {:induction false} Reconnects(s: System, s1: System, p: nat, sid: nat, ts: int, deps: seq<DeploymentMsg>)
    returns (s': System)
    requires W.Inv(s) && Leads(s, [FeedStep(F.Disconnect(p))], s1) && Left(s, s1, p, sid) && p in s.proxies
    requires Walks(deps, RoutingTable(s.cluster))
    ensures CanDo(s.proxies[p], ApplyUpdate(deps)) && Valid(s.proxies[p])
    ensures Leads(s, [FeedStep(F.Disconnect(p))] + ([FeedStep(F.Subscribe(sid, p, ts))] + [Apply(p, deps)]), s')
    ensures s'.cluster == s.cluster && p in s'.proxies && s'.proxies[p] == Act(s.proxies[p], ApplyUpdate(deps))
  {
    LeadsInv(s, [FeedStep(F.Disconnect(p))], s1);
    s' := Shown(s1, p, sid, ts, deps);
    LeadsOn(s, [FeedStep(F.Disconnect(p))], s1, [FeedStep(F.Subscribe(sid, p, ts))] + [Apply(p, deps)], s');
  }

  lemma ServeEffect(s: System, p: nat, a: Action)
    requires W.Can(s, Serve(p, a)) && Ready(s, Serve(p, a))
    ensures W.Next(s, Serve(p, a)) == s.(proxies := s.proxies[p := Act(s.proxies[p], a)])
  {
  }

  lemma {:induction false} ServesTwo(s: System, p: nat, a: Action, b: Action)
    requires p in s.proxies && !a.ApplyUpdate? && !b.ApplyUpdate?
    requires Valid(s.proxies[p]) && CanDo(s.proxies[p], a)
    requires Valid(Act(s.proxies[p], a)) && CanDo(Act(s.proxies[p], a), b)
    ensures Leads(s, [Serve(p, a)] + [Serve(p, b)],
                  s.(proxies := s.proxies[p := Act(Act(s.proxies[p], a), b)]))
  {
    LeadsStep(s, Serve(p, a));
    ServeEffect(s, p, a);
    var s1 := s.(proxies := s.proxies[p := Act(s.proxies[p], a)]);
    LeadsStep(s1, Serve(p, b));
    ServeEffect(s1, p, b);
    LeadsOn(s, [Serve(p, a)], s1, [Serve(p, b)], W.Next(s1, Serve(p, b)));
    assert s.proxies[p := Act(s.proxies[p], a)][p := Act(Act(s.proxies[p], a), b)] ==
           s.proxies[p := Act(Act(s.proxies[p], a), b)];
  }

  // With different names, the last entry of a walk with a deployment's name is its own.
  lemma {:induction false} LastNamed(deps: seq<DeploymentMsg>, table: Table, d: nat) returns (k: nat)
    requires Walks(deps, table) && DifferentNames(table) && d in table
    ensures IsLast(deps, table[d].name, k) && deps[k] == table[d]
  {
    InstallRange(deps, 0, table[d].name);
    assert table[d] in deps;
    k := Install(deps, 0)[table[d].name];
    assert deps[k].id in table && table[deps[k].id] == deps[k];
  }

  lemma SameTable(c: Cluster, c': Cluster)
    requires c.deployments == c'.deployments
    ensures RoutingTable(c) == RoutingTable(c')
  {
  }

  lemma SameNames(c: Cluster, c': Cluster, d: nat, m: ReplicaMsg)
    requires NamesDiffer(c) && d in c.deployments && c'.deployments == OneMore(c.deployments, d, m)
    ensures DifferentNames(RoutingTable(c'))
  {
    assert forall x :: x in c'.deployments ==> x in c.deployments && c'.deployments[x].name == c.deployments[x].name;
  }

  // The session holds the first of exactly these replicas.
  ghost predicate ServedBy(x: Proxy, session: nat, ms: seq<ReplicaMsg>) {
    && session in x.sessions && x.sessions[session].Holding?
    && x.sessions[session].handle < |x.handles| && x.sessions[session].replica == 0
    && SameList(x.handles[x.sessions[session].handle].rs, ms)
  }

  lemma {:induction false} Serves(s: System, p: nat, deps: seq<DeploymentMsg>, was: Proxy, d: nat, session: nat,
                                  now: int)
    returns (s': System)
    requires p in s.proxies && Valid(was) && CanDo(was, ApplyUpdate(deps))
    requires s.proxies[p] == Act(was, ApplyUpdate(deps)) && session !in was.sessions && was.clock <= now
    requires Walks(deps, RoutingTable(s.cluster)) && DifferentNames(RoutingTable(s.cluster))
    requires d in s.cluster.deployments && s.cluster.deployments[d].replicas != []
    ensures Leads(s, [Serve(p, Open(session, s.cluster.deployments[d].name))] + [Serve(p, ChooseReplica(session, now))],
                  s')
    ensures p in s'.proxies && ServedBy(s'.proxies[p], session, s.cluster.deployments[d].replicas)
  {
    var table := RoutingTable(s.cluster);
    var k := LastNamed(deps, table, d);
    FreshTableServes(was, deps, session, table[d].name, k, now);
    ServesTwo(s, p, Open(session, table[d].name), ChooseReplica(session, now));
    var x := Act(Act(s.proxies[p], Open(session, table[d].name)), ChooseReplica(session, now));
    s' := s.(proxies := s.proxies[p := x]);
  }

  // ---------- the whole way ----------

  // Who is asked for what, under which labels, and who asks for it then.
  datatype Plan = Plan(w: nat, call: nat, d: nat, h: nat, port: string, filed: int, p: nat, sid: nat, sent: int,
                       deps: seq<DeploymentMsg>, session: nat, now: int)

  // The replica that the worker will report.
  function NewReplica(s: System, w: nat, port: string): ReplicaMsg
    requires w in s.scheds
  {
    ReplicaMsg(Key(w, s.scheds[w].issued + 1), s.scheds[w].address + ":" + port, "RUNNING")
  }

  // The labels are new, the proxy walks the coming table in some order, and the deployments
  // have different names.
  ghost predicate Sensible(s: System, a: Plan) {
    && a.d in s.cluster.deployments && NewLabels(s, a.w, a.call, a.h) && NamesDiffer(s.cluster)
    && a.p in s.proxies && F.Unused(s.feed, a.sid)
    && a.session !in s.proxies[a.p].sessions && s.proxies[a.p].clock <= a.now
    && Walks(a.deps, RoutingTable(s.cluster.(
         deployments := OneMore(s.cluster.deployments, a.d, NewReplica(s, a.w, a.port)))))
  }

  function FileMoves(s: System, a: Plan): seq<Move>
    requires a.w in s.scheds
  {
    Filing(a.w, a.call, a.d, a.h, s.scheds[a.w].issued + 1, a.port, a.filed)
  }

  function ServeMoves(a: Plan, name: string): seq<Move> {
    [Serve(a.p, Open(a.session, name))] + [Serve(a.p, ChooseReplica(a.session, a.now))]
  }

  // The worker's node registers and is asked; its process registers; the head files the
  // answer; the proxy reconnects; the session asks for the deployment by name.
  function Story(s: System, a: Plan): seq<Move>
    requires a.w in s.scheds && a.d in s.cluster.deployments
  {
    FileMoves(s, a) + Connecting(s.feed, a.p, a.sid, a.sent, a.deps) + ServeMoves(a, s.cluster.deployments[a.d].name)
  }

  ghost predicate Serving(s: System, p: nat, session: nat, ms: seq<ReplicaMsg>) {
    p in s.proxies && ServedBy(s.proxies[p], session, ms)
  }

  lemma {:induction false} StoryLeads(s: System, a: Plan) returns (s': System)
    requires W.Inv(s) && Sensible(s, a)
    ensures Leads(s, Story(s, a), s')
    ensures Serving(s', a.p, a.session, s.cluster.deployments[a.d].replicas + [NewReplica(s, a.w, a.port)])
  {
    var s1, s2;
    s1, s2, s' := StoryParts(s, a);
    LeadsThree(s, FileMoves(s, a), s1, Connecting(s.feed, a.p, a.sid, a.sent, a.deps), s2,
               ServeMoves(a, s.cluster.deployments[a.d].name), s');
  }

  lemma {:induction false} StoryParts(s: System, a: Plan) returns (s1: System, s2: System, s3: System)
    requires W.Inv(s) && Sensible(s, a)
    ensures Leads(s, FileMoves(s, a), s1)
    ensures Leads(s1, Connecting(s.feed, a.p, a.sid, a.sent, a.deps), s2)
    ensures Leads(s2, ServeMoves(a, s.cluster.deployments[a.d].name), s3)
    ensures Serving(s3, a.p, a.session, s.cluster.deployments[a.d].replicas + [NewReplica(s, a.w, a.port)])
  {
    s1 := FilesPlan(s, a);
    s2, s3 := Finishes(s, s1, a);
  }

  lemma {:induction false} FilesPlan(s: System, a: Plan) returns (s1: System)
    requires W.Inv(s) && a.d in s.cluster.deployments && NewLabels(s, a.w, a.call, a.h)
    ensures Leads(s, FileMoves(s, a), s1) && FiledAs(s, s1, a.d, NewReplica(s, a.w, a.port))
  {
    s1 := Files(s, a.w, a.call, a.d, a.h, a.port, a.filed);
  }

  lemma {:induction false} Finishes(s: System, s1: System, a: Plan) returns (s2: System, s3: System)
    requires W.Inv(s) && Sensible(s, a)
    requires Leads(s, FileMoves(s, a), s1) && FiledAs(s, s1, a.d, NewReplica(s, a.w, a.port))
    ensures Leads(s1, Connecting(s.feed, a.p, a.sid, a.sent, a.deps), s2)
    ensures Leads(s2, ServeMoves(a, s.cluster.deployments[a.d].name), s3)
    ensures Serving(s3, a.p, a.session, s.cluster.deployments[a.d].replicas + [NewReplica(s, a.w, a.port)])
  {
    LeadsInv(s, FileMoves(s, a), s1);
    s2 := ConnectsThen(s, s1, a);
    s3 := ServesThen(s, s1, s2, a);
  }

  lemma {:induction false} LeadsThree(s: System, a: seq<Move>, s1: System, b: seq<Move>, s2: System, c: seq<Move>,
                                      s3: System)
    requires Leads(s, a, s1) && Leads(s1, b, s2) && Leads(s2, c, s3)
    ensures Leads(s, a + b + c, s3)
  {
    LeadsOn(s, a, s1, b, s2);
    LeadsOn(s, a + b, s2, c, s3);
  }

  lemma {:induction false} ConnectsThen(s: System, s1: System, a: Plan) returns (s2: System)
    requires Sensible(s, a) && W.Inv(s1) && FiledAs(s, s1, a.d, NewReplica(s, a.w, a.port))
    ensures CanDo(s1.proxies[a.p], ApplyUpdate(a.deps)) && Valid(s1.proxies[a.p])
    ensures Leads(s1, Connecting(s.feed, a.p, a.sid, a.sent, a.deps), s2)
    ensures s2.cluster == s1.cluster && a.p in s2.proxies
    ensures s2.proxies[a.p] == Act(s1.proxies[a.p], ApplyUpdate(a.deps))
  {
    SameTable(s1.cluster, s.cluster.(deployments := s1.cluster.deployments));
    s2 := Connects(s1, a.p, a.sid, a.sent, a.deps);
  }

  lemma {:induction false} ServesThen(s: System, s1: System, s2: System, a: Plan) returns (s': System)
    requires Sensible(s, a) && FiledAs(s, s1, a.d, NewReplica(s, a.w, a.port))
    requires Valid(s1.proxies[a.p]) && CanDo(s1.proxies[a.p], ApplyUpdate(a.deps))
    requires s2.cluster == s1.cluster && a.p in s2.proxies
    requires s2.proxies[a.p] == Act(s1.proxies[a.p], ApplyUpdate(a.deps))
    ensures Leads(s2, ServeMoves(a, s.cluster.deployments[a.d].name), s')
    ensures Serving(s', a.p, a.session, s.cluster.deployments[a.d].replicas + [NewReplica(s, a.w, a.port)])
  {
    SameTable(s2.cluster, s.cluster.(deployments := s1.cluster.deployments));
    SameNames(s.cluster, s2.cluster, a.d, NewReplica(s, a.w, a.port));
    s' := Serves(s2, a.p, a.deps, s1.proxies[a.p], a.d, a.session, a.now);
  }

  // From every reachable state: a worker can register its node and be asked for one more
  // replica of a deployment, its process can register, the head files and publishes it, and
  // once a proxy has reconnected, a session that asks for the deployment by name is served
  // from the list that now ends with the new replica, at the worker's address and the port
  // that the process registered.
  lemma {:induction false} NewReplicaServes(addresses: map<nat, string>, proxies: set<nat>, run: seq<Move>, a: Plan)
    requires Reachable(addresses, proxies, run) && Sensible(Reached(addresses, proxies, run), a)
    ensures var s := Reached(addresses, proxies, run);
            && W.Possible(s, Story(s, a))
            && Serving(W.After(s, Story(s, a)), a.p, a.session,
                       s.cluster.deployments[a.d].replicas + [NewReplica(s, a.w, a.port)])
  {
    var s := Reached(addresses, proxies, run);
    var s' := StoryLeads(s, a);
    LeadsRun(s, Story(s, a), s');
  }
}
