/**
 The C++ proxy's data plane as a state machine: sessions look a deployment up,
 hold a replica of the handle they found, and let go of it, while routing
 updates replace the whole table with handles that start from zero. Retired
 handles live on for the sessions that still use them.
 */
module ProxySessions {
  import opened Common
  import opened Balancer
  import opened ReplicaHandles
  import opened Sums

  datatype Stage = Starting | Streaming | Failing

  // `Looked` has its handle but no replica yet; writing the response header may still
  // fail and end it.
  datatype Session = Looked(handle: nat) | Holding(handle: nat, replica: nat, stage: Stage)

  // Every handle ever made, the current table, the sessions under way, the clock.
  datatype Proxy = Proxy(handles: seq<Handle>, table: map<string, nat>, sessions: map<nat, Session>, clock: int)

  datatype Action =
    | ApplyUpdate(deps: seq<DeploymentMsg>)
    | Open(sid: nat, name: string)
    | HeaderFailed(sid: nat)
    | ChooseReplica(sid: nat, now: int)
    | StartOk(sid: nat)
    | StartFailed(sid: nat, now: int)
    | TokenDelivered(sid: nat)
    | FinishedOk(sid: nat)
    | FinishedBadly(sid: nat, now: int)
    | Unwind(sid: nat)

  const EMPTY := Proxy([], map[], map[], 0)

  // The table an update installs: the last deployment with a name wins.
  function Install(deps: seq<DeploymentMsg>, base: nat): (table: map<string, nat>) {
    if deps == [] then map[]
    else Install(deps[..|deps| - 1], base)[deps[|deps| - 1].name := base + |deps| - 1]
  }

  function StartAll(deps: seq<DeploymentMsg>, clock: int): (handles: seq<Handle>) {
    seq(|deps|, i requires 0 <= i < |deps| => Start(deps[i].replicas, clock))
  }

  ghost predicate HoldsStage(p: Proxy, sid: nat, stage: Stage) {
    sid in p.sessions && p.sessions[sid].Holding? && p.sessions[sid].stage == stage
  }

  ghost predicate CanDo(p: Proxy, a: Action) {
    match a
    case ApplyUpdate(deps) => forall d :: d in deps ==> UniqueMsgs(d.replicas)
    case Open(sid, name) => sid !in p.sessions && name in p.table
    case HeaderFailed(sid) => sid in p.sessions && p.sessions[sid].Looked?
    case ChooseReplica(sid, now) => sid in p.sessions && p.sessions[sid].Looked? && p.clock <= now
    case StartOk(sid) => HoldsStage(p, sid, Starting)
    case StartFailed(sid, now) => HoldsStage(p, sid, Starting) && p.clock <= now
    case TokenDelivered(sid) => HoldsStage(p, sid, Streaming)
    case FinishedOk(sid) => HoldsStage(p, sid, Streaming)
    case FinishedBadly(sid, now) => HoldsStage(p, sid, Streaming) && p.clock <= now
    case Unwind(sid) => sid in p.sessions && p.sessions[sid].Holding?
  }

  // The balancer step an action takes on the handle it touches, if it takes one.
  function HandleStep(a: Action): Option<Step> {
    match a
    case ChooseReplica(sid, now) => Some(Pick(sid, now))
    case StartFailed(sid, now) => Some(Fail(sid, now))
    case FinishedBadly(sid, now) => Some(Fail(sid, now))
    case FinishedOk(sid) => Some(Release(sid))
    case Unwind(sid) => Some(Release(sid))
    case _ => None
  }

  ghost function SessionsAfter(p: Proxy, a: Action): map<nat, Session>
    requires CanDo(p, a) && Valid(p)
  {
    match a
    case ApplyUpdate(deps) => p.sessions
    case Open(sid, name) => p.sessions[sid := Looked(p.table[name])]
    case HeaderFailed(sid) => p.sessions - {sid}
    case ChooseReplica(sid, now) =>
      var g := p.sessions[sid].handle;
      (match Choice(p.handles[g].rs, now)
       case None => p.sessions - {sid}
       case Some(i) => p.sessions[sid := Holding(g, i, Starting)])
    case StartOk(sid) => p.sessions[sid := p.sessions[sid].(stage := Streaming)]
    case StartFailed(sid, now) => p.sessions[sid := p.sessions[sid].(stage := Failing)]
    case TokenDelivered(sid) => p.sessions
    case FinishedOk(sid) => p.sessions - {sid}
    case FinishedBadly(sid, now) => p.sessions[sid := p.sessions[sid].(stage := Failing)]
    case Unwind(sid) => p.sessions - {sid}
  }

  ghost function Act(p: Proxy, a: Action): Proxy
    requires CanDo(p, a) && Valid(p)
  {
    match HandleStep(a)
    case Some(e) =>
      var g := p.sessions[a.sid].handle;
      StepEnabled(p, a);
      Proxy(p.handles[g := Next(p.handles[g], e)], p.table, SessionsAfter(p, a),
            if e.Release? then p.clock else e.now)
    case None =>
      if a.ApplyUpdate?
      then p.(handles := p.handles + StartAll(a.deps, p.clock), table := Install(a.deps, |p.handles|))
      else p.(sessions := SessionsAfter(p, a))
  }

  // ---------- what every action keeps ----------

  // A session that holds a replica is in flight on it, and nothing else is.
  ghost predicate Tied(p: Proxy, g: nat, sid: nat)
    requires g < |p.handles|
  {
    && (sid in p.handles[g].live <==>
        sid in p.sessions && p.sessions[sid].Holding? && p.sessions[sid].handle == g)
    && (sid in p.handles[g].live ==> p.sessions[sid].replica == p.handles[g].live[sid])
  }

  ghost predicate Valid(p: Proxy) {
    && (forall name :: name in p.table ==> p.table[name] < |p.handles|)
    && (forall sid :: sid in p.sessions ==> p.sessions[sid].handle < |p.handles|)
    && (forall g :: 0 <= g < |p.handles| ==> Inv(p.handles[g]) && p.handles[g].clock <= p.clock)
    && (forall g, sid :: 0 <= g < |p.handles| ==> Tied(p, g, sid))
  }

  lemma StepEnabled(p: Proxy, a: Action)
    requires Valid(p) && CanDo(p, a) && HandleStep(a).Some?
    ensures Enabled(p.handles[p.sessions[a.sid].handle], HandleStep(a).value)
  {
    var g := p.sessions[a.sid].handle;
    assert Tied(p, g, a.sid);
    assert Inv(p.handles[g]);
  }

  lemma {:induction false} InstallRange(deps: seq<DeploymentMsg>, base: nat, name: string)
    ensures name in Install(deps, base) <==> exists k :: 0 <= k < |deps| && deps[k].name == name
    ensures name in Install(deps, base) ==>
              var k := Install(deps, base)[name] - base;
              0 <= k < |deps| && deps[k].name == name && forall j :: k < j < |deps| ==> deps[j].name != name
  {
    if deps != [] {
      var front := deps[..|deps| - 1];
      InstallRange(front, base, name);
      assert forall k :: 0 <= k < |front| ==> front[k] == deps[k];
    }
  }

  lemma UpdateValid(p: Proxy, deps: seq<DeploymentMsg>)
    requires Valid(p) && CanDo(p, ApplyUpdate(deps))
    ensures Valid(Act(p, ApplyUpdate(deps)))
  {
    var p' := Act(p, ApplyUpdate(deps));
    forall name | name in p'.table ensures p'.table[name] < |p'.handles| {
      InstallRange(deps, |p.handles|, name);
    }
    forall g | 0 <= g < |p'.handles| ensures Inv(p'.handles[g]) && p'.handles[g].clock <= p'.clock {
      if g >= |p.handles| {
        assert deps[g - |p.handles|] in deps;
        StartInv(deps[g - |p.handles|].replicas, p.clock);
      }
    }
    forall g, sid | 0 <= g < |p'.handles| ensures Tied(p', g, sid) {
      if g < |p.handles| {
        assert Tied(p, g, sid);
      }
    }
  }

  lemma StepTied(p: Proxy, a: Action, g: nat, sid: nat)
    requires Valid(p) && CanDo(p, a) && HandleStep(a).Some? && g < |p.handles|
    ensures Tied(Act(p, a), g, sid)
  {
    StepEnabled(p, a);
    assert Tied(p, g, sid) && Tied(p, g, a.sid);
  }

  lemma StepValid(p: Proxy, a: Action)
    requires Valid(p) && CanDo(p, a) && HandleStep(a).Some?
    ensures Valid(Act(p, a))
  {
    StepEnabled(p, a);
    StepInv(p.handles[p.sessions[a.sid].handle], HandleStep(a).value);
    forall g, sid | 0 <= g < |p.handles| ensures Tied(Act(p, a), g, sid) {
      StepTied(p, a, g, sid);
    }
  }

  lemma ActValid(p: Proxy, a: Action)
    requires Valid(p) && CanDo(p, a)
    ensures Valid(Act(p, a))
  {
    if HandleStep(a).Some? {
      StepValid(p, a);
    } else if a.ApplyUpdate? {
      UpdateValid(p, a.deps);
    } else {
      var p' := Act(p, a);
      forall g, sid | 0 <= g < |p'.handles| ensures Tied(p', g, sid) {
        assert Tied(p, g, sid);
      }
    }
  }

  // ---------- runs ----------

  ghost predicate Possible(p: Proxy, run: seq<Action>)
    requires Valid(p)
    decreases |run|
  {
    run == [] || (CanDo(p, run[0]) && (ActValid(p, run[0]); Possible(Act(p, run[0]), run[1..])))
  }

  ghost function After(p: Proxy, run: seq<Action>): (p': Proxy)
    requires Valid(p) && Possible(p, run)
    ensures Valid(p')
    decreases |run|
  {
    if run == [] then p else ActValid(p, run[0]); After(Act(p, run[0]), run[1..])
  }

  // The sessions that hold replica `i` through handle `g`.
  ghost function SessionsOn(p: Proxy, g: nat, i: nat): set<nat> {
    set sid | && sid in p.sessions && p.sessions[sid].Holding?
              && p.sessions[sid].handle == g && p.sessions[sid].replica == i
  }

  lemma CountsSessions(p: Proxy, g: nat, i: nat)
    requires Valid(p) && g < |p.handles| && i < |p.handles[g].rs|
    ensures p.handles[g].rs[i].active == |SessionsOn(p, g, i)|
  {
    assert Inv(p.handles[g]);
    forall sid ensures sid in SessionsOn(p, g, i) <==> sid in Holders(p.handles[g].live, i) {
      assert Tied(p, g, sid);
    }
    assert SessionsOn(p, g, i) == Holders(p.handles[g].live, i);
  }

  // Whatever the interleaving of sessions and table swaps, and wherever a callback
  // throws: each counter on each current or retired handle is the number of
  // sessions holding that replica through that handle, and all are zero once the
  // sessions have ended.
  lemma {:induction false} Conservation(run: seq<Action>)
    requires Possible(EMPTY, run)
    ensures var p := After(EMPTY, run);
            && (forall g, i :: 0 <= g < |p.handles| && 0 <= i < |p.handles[g].rs| ==>
                p.handles[g].rs[i].active == |SessionsOn(p, g, i)|)
            && (p.sessions == map[] ==> forall g, i :: 0 <= g < |p.handles| && 0 <= i < |p.handles[g].rs| ==>
                p.handles[g].rs[i].active == 0)
  {
    var p := After(EMPTY, run);
    forall g, i | 0 <= g < |p.handles| && 0 <= i < |p.handles[g].rs|
      ensures p.handles[g].rs[i].active == |SessionsOn(p, g, i)|
      ensures p.sessions == map[] ==> p.handles[g].rs[i].active == 0
    {
      CountsSessions(p, g, i);
      if p.sessions == map[] {
        assert SessionsOn(p, g, i) == {};
      }
    }
  }

  // Seen from one handle, whatever the proxy does is a step of that handle's
  // balancer or nothing at all; a swap only ever adds handles.
  lemma Projection(p: Proxy, a: Action, g: nat)
    requires Valid(p) && CanDo(p, a) && g < |p.handles|
    ensures g < |Act(p, a).handles|
    ensures Act(p, a).handles[g] == p.handles[g] ||
            exists e :: Enabled(p.handles[g], e) && Act(p, a).handles[g] == Next(p.handles[g], e)
  {
    if HandleStep(a).Some? {
      StepEnabled(p, a);
    }
  }

  // The handle is where some run of the balancer leads from a fresh start.
  ghost predicate IsRun(h: Handle) {
    exists ms, clock, steps :: RunTo(h, ms, clock, steps)
  }

  ghost predicate RunTo(h: Handle, ms: seq<ReplicaMsg>, clock: int, steps: seq<Step>) {
    UniqueMsgs(ms) && Feasible(Start(ms, clock), steps) && Run(Start(ms, clock), steps) == h
  }

  lemma {:induction false} OneMoreStep(h: Handle, steps: seq<Step>, e: Step)
    requires Feasible(h, steps) && Enabled(Run(h, steps), e)
    ensures Feasible(h, steps + [e]) && Run(h, steps + [e]) == Next(Run(h, steps), e)
    decreases |steps|
  {
    if steps == [] {
      assert [] + [e] == [e] && [e][1..] == [];
      assert Feasible(Next(h, e), []) && Run(Next(h, e), []) == Next(h, e);
    } else {
      OneMoreStep(Next(h, steps[0]), steps[1..], e);
      assert (steps + [e])[1..] == steps[1..] + [e] && (steps + [e])[0] == steps[0];
    }
  }

  lemma StaysRun(h: Handle, e: Step)
    requires IsRun(h) && Enabled(h, e)
    ensures IsRun(Next(h, e))
  {
    var ms, clock, steps :| RunTo(h, ms, clock, steps);
    OneMoreStep(Start(ms, clock), steps, e);
    assert RunTo(Next(h, e), ms, clock, steps + [e]);
  }

  lemma ActRun(p: Proxy, a: Action, g: nat)
    requires Valid(p) && CanDo(p, a) && g < |Act(p, a).handles|
    requires g < |p.handles| ==> IsRun(p.handles[g])
    ensures IsRun(Act(p, a).handles[g])
  {
    if g < |p.handles| {
      Projection(p, a, g);
      if Act(p, a).handles[g] != p.handles[g] {
        var e :| Enabled(p.handles[g], e) && Act(p, a).handles[g] == Next(p.handles[g], e);
        StaysRun(p.handles[g], e);
      }
    } else {
      var d := a.deps[g - |p.handles|];
      assert d in a.deps;
      assert RunTo(Start(d.replicas, p.clock), d.replicas, p.clock, []);
    }
  }

  lemma {:induction false} RunsFrom(p: Proxy, run: seq<Action>, g: nat)
    requires Valid(p) && Possible(p, run) && g < |After(p, run).handles|
    requires g < |p.handles| ==> IsRun(p.handles[g])
    ensures IsRun(After(p, run).handles[g])
    decreases |run|
  {
    if run != [] {
      ActValid(p, run[0]);
      if g < |Act(p, run[0]).handles| {
        ActRun(p, run[0], g);
      }
      RunsFrom(Act(p, run[0]), run[1..], g);
    }
  }

  // Every current or retired handle, whatever the interleaving and the swaps, is a run
  // of the balancer from a fresh start; so what holds over those runs holds here.
  lemma {:induction false} GenerationIsRun(run: seq<Action>, g: nat)
    requires Possible(EMPTY, run) && g < |After(EMPTY, run).handles|
    ensures IsRun(After(EMPTY, run).handles[g])
  {
    RunsFrom(EMPTY, run, g);
  }

  // Within each handle generation, across any swaps: the replica a session is
  // given failed longer than the cooldown ago, if ever, and a session is turned
  // away exactly when all of them failed within it.
  lemma {:induction false} CooldownPerGeneration(run: seq<Action>, sid: nat, now: int)
    requires Possible(EMPTY, run)
    requires CanDo(After(EMPTY, run), ChooseReplica(sid, now))
    ensures var p := After(EMPTY, run);
            var h := p.handles[p.sessions[sid].handle];
            var p' := Act(p, ChooseReplica(sid, now));
            && |h.fails| == |h.rs|
            && (sid in p'.sessions ==> p'.sessions[sid].replica < |h.rs|)
            && (sid in p'.sessions ==> forall t :: t in h.fails[p'.sessions[sid].replica] ==> now - t > 15_000_000_000)
            && (sid !in p'.sessions <==> forall i :: 0 <= i < |h.rs| ==> RecentlyFailed(h.fails[i], now))
  {
    var p := After(EMPTY, run);
    var h := p.handles[p.sessions[sid].handle];
    GenerationIsRun(run, p.sessions[sid].handle);
    var ms, clock, steps :| RunTo(h, ms, clock, steps);
    assert Inv(h) && h.clock <= p.clock;
    CooldownSafety(ms, clock, steps, now);
  }

  // At most `m` sessions ever hold replicas through handle `g`, and `k` of its
  // replicas can take a session whenever one is chosen.
  ghost predicate WithinLoad(p: Proxy, run: seq<Action>, g: nat, m: nat, k: nat)
    requires Valid(p) && Possible(p, run)
    decreases |run|
  {
    && (g < |p.handles| ==> |p.handles[g].live| <= m)
    && (run == [] ||
        (&& (g < |p.handles| && run[0].ChooseReplica? && p.sessions[run[0].sid].handle == g ==>
             EligibleCount(p.handles[g].rs, |p.handles[g].rs|, run[0].now) >= k)
         && (ActValid(p, run[0]); WithinLoad(Act(p, run[0]), run[1..], g, m, k))))
  }

  ghost predicate Bounded(p: Proxy, g: nat, bound: nat) {
    g < |p.handles| ==> LoadAtMost(p.handles[g].rs, bound)
  }

  lemma ActLoad(p: Proxy, a: Action, g: nat, m: nat, k: nat)
    requires Valid(p) && CanDo(p, a) && k > 0 && Bounded(p, g, CeilDiv(m, k))
    requires g < |p.handles| && a.ChooseReplica? && p.sessions[a.sid].handle == g ==>
               EligibleCount(p.handles[g].rs, |p.handles[g].rs|, a.now) >= k
    requires g < |Act(p, a).handles| ==> |Act(p, a).handles[g].live| <= m
    ensures Bounded(Act(p, a), g, CeilDiv(m, k))
  {
    if HandleStep(a).Some? && p.sessions[a.sid].handle == g {
      StepEnabled(p, a);
      StepLoad(p.handles[g], HandleStep(a).value, m, k);
    }
  }

  // The load bound holds on every generation of every deployment's handle.
  lemma {:induction false} LoadBoundPerGeneration(p: Proxy, run: seq<Action>, g: nat, m: nat, k: nat)
    requires Valid(p) && Possible(p, run) && k > 0
    requires WithinLoad(p, run, g, m, k) && Bounded(p, g, CeilDiv(m, k))
    ensures Bounded(After(p, run), g, CeilDiv(m, k))
    decreases |run|
  {
    if run != [] {
      ActValid(p, run[0]);
      ActLoad(p, run[0], g, m, k);
      LoadBoundPerGeneration(Act(p, run[0]), run[1..], g, m, k);
    }
  }

  // ---------- what a session is given ----------

  // `deps[k]` is the last deployment with this name.
  ghost predicate IsLast(deps: seq<DeploymentMsg>, name: string, k: int) {
    0 <= k < |deps| && deps[k].name == name && forall j :: k < j < |deps| ==> deps[j].name != name
  }

  // Handle `g` has the replicas of the last deployment with this name.
  ghost predicate ServesLast(p: Proxy, g: nat, deps: seq<DeploymentMsg>, name: string) {
    g < |p.handles| && exists k :: IsLast(deps, name, k) && SameList(p.handles[g].rs, deps[k].replicas)
  }

  // The table has the names of `deps`, each with the replicas of its last deployment.
  ghost predicate Listing(p: Proxy, deps: seq<DeploymentMsg>) {
    forall name :: ListingAt(p, deps, name)
  }

  ghost predicate ListingAt(p: Proxy, deps: seq<DeploymentMsg>, name: string) {
    && (name in p.table <==> exists k :: 0 <= k < |deps| && deps[k].name == name)
    && (name in p.table ==> ServesLast(p, p.table[name], deps, name))
  }

  function Updated(deps: seq<DeploymentMsg>, a: Action): seq<DeploymentMsg> {
    match a case ApplyUpdate(deps') => deps' case _ => deps
  }

  // The deployments of the last update of a run, or `deps` when it has none.
  function LastUpdate(deps: seq<DeploymentMsg>, run: seq<Action>): seq<DeploymentMsg>
    decreases |run|
  {
    if run == [] then deps
    else LastUpdate(Updated(deps, run[0]), run[1..])
  }

  lemma {:induction false} SameListKept(rs: seq<Replica>, rs': seq<Replica>, ms: seq<ReplicaMsg>)
    requires SameList(rs, ms) && SameReplicas(rs, rs')
    ensures SameList(rs', ms)
  {
  }

  // Whatever is done, a handle keeps its replicas.
  lemma ActSame(p: Proxy, a: Action, g: nat)
    requires Valid(p) && CanDo(p, a) && g < |p.handles|
    ensures g < |Act(p, a).handles| && SameReplicas(p.handles[g].rs, Act(p, a).handles[g].rs)
  {
    if HandleStep(a).Some? {
      StepEnabled(p, a);
      StepSame(p.handles[p.sessions[a.sid].handle], HandleStep(a).value);
    }
  }

  lemma UpdateListing(p: Proxy, deps: seq<DeploymentMsg>, name: string)
    requires Valid(p) && CanDo(p, ApplyUpdate(deps))
    ensures ListingAt(Act(p, ApplyUpdate(deps)), deps, name)
  {
    var p' := Act(p, ApplyUpdate(deps));
    InstallRange(deps, |p.handles|, name);
    if name in p'.table {
      var k := p'.table[name] - |p.handles|;
      assert IsLast(deps, name, k) && SameList(p'.handles[p'.table[name]].rs, deps[k].replicas);
    }
  }

  lemma ServesKept(p: Proxy, a: Action, g: nat, deps: seq<DeploymentMsg>, name: string)
    requires Valid(p) && CanDo(p, a) && ServesLast(p, g, deps, name)
    ensures ServesLast(Act(p, a), g, deps, name)
  {
    var k :| IsLast(deps, name, k) && SameList(p.handles[g].rs, deps[k].replicas);
    ActSame(p, a, g);
    SameListKept(p.handles[g].rs, Act(p, a).handles[g].rs, deps[k].replicas);
  }

  lemma ActListing(p: Proxy, a: Action, deps: seq<DeploymentMsg>)
    requires Valid(p) && CanDo(p, a) && Listing(p, deps)
    ensures Listing(Act(p, a), Updated(deps, a))
  {
    forall name ensures ListingAt(Act(p, a), Updated(deps, a), name) {
      if a.ApplyUpdate? {
        UpdateListing(p, a.deps, name);
      } else {
        assert ListingAt(p, deps, name);
        if name in p.table {
          ServesKept(p, a, p.table[name], deps, name);
        }
      }
    }
  }

  lemma {:induction false} RunListing(p: Proxy, run: seq<Action>, deps: seq<DeploymentMsg>)
    requires Valid(p) && Possible(p, run) && Listing(p, deps)
    ensures Listing(After(p, run), LastUpdate(deps, run))
    decreases |run|
  {
    if run != [] {
      ActValid(p, run[0]);
      ActListing(p, run[0], deps);
      RunListing(Act(p, run[0]), run[1..], Updated(deps, run[0]));
    }
  }

  ghost predicate NeverOpens(run: seq<Action>, sid: nat) {
    forall i :: 0 <= i < |run| ==> !(run[i].Open? && run[i].sid == sid)
  }

  // A session keeps the handle it was given, and the handle its replicas, until it ends.
  lemma {:induction false} KeepsHandle(p: Proxy, run: seq<Action>, sid: nat, deps: seq<DeploymentMsg>, name: string)
    requires Valid(p) && Possible(p, run) && NeverOpens(run, sid)
    requires sid in p.sessions ==> ServesLast(p, p.sessions[sid].handle, deps, name)
    ensures sid in After(p, run).sessions ==> ServesLast(After(p, run), After(p, run).sessions[sid].handle, deps, name)
    decreases |run|
  {
    if run != [] {
      var p' := Act(p, run[0]);
      ActValid(p, run[0]);
      assert !(run[0].Open? && run[0].sid == sid);
      if sid in p'.sessions {
        assert sid in p.sessions && p'.sessions[sid].handle == p.sessions[sid].handle;
        ServesKept(p, run[0], p.sessions[sid].handle, deps, name);
      }
      KeepsHandle(p', run[1..], sid, deps, name);
    }
  }

  // A name is found exactly when the last update lists it, and a session that opens it
  // keeps, whatever sessions and swaps come after, a handle with the replicas of the
  // last deployment of that name in the last update before it opened.
  lemma {:induction false} OpensByName(run: seq<Action>, sid: nat, name: string, more: seq<Action>)
    requires Possible(EMPTY, run) && sid !in After(EMPTY, run).sessions
    ensures var p, deps := After(EMPTY, run), LastUpdate([], run);
            && (CanDo(p, Open(sid, name)) <==> exists k :: 0 <= k < |deps| && deps[k].name == name)
            && (CanDo(p, Open(sid, name)) ==>
                  var p1 := Act(p, Open(sid, name));
                  && Valid(p1) && sid in p1.sessions && p1.sessions[sid].Looked?
                  && (Possible(p1, more) && NeverOpens(more, sid) ==>
                        var p2 := After(p1, more);
                        sid in p2.sessions ==> ServesLast(p2, p2.sessions[sid].handle, deps, name)))
  {
    var p, deps := After(EMPTY, run), LastUpdate([], run);
    RunListing(EMPTY, run, []);
    assert ListingAt(p, deps, name);
    if CanDo(p, Open(sid, name)) {
      var p1 := Act(p, Open(sid, name));
      ActValid(p, Open(sid, name));
      ServesKept(p, Open(sid, name), p.table[name], deps, name);
      if Possible(p1, more) && NeverOpens(more, sid) {
        KeepsHandle(p1, more, sid, deps, name);
      }
    }
  }

  // Right after an update a session that asks for a listed name with a replica is given the
  // first one its deployment lists.
  lemma FreshTableServes(p: Proxy, deps: seq<DeploymentMsg>, sid: nat, name: string, k: nat, now: int)
    requires Valid(p) && CanDo(p, ApplyUpdate(deps)) && sid !in p.sessions && p.clock <= now
    requires IsLast(deps, name, k) && deps[k].replicas != []
    ensures var p1 := Act(p, ApplyUpdate(deps));
            && Valid(p1) && CanDo(p1, Open(sid, name))
            && var p2 := Act(p1, Open(sid, name));
               && Valid(p2) && CanDo(p2, ChooseReplica(sid, now))
               && var p3 := Act(p2, ChooseReplica(sid, now));
                  && |p.handles| + k < |p3.handles|
                  && sid in p3.sessions && p3.sessions[sid] == Holding(|p.handles| + k, 0, Starting)
                  && SameList(p3.handles[|p.handles| + k].rs, deps[k].replicas)
  {
    var p1 := Act(p, ApplyUpdate(deps));
    var g := |p.handles| + k;
    UpdateValid(p, deps);
    InstallRange(deps, |p.handles|, name);
    assert p1.table[name] == g && p1.handles[g] == Start(deps[k].replicas, p.clock);
    var p2 := Act(p1, Open(sid, name));
    ActValid(p1, Open(sid, name));
    FirstOfFresh(deps[k].replicas, now);
    StepEnabled(p2, ChooseReplica(sid, now));
    ActSame(p2, ChooseReplica(sid, now), g);
    SameListKept(p2.handles[g].rs, Act(p2, ChooseReplica(sid, now)).handles[g].rs, deps[k].replicas);
  }

  lemma FirstOfFresh(ms: seq<ReplicaMsg>, now: int)
    requires ms != []
    ensures Choice(FreshAll(ms), now) == Some(0)
  {
    ChoiceMeaning(FreshAll(ms), now);
  }

  // ---------- one request, by itself and among others ----------

  lemma {:induction false} FirstAct(p: Proxy, a: Action, run: seq<Action>)
    requires Valid(p) && CanDo(p, a) && Valid(Act(p, a)) && Possible(Act(p, a), run)
    ensures Possible(p, [a] + run) && After(p, [a] + run) == After(Act(p, a), run)
  {
    assert ([a] + run)[1..] == run && ([a] + run)[0] == a;
  }

  // The proxy once session `sid` has ended and its handle `g` has become `h`.
  ghost predicate EndedWith(p: Proxy, p': Proxy, sid: nat, g: nat, rs: seq<Replica>)
    requires g < |p.handles|
  {
    && p'.sessions == p.sessions - {sid} && p'.table == p.table
    && |p'.handles| == |p.handles| && p'.handles[g].rs == rs
    && (forall g' :: 0 <= g' < |p.handles| && g' != g ==> p'.handles[g'] == p.handles[g'])
  }

  // What a session that has its handle does when no other comes in between.
  function SessionRun(sid: nat, found: bool, rpc: Rpc, throwsAt: nat, picked: int, failed: int): seq<Action> {
    [ChooseReplica(sid, picked)] + if found then CallRun(sid, rpc, throwsAt, failed) else []
  }

  function CallRun(sid: nat, rpc: Rpc, throwsAt: nat, failed: int): seq<Action> {
    if !rpc.started then [StartFailed(sid, failed), Unwind(sid)]
    else
      [StartOk(sid)] +
      (if throwsAt < |rpc.tokens| then Tokens(sid, throwsAt) + [Unwind(sid)]
       else Tokens(sid, |rpc.tokens|) + if rpc.final.StatusOk? then [FinishedOk(sid)]
                                        else [FinishedBadly(sid, failed), Unwind(sid)])
  }

  function Tokens(sid: nat, n: nat): seq<Action> {
    seq(n, _ => TokenDelivered(sid))
  }

  lemma {:induction false} TokensPass(p: Proxy, sid: nat, n: nat, run: seq<Action>)
    requires Valid(p) && HoldsStage(p, sid, Streaming) && Possible(p, run)
    ensures Possible(p, Tokens(sid, n) + run) && After(p, Tokens(sid, n) + run) == After(p, run)
  {
    if n == 0 {
      assert Tokens(sid, 0) + run == run;
    } else {
      TokensPass(p, sid, n - 1, run);
      assert Act(p, TokenDelivered(sid)) == p;
      FirstAct(p, TokenDelivered(sid), Tokens(sid, n - 1) + run);
      assert [TokenDelivered(sid)] + (Tokens(sid, n - 1) + run) == Tokens(sid, n) + run;
    }
  }

  lemma {:induction false} OneAct(p: Proxy, a: Action)
    requires Valid(p) && CanDo(p, a)
    ensures Possible(p, [a]) && After(p, [a]) == Act(p, a)
  {
    ActValid(p, a);
    FirstAct(p, a, []);
    assert [a] + [] == [a];
  }

  lemma {:induction false} TwoActs(p: Proxy, a: Action, b: Action)
    requires Valid(p) && CanDo(p, a) && Valid(Act(p, a)) && CanDo(Act(p, a), b)
    ensures Possible(p, [a, b]) && After(p, [a, b]) == Act(Act(p, a), b)
  {
    OneAct(Act(p, a), b);
    FirstAct(p, a, [b]);
    assert [a] + [b] == [a, b];
  }

  // Leaving, by whatever way, gives the replica back.
  lemma LetsGo(p: Proxy, sid: nat, a: Action)
    requires Valid(p) && CanDo(p, a) && sid in p.sessions && p.sessions[sid].Holding?
    requires a == Unwind(sid) || a == FinishedOk(sid)
    ensures var g, i := p.sessions[sid].handle, p.sessions[sid].replica;
            && i < |p.handles[g].rs|
            && EndedWith(p, Act(p, a), sid, g, AfterRelease(p.handles[g].rs, i))
  {
    StepEnabled(p, a);
    assert Tied(p, p.sessions[sid].handle, sid);
  }

  // Failing marks the replica of the session; then it leaves.
  lemma {:induction false} FailsAndGoes(p: Proxy, sid: nat, a: Action, now: int)
    requires Valid(p) && CanDo(p, a) && sid in p.sessions && p.sessions[sid].Holding?
    requires a == StartFailed(sid, now) || a == FinishedBadly(sid, now)
    ensures var g, i := p.sessions[sid].handle, p.sessions[sid].replica;
            && i < |p.handles[g].rs|
            && Possible(p, [a, Unwind(sid)])
            && EndedWith(p, After(p, [a, Unwind(sid)]), sid, g,
                         AfterRelease(AfterFailure(p.handles[g].rs, p.handles[g].rs[i].id, now), i))
  {
    var p' := Act(p, a);
    FailureEffect(p, sid, a, now);
    ActValid(p, a);
    assert p'.sessions - {sid} == p.sessions - {sid};
    TwoActs(p, a, Unwind(sid));
    LetsGo(p', sid, Unwind(sid));
    assert After(p, [a, Unwind(sid)]) == Act(p', Unwind(sid));
  }

  lemma {:induction false} FailureEffect(p: Proxy, sid: nat, a: Action, now: int)
    requires Valid(p) && CanDo(p, a) && sid in p.sessions && p.sessions[sid].Holding?
    requires a == StartFailed(sid, now) || a == FinishedBadly(sid, now)
    ensures var g, i, p' := p.sessions[sid].handle, p.sessions[sid].replica, Act(p, a);
            && i < |p.handles[g].rs|
            && p'.sessions == p.sessions[sid := Holding(g, i, Failing)] && p'.table == p.table
            && |p'.handles| == |p.handles|
            && p'.handles[g].rs == AfterFailure(p.handles[g].rs, p.handles[g].rs[i].id, now)
            && (forall g' :: 0 <= g' < |p.handles| && g' != g ==> p'.handles[g'] == p.handles[g'])
  {
    StepEnabled(p, a);
    assert Tied(p, p.sessions[sid].handle, sid);
  }

  lemma {:induction false} CallEnds(p: Proxy, sid: nat, rpc: Rpc, throwsAt: nat, failed: int)
    requires Valid(p) && HoldsStage(p, sid, Starting) && p.clock <= failed
    ensures var g, i := p.sessions[sid].handle, p.sessions[sid].replica;
            && i < |p.handles[g].rs|
            && Possible(p, CallRun(sid, rpc, throwsAt, failed))
            && EndedWith(p, After(p, CallRun(sid, rpc, throwsAt, failed)), sid, g,
                         AfterServing(p.handles[g].rs, i, failed, Marks(rpc, throwsAt)))
  {
    if !rpc.started {
      FailsAndGoes(p, sid, StartFailed(sid, failed), failed);
    } else {
      var p1 := Act(p, StartOk(sid));
      ActValid(p, StartOk(sid));
      assert p1.sessions - {sid} == p.sessions - {sid};
      var n := if throwsAt < |rpc.tokens| then throwsAt else |rpc.tokens|;
      var last := if throwsAt < |rpc.tokens| then [Unwind(sid)]
                  else if rpc.final.StatusOk? then [FinishedOk(sid)]
                  else [FinishedBadly(sid, failed), Unwind(sid)];
      StreamEnds(p1, sid, rpc, throwsAt, failed, last);
      TokensPass(p1, sid, n, last);
      FirstAct(p, StartOk(sid), Tokens(sid, n) + last);
      assert [StartOk(sid)] + (Tokens(sid, n) + last) == CallRun(sid, rpc, throwsAt, failed);
    }
  }

  lemma {:induction false} StreamEnds(p: Proxy, sid: nat, rpc: Rpc, throwsAt: nat, failed: int, last: seq<Action>)
    requires Valid(p) && HoldsStage(p, sid, Streaming) && p.clock <= failed && rpc.started
    requires last == if throwsAt < |rpc.tokens| then [Unwind(sid)]
                     else if rpc.final.StatusOk? then [FinishedOk(sid)]
                     else [FinishedBadly(sid, failed), Unwind(sid)]
    ensures var g, i := p.sessions[sid].handle, p.sessions[sid].replica;
            && i < |p.handles[g].rs|
            && Possible(p, last)
            && EndedWith(p, After(p, last), sid, g,
                         AfterServing(p.handles[g].rs, i, failed, Marks(rpc, throwsAt)))
  {
    if throwsAt >= |rpc.tokens| && rpc.final.StatusError? {
      FailsAndGoes(p, sid, FinishedBadly(sid, failed), failed);
    } else {
      LetsGo(p, sid, last[0]);
      OneAct(p, last[0]);
    }
  }

  // A session that has looked its handle up, and goes through with no other in between,
  // does to that handle what one request does to it, and to nothing else, and is gone.
  lemma {:induction false} SessionIsRequest(p: Proxy, sid: nat, rpc: Rpc, throwsAt: nat, picked: int, failed: int)
    requires Valid(p) && sid in p.sessions && p.sessions[sid].Looked? && p.clock <= picked <= failed
    ensures var g := p.sessions[sid].handle;
            var run := SessionRun(sid, Choice(p.handles[g].rs, picked).Some?, rpc, throwsAt, picked, failed);
            && Possible(p, run)
            && EndedWith(p, After(p, run), sid, g, AfterRequest(p.handles[g].rs, rpc, throwsAt, picked, failed))
  {
    var g, a := p.sessions[sid].handle, ChooseReplica(sid, picked);
    var p1 := Act(p, a);
    StepEnabled(p, a);
    ActValid(p, a);
    if Choice(p.handles[g].rs, picked).Some? {
      assert p1.sessions - {sid} == p.sessions - {sid};
      CallEnds(p1, sid, rpc, throwsAt, failed);
      FirstAct(p, a, CallRun(sid, rpc, throwsAt, failed));
    } else {
      OneAct(p, a);
      assert [a] + [] == [a];
    }
  }

  // How a session ends when something throws in it.
  function Throw(p: Proxy, sid: nat): Action
    requires sid in p.sessions
  {
    if p.sessions[sid].Looked? then HeaderFailed(sid) else Unwind(sid)
  }

  // It always can, wherever it is, and takes no other session with it.
  lemma ThrowEnds(p: Proxy, sid: nat)
    requires Valid(p) && sid in p.sessions
    ensures CanDo(p, Throw(p, sid)) && Valid(Act(p, Throw(p, sid)))
    ensures Act(p, Throw(p, sid)).sessions == p.sessions - {sid}
  {
    ActValid(p, Throw(p, sid));
  }

  // From any state the sessions can end, and then every counter of every handle, current
  // or retired, is zero.
  lemma {:induction false} Drains(p: Proxy) returns (run: seq<Action>)
    requires Valid(p)
    ensures Possible(p, run) && After(p, run).sessions == map[]
    ensures forall g, i :: 0 <= g < |After(p, run).handles| && 0 <= i < |After(p, run).handles[g].rs| ==>
              After(p, run).handles[g].rs[i].active == 0
    decreases |p.sessions|
  {
    if p.sessions == map[] {
      run := [];
      forall g, i | 0 <= g < |p.handles| && 0 <= i < |p.handles[g].rs| ensures p.handles[g].rs[i].active == 0 {
        CountsSessions(p, g, i);
        assert SessionsOn(p, g, i) == {};
      }
    } else {
      var sid :| sid in p.sessions;
      ThrowEnds(p, sid);
      MapSmaller(p.sessions, sid);
      var rest := Drains(Act(p, Throw(p, sid)));
      run := [Throw(p, sid)] + rest;
      FirstAct(p, Throw(p, sid), rest);
    }
  }

  // ---------- the proxy object ----------

  class HttpProxy {
    var routingTable: map<string, DeploymentHandle>

    constructor ()
      ensures routingTable == map[]
    {
      routingTable := map[];
    }

    // Builds a table of new handles and swaps it in; the old handles are not touched.
    method ApplyRoutingUpdate(deps: seq<DeploymentMsg>)
      modifies this
      ensures forall name :: name in routingTable <==> exists k :: 0 <= k < |deps| && deps[k].name == name
      ensures forall name :: name in routingTable ==>
                fresh(routingTable[name]) && HoldsLast(routingTable[name], deps, name)
    {
      var table := BuildTable(deps);
      InstalledLast(deps);
      forall name | name in table ensures HoldsLast(table[name], deps, name) {
        assert IsLast(deps, name, Install(deps, 0)[name]);
      }
      routingTable := table;
    }

    // The loop over the update's deployments.
    static method BuildTable(deps: seq<DeploymentMsg>) returns (table: map<string, DeploymentHandle>)
      ensures table.Keys == Install(deps, 0).Keys
      ensures forall name :: name in table ==>
                && fresh(table[name]) && Install(deps, 0)[name] < |deps|
                && Holds(table[name], deps[Install(deps, 0)[name]].replicas)
    {
      table := map[];
      ghost var last: map<string, nat> := map[];
      for k := 0 to |deps|
        invariant last == Install(deps[..k], 0) && table.Keys == last.Keys
        invariant forall name :: name in table ==>
                    && fresh(table[name]) && last[name] < k && Holds(table[name], deps[last[name]].replicas)
      {
        var handle := new DeploymentHandle(deps[k].replicas);
        InstallNext(deps, k);
        table := table[deps[k].name := handle];
        last := last[deps[k].name := k];
      }
      assert deps[..|deps|] == deps;
    }

    // The handle a session gets, if there is one.
    method HandleFor(name: string) returns (handle: DeploymentHandle?)
      ensures if name in routingTable then handle == routingTable[name] else handle == null
    {
      handle := if name in routingTable then routingTable[name] else null;
    }
  }

  // The handle is in order and holds these replicas, healthy and idle.
  ghost predicate Holds(handle: DeploymentHandle, ms: seq<ReplicaMsg>)
    reads handle, handle.replicas
  {
    handle.Valid() && handle.contents == FreshAll(ms)
  }

  // It holds the replicas of the last deployment with this name.
  ghost predicate HoldsLast(handle: DeploymentHandle, deps: seq<DeploymentMsg>, name: string)
    reads handle, handle.replicas
  {
    exists k :: IsLast(deps, name, k) && Holds(handle, deps[k].replicas)
  }

  lemma {:induction false} InstalledLast(deps: seq<DeploymentMsg>)
    ensures forall name :: name in Install(deps, 0) <==> exists k :: 0 <= k < |deps| && deps[k].name == name
    ensures forall name :: name in Install(deps, 0) ==> IsLast(deps, name, Install(deps, 0)[name])
  {
    forall name
      ensures name in Install(deps, 0) <==> exists k :: 0 <= k < |deps| && deps[k].name == name
      ensures name in Install(deps, 0) ==> IsLast(deps, name, Install(deps, 0)[name])
    {
      InstallRange(deps, 0, name);
    }
  }

  lemma InstallNext(deps: seq<DeploymentMsg>, k: nat)
    requires k < |deps|
    ensures Install(deps[..k + 1], 0) == Install(deps[..k], 0)[deps[k].name := k]
  {
    assert deps[..k + 1][..k] == deps[..k];
  }
}
