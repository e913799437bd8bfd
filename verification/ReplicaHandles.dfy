/**
 The C++ `DeploymentHandle`: replicas are shared objects updated in place, and a
 request holds on to the one it was given until it ends, however it ends.
 */
module ReplicaHandles {
  import opened Common
  import opened Balancer

  class ReplicaInfo {
    const replicaId: string
    const address: string
    const state: string
    var activeRequests: int
    var healthStatus: Health
    var lastFailureTime: int

    // Where the handle keeps this replica.
    ghost const slot: nat

    constructor (m: ReplicaMsg, ghost slot: nat)
      ensures State() == Balancer.Fresh(m) && this.slot == slot
    {
      this.slot := slot;
      replicaId, address, state := m.id, m.address, m.state;
      activeRequests, healthStatus, lastFailureTime := 0, Healthy, 0;
    }

    ghost function State(): Replica
      reads this
    {
      Replica(replicaId, address, state, activeRequests, healthStatus, lastFailureTime)
    }

    // Back to healthy once the cooldown has passed.
    method Cool(now: int)
      modifies this`healthStatus
      ensures State() == Revive(old(State()), now)
    {
      if healthStatus == Unhealthy && now - lastFailureTime > COOLDOWN {
        healthStatus := Healthy;
      }
    }

    method Fail(now: int)
      modifies this`healthStatus, this`lastFailureTime
      ensures State() == old(State()).(health := Unhealthy, lastFailure := now)
    {
      healthStatus, lastFailureTime := Unhealthy, now;
    }

    method Take()
      modifies this`activeRequests
      ensures State() == old(State()).(active := old(State()).active + 1)
    {
      activeRequests := activeRequests + 1;
    }

    // The releaser's destructor.
    method Release()
      modifies this`activeRequests
      ensures State() == old(State()).(active := old(State()).active - 1)
    {
      activeRequests := activeRequests - 1;
    }
  }

  // What a successful pick hands out; a channel is named by the address it dials.
  datatype Connection = Connection(info: ReplicaInfo, channel: string)

  datatype Status = StatusOk | StatusError(code: nat)

  const UNAVAILABLE := StatusError(14)

  datatype Call = Token(text: Bytes) | Error(status: Status)

  // How one remote call goes: whether it starts, what it streams, how it ends.
  datatype Rpc = Rpc(started: bool, tokens: seq<Bytes>, final: Status)

  // The callbacks a request makes when none of them throws.
  function Script(found: bool, rpc: Rpc): (calls: seq<Call>) {
    if !found then [Error(UNAVAILABLE)]
    else if !rpc.started then [Error(rpc.final)]
    else TokenCalls(rpc.tokens) + if rpc.final.StatusOk? then [] else [Error(rpc.final)]
  }

  function TokenCalls(tokens: seq<Bytes>): (calls: seq<Call>) {
    seq(|tokens|, i requires 0 <= i < |tokens| => Token(tokens[i]))
  }

  // The callback number `throwsAt`, if it is reached, throws and ends the request.
  function CutOff(calls: seq<Call>, throwsAt: nat): (made: seq<Call>) {
    if throwsAt < |calls| then calls[..throwsAt + 1] else calls
  }

  // The replica is reported failed when the call does not start, or when it
  // ends badly after every token was delivered.
  function Marks(rpc: Rpc, throwsAt: nat): bool {
    !rpc.started || (throwsAt >= |rpc.tokens| && rpc.final.StatusError?)
  }

  // The end of a request that holds replica `i`.
  function AfterServing(held: seq<Replica>, i: nat, failed: int, marks: bool): (rs': seq<Replica>)
    requires i < |held|
  {
    AfterRelease(if marks then AfterFailure(held, held[i].id, failed) else held, i)
  }

  // One whole request with nothing in between; `picked` and `failed` are clock readings.
  function AfterRequest(rs: seq<Replica>, rpc: Rpc, throwsAt: nat, picked: int, failed: int): (rs': seq<Replica>) {
    match Choice(rs, picked)
    case None => AfterPick(rs, picked)
    case Some(i) => AfterServing(AfterPick(rs, picked), i, failed, Marks(rpc, throwsAt))
  }

  lemma {:induction false} AfterFailureActive(rs: seq<Replica>, id: string, now: int, i: nat)
    requires i < |rs|
    ensures AfterFailure(rs, id, now)[i].active == rs[i].active
  {
    if rs[0].id != id && i > 0 {
      AfterFailureActive(rs[1..], id, now, i - 1);
    }
  }

  // A request that has ended, however it ended, leaves every counter as it was.
  lemma CountersRestored(rs: seq<Replica>, rpc: Rpc, throwsAt: nat, picked: int, failed: int, i: nat)
    requires i < |rs|
    ensures |AfterRequest(rs, rpc, throwsAt, picked, failed)| == |rs|
    ensures AfterRequest(rs, rpc, throwsAt, picked, failed)[i].active == rs[i].active
  {
    PickKeeps(rs, picked, i);
    match Choice(rs, picked)
    case None =>
    case Some(k) =>
      var held := AfterPick(rs, picked);
      AfterFailureActive(held, held[k].id, failed, i);
  }

  // A replica is reported failed exactly when its call did not start, or ended badly after
  // every token was delivered; a request cut off at a token reports nothing. No other
  // replica is touched.
  lemma RequestEffect(rs: seq<Replica>, rpc: Rpc, throwsAt: nat, picked: int, failed: int, i: nat)
    requires UniqueIds(rs) && Choice(rs, picked) == Some(i)
    ensures var held, end := AfterPick(rs, picked), AfterRequest(rs, rpc, throwsAt, picked, failed);
            && |end| == |rs|
            && (forall j :: 0 <= j < |rs| && j != i ==> end[j] == held[j])
            && end[i].active == rs[i].active
            && (if !rpc.started || (throwsAt >= |rpc.tokens| && rpc.final.StatusError?)
                then end[i].health == Unhealthy && end[i].lastFailure == failed
                else end[i].health == Healthy && end[i].lastFailure == rs[i].lastFailure)
  {
    var held := AfterPick(rs, picked);
    PickedIsHealthy(rs, picked, i);
    forall j | 0 <= j < i ensures held[j].id != held[i].id {
      PickKeeps(rs, picked, j);
    }
    AfterFailureAt(held, i, failed);
  }

  lemma PickedIsHealthy(rs: seq<Replica>, picked: int, i: nat)
    requires Choice(rs, picked) == Some(i)
    ensures AfterPick(rs, picked)[i] == rs[i].(health := Healthy, active := rs[i].active + 1)
  {
    LeastMeaning(ReviveAll(rs, picked), |rs|);
    PickKeeps(rs, picked, i);
  }

  // What a request does to its handle, as steps of the balancer.
  function RequestSteps(req: nat, found: bool, rpc: Rpc, throwsAt: nat, picked: int, failed: int): seq<Step> {
    [Pick(req, picked)] +
    if found then HeldSteps(req, !rpc.started || (throwsAt >= |rpc.tokens| && rpc.final.StatusError?), failed) else []
  }

  function HeldSteps(req: nat, fails: bool, failed: int): seq<Step> {
    (if fails then [Fail(req, failed)] else []) + [Release(req)]
  }

  // The replicas after a request are those after its balancer steps.
  lemma {:induction false} RequestIsRun(h: Handle, req: nat, rpc: Rpc, throwsAt: nat, picked: int, failed: int)
    requires Balancer.Inv(h) && req !in h.live && h.clock <= picked <= failed
    ensures var steps := RequestSteps(req, Choice(h.rs, picked).Some?, rpc, throwsAt, picked, failed);
            && Feasible(h, steps)
            && Run(h, steps).rs == AfterRequest(h.rs, rpc, throwsAt, picked, failed)
            && Run(h, steps).live == h.live
  {
    var h1 := Balancer.Next(h, Pick(req, picked));
    Balancer.StepInv(h, Pick(req, picked));
    match Choice(h.rs, picked)
    case None => FirstStep(h, Pick(req, picked), []);
    case Some(i) =>
      assert h1.live == h.live[req := i] && h1.live - {req} == h.live;
      Serving(h1, req, i, Marks(rpc, throwsAt), failed);
      FirstStep(h, Pick(req, picked), HeldSteps(req, Marks(rpc, throwsAt), failed));
  }

  lemma {:induction false} Serving(h: Handle, req: nat, i: nat, marks: bool, failed: int)
    requires Balancer.Inv(h) && req in h.live && h.live[req] == i && h.clock <= failed
    ensures i < |h.rs| && Feasible(h, HeldSteps(req, marks, failed))
    ensures Run(h, HeldSteps(req, marks, failed)).rs == AfterServing(h.rs, i, failed, marks)
    ensures Run(h, HeldSteps(req, marks, failed)).live == h.live - {req}
  {
    if marks {
      var h' := Balancer.Next(h, Fail(req, failed));
      FirstStep(h', Release(req), []);
      assert [Release(req)] + [] == [Release(req)];
      FirstStep(h, Fail(req, failed), [Release(req)]);
    } else {
      FirstStep(h, Release(req), []);
      assert [] + [Release(req)] == [Release(req)] + [];
    }
  }

  lemma {:induction false} FirstStep(h: Handle, e: Step, steps: seq<Step>)
    requires Enabled(h, e) && Feasible(Balancer.Next(h, e), steps)
    ensures Feasible(h, [e] + steps) && Run(h, [e] + steps) == Run(Balancer.Next(h, e), steps)
  {
    assert ([e] + steps)[1..] == steps && ([e] + steps)[0] == e;
  }

  // However a request goes, the callback sees the call's tokens in order and then at most
  // one error, which comes last: UNAVAILABLE when there is no replica, else the call's
  // status when that is bad or the call did not start. The callback that throws is the last.
  lemma ErrorsLast(found: bool, rpc: Rpc, throwsAt: nat)
    ensures var made := CutOff(Script(found, rpc), throwsAt);
            var n := if found && rpc.started then |rpc.tokens| else 0;
            && |made| == (if throwsAt < n then throwsAt + 1
                          else if found && rpc.started && rpc.final.StatusOk? then n else n + 1)
            && (forall i :: 0 <= i < |made| && i < n ==> made[i] == Token(rpc.tokens[i]))
            && (forall i :: n <= i < |made| ==>
                  i == |made| - 1 && made[i] == Error(if found then rpc.final else StatusError(14)))
  {
  }

  // The address each cached channel dials after the replicas have been added in
  // order: the last one with an id wins.
  function CacheOf(ms: seq<(string, string)>): (cache: map<string, string>) {
    if ms == [] then map[]
    else CacheOf(ms[..|ms| - 1])[ms[|ms| - 1].0 := ms[|ms| - 1].1]
  }

  function Endpoint(info: ReplicaInfo): (string, string) {
    (info.replicaId, info.address)
  }

  function Endpoints(infos: seq<ReplicaInfo>): (ms: seq<(string, string)>) {
    seq(|infos|, i requires 0 <= i < |infos| => Endpoint(infos[i]))
  }

  lemma EndpointsAppend(infos: seq<ReplicaInfo>, info: ReplicaInfo)
    ensures CacheOf(Endpoints(infos + [info])) == CacheOf(Endpoints(infos))[info.replicaId := info.address]
  {
    assert Endpoints(infos + [info])[..|infos|] == Endpoints(infos);
  }

  // A cached channel dials the address of the last replica listed under its id.
  lemma {:induction false} CacheLast(ms: seq<(string, string)>, i: nat)
    requires i < |ms|
    requires forall k :: i < k < |ms| ==> ms[k].0 != ms[i].0
    ensures ms[i].0 in CacheOf(ms) && CacheOf(ms)[ms[i].0] == ms[i].1
  {
    if i < |ms| - 1 {
      CacheLast(ms[..|ms| - 1], i);
    }
  }

  lemma {:induction false} CacheDomain(ms: seq<(string, string)>, id: string)
    ensures id in CacheOf(ms) <==> exists i :: 0 <= i < |ms| && ms[i].0 == id
    ensures id in CacheOf(ms) ==> exists i :: 0 <= i < |ms| && ms[i] == (id, CacheOf(ms)[id])
  {
    if ms != [] {
      var front := ms[..|ms| - 1];
      CacheDomain(front, id);
      assert forall i :: 0 <= i < |front| ==> front[i] == ms[i];
    }
  }

  class DeploymentHandle {
    var replicas: seq<ReplicaInfo>
    var channelCache: map<string, string>
    ghost var contents: seq<Replica>

    ghost predicate Valid()
      reads this, replicas
    {
      Shown() && Cached()
    }

    ghost predicate Shown()
      reads this, replicas
    {
      && |contents| == |replicas|
      && (forall i :: 0 <= i < |replicas| ==> replicas[i].slot == i && replicas[i].State() == contents[i])
    }

    ghost predicate Cached()
      reads this`replicas, this`channelCache
    {
      channelCache == CacheOf(Endpoints(replicas))
    }

    constructor (ms: seq<ReplicaMsg>)
      ensures Valid() && contents == FreshAll(ms)
      ensures fresh(replicas)
    {
      replicas, channelCache, contents := [], map[], [];
      new;
      AddReplicas(ms);
    }

    method AddReplicas(ms: seq<ReplicaMsg>)
      requires Valid()
      modifies this
      ensures Valid() && contents == old(contents) + FreshAll(ms)
      ensures |replicas| == |old(replicas)| + |ms| && replicas[..|old(replicas)|] == old(replicas)
      ensures forall i :: |old(replicas)| <= i < |replicas| ==> fresh(replicas[i])
    {
      ghost var n := |replicas|;
      for k := 0 to |ms|
        invariant Valid()
        invariant |replicas| == n + k && replicas[..n] == old(replicas)
        invariant forall i :: n <= i < n + k ==> fresh(replicas[i])
        invariant contents == old(contents) + FreshAll(ms)[..k]
      {
        AddReplica(ms[k]);
      }
    }

    method AddReplica(m: ReplicaMsg)
      requires Valid()
      modifies this
      ensures Valid() && contents == old(contents) + [Balancer.Fresh(m)]
      ensures |replicas| == |old(replicas)| + 1 && replicas[..|old(replicas)|] == old(replicas)
      ensures fresh(replicas[|old(replicas)|])
    {
      var info := new ReplicaInfo(m, |replicas|);
      EndpointsAppend(replicas, info);
      replicas := replicas + [info];
      channelCache := channelCache[info.replicaId := info.address];
      contents := contents + [Balancer.Fresh(m)];
    }

    method PickNextReplica(now: int) returns (picked: Option<Connection>)
      requires Valid()
      modifies this`contents, replicas
      ensures Valid() && contents == AfterPick(old(contents), now)
      ensures picked.None? <==> Choice(old(contents), now).None?
      ensures picked.Some? ==>
                && Choice(old(contents), now).value < |replicas|
                && picked.value.info == replicas[Choice(old(contents), now).value]
                && picked.value.info.replicaId in channelCache
                && picked.value.channel == channelCache[picked.value.info.replicaId]
      ensures picked.Some? && UniqueIds(contents) ==> picked.value.channel == picked.value.info.address
    {
      ghost var rs := contents;
      var leastLoaded := LeastLoaded(now);
      if leastLoaded == null {
        return None;
      }
      TakeOne(leastLoaded, Choice(rs, now).value);
      CachedChannel(Choice(rs, now).value);
      if UniqueIds(contents) {
        ChannelDials(Choice(rs, now).value);
      }
      picked := Some(Connection(leastLoaded, channelCache[leastLoaded.replicaId]));
    }

    method TakeOne(replica: ReplicaInfo, ghost i: nat)
      requires Shown() && i < |replicas| && replica == replicas[i]
      modifies this`contents, replica`activeRequests
      ensures Shown() && contents == old(contents)[i := old(contents)[i].(active := old(contents)[i].active + 1)]
    {
      replica.Take();
      contents := contents[i := contents[i].(active := contents[i].active + 1)];
    }

    // The first `n` replicas are as in `live`, the others still as in `rs`.
    ghost predicate Scanned(rs: seq<Replica>, live: seq<Replica>, n: nat)
      reads this`replicas, replicas
    {
      && |rs| == |live| == |replicas|
      && (forall j :: 0 <= j < |replicas| ==>
            replicas[j].slot == j && replicas[j].State() == if j < n then live[j] else rs[j])
    }

    method CoolOne(replica: ReplicaInfo, now: int, ghost i: nat, ghost rs: seq<Replica>, ghost live: seq<Replica>)
      requires i < |replicas| && replica == replicas[i] && Scanned(rs, live, i) && live[i] == Revive(rs[i], now)
      modifies replica`healthStatus
      ensures Scanned(rs, live, i + 1)
    {
      replica.Cool(now);
    }

    // The scan over the first `n` replicas has kept this one.
    ghost predicate Kept(best: ReplicaInfo?, live: seq<Replica>, n: nat)
      requires n <= |live| == |replicas|
      reads this`replicas
    {
      match Least(live, n)
      case None => best == null
      case Some(i) => best == replicas[i]
    }

    // The scan: revives what has cooled down and keeps the best replica so far.
    method LeastLoaded(now: int) returns (leastLoaded: ReplicaInfo?)
      requires Shown()
      modifies this`contents, replicas
      ensures Shown() && contents == ReviveAll(old(contents), now)
      ensures leastLoaded == null <==> Choice(old(contents), now).None?
      ensures leastLoaded != null ==>
                && Choice(old(contents), now).value < |replicas|
                && leastLoaded == replicas[Choice(old(contents), now).value]
    {
      leastLoaded := null;
      ghost var rs := contents;
      ghost var live := ReviveAll(rs, now);
      for i := 0 to |replicas|
        invariant Scanned(rs, live, i) && Kept(leastLoaded, live, i)
      {
        leastLoaded := Visit(replicas[i], leastLoaded, now, i, rs, live);
      }
      contents := live;
    }

    // One pass of the scan.
    method Visit(replica: ReplicaInfo, best: ReplicaInfo?, now: int, ghost i: nat, ghost rs: seq<Replica>,
                 ghost live: seq<Replica>)
      returns (leastLoaded: ReplicaInfo?)
      requires i < |replicas| && replica == replicas[i]
      requires Scanned(rs, live, i) && live[i] == Revive(rs[i], now) && Kept(best, live, i)
      modifies replica`healthStatus
      ensures Scanned(rs, live, i + 1) && Kept(leastLoaded, live, i + 1)
    {
      CoolOne(replica, now, i, rs, live);
      leastLoaded := best;
      if replica.healthStatus == Healthy {
        if best == null || replica.activeRequests < best.activeRequests {
          leastLoaded := replica;
        }
      }
    }

    lemma CachedChannel(i: nat)
      requires Cached() && i < |replicas|
      ensures replicas[i].replicaId in channelCache
    {
      CacheDomain(Endpoints(replicas), replicas[i].replicaId);
      assert Endpoints(replicas)[i].0 == replicas[i].replicaId;
    }

    // With distinct ids the cached channel of a replica dials that replica.
    lemma ChannelDials(i: nat)
      requires Shown() && Cached() && i < |replicas| && UniqueIds(contents)
      ensures replicas[i].replicaId in channelCache && channelCache[replicas[i].replicaId] == replicas[i].address
    {
      var ms := Endpoints(replicas);
      forall k | i < k < |ms| ensures ms[k].0 != ms[i].0 {
        assert contents[i].id != contents[k].id;
      }
      CacheLast(ms, i);
    }

    method MarkReplicaUnhealthy(id: string, now: int)
      requires Shown()
      modifies this`contents, replicas
      ensures Shown() && contents == AfterFailure(old(contents), id, now)
    {
      AfterFailureMisses(contents, id, now);
      for i := 0 to |replicas|
        invariant Shown() && contents == old(contents)
        invariant forall j :: 0 <= j < i ==> contents[j].id != id
      {
        if replicas[i].replicaId == id {
          AfterFailureAt(contents, i, now);
          MarkOne(replicas[i], now, i);
          return;
        }
      }
    }

    method MarkOne(replica: ReplicaInfo, now: int, ghost i: nat)
      requires Shown() && i < |replicas| && replica == replicas[i]
      modifies this`contents, replica`healthStatus, replica`lastFailureTime
      ensures Shown()
      ensures contents == old(contents)[i := old(contents)[i].(health := Unhealthy, lastFailure := now)]
    {
      replica.Fail(now);
      contents := contents[i := contents[i].(health := Unhealthy, lastFailure := now)];
    }

    // Leaving the request's scope runs the releaser on the replica it held.
    method ReleaseHeld(info: ReplicaInfo, ghost i: nat)
      requires Shown() && i < |replicas| && info == replicas[i]
      modifies this`contents, info`activeRequests
      ensures Shown() && contents == AfterRelease(old(contents), i)
    {
      info.Release();
      contents := AfterRelease(contents, i);
    }

    // One whole request, with no other request moving in between: `picked` and
    // `failed` are the clock readings, `throwsAt` the callback that throws.
    method SendRequest(rpc: Rpc, throwsAt: nat, picked: int, failed: int)
      returns (calls: seq<Call>, threw: bool)
      requires Valid()
      modifies this`contents, replicas
      ensures Valid() && contents == AfterRequest(old(contents), rpc, throwsAt, picked, failed)
      ensures calls == CutOff(Script(Choice(old(contents), picked).Some?, rpc), throwsAt)
      ensures threw <==> throwsAt < |Script(Choice(old(contents), picked).Some?, rpc)|
    {
      var connection := PickNextReplica(picked);
      if connection.None? {
        return [Error(UNAVAILABLE)], throwsAt == 0;
      }
      calls, threw := Serve(connection.value.info, Choice(old(contents), picked).value, rpc, throwsAt, failed);
    }

    // The rest of a request that holds a replica.
    method Serve(info: ReplicaInfo, ghost i: nat, rpc: Rpc, throwsAt: nat, failed: int)
      returns (calls: seq<Call>, threw: bool)
      requires Shown() && i < |replicas| && info == replicas[i]
      modifies this`contents, replicas
      ensures Shown() && contents == AfterServing(old(contents), i, failed, Marks(rpc, throwsAt))
      ensures calls == CutOff(Script(true, rpc), throwsAt)
      ensures threw <==> throwsAt < |Script(true, rpc)|
    {
      if !rpc.started {
        calls, threw := [Error(rpc.final)], throwsAt == 0;
        LeaveBadly(info, i, failed);
        return;
      }
      calls, threw := Stream(rpc.tokens, throwsAt);
      if !threw && rpc.final.StatusError? {
        calls, threw := calls + [Error(rpc.final)], throwsAt == |calls|;
        LeaveBadly(info, i, failed);
      } else {
        ReleaseHeld(info, i);
      }
    }

    // Marks the replica and then leaves the request's scope; the error callback comes in
    // between and touches no replica.
    method LeaveBadly(info: ReplicaInfo, ghost i: nat, failed: int)
      requires Shown() && i < |replicas| && info == replicas[i]
      modifies this`contents, replicas
      ensures Shown() && contents == AfterServing(old(contents), i, failed, true)
    {
      MarkReplicaUnhealthy(info.replicaId, failed);
      ReleaseHeld(info, i);
    }

    // The read loop: one callback for each token, until one throws.
    static method Stream(tokens: seq<Bytes>, throwsAt: nat) returns (calls: seq<Call>, threw: bool)
      ensures calls == CutOff(TokenCalls(tokens), throwsAt)
      ensures threw <==> throwsAt < |tokens|
    {
      calls := [];
      for k := 0 to |tokens|
        invariant calls == TokenCalls(tokens)[..k]
        invariant k <= throwsAt
      {
        calls := calls + [Token(tokens[k])];
        if k == throwsAt {
          return calls, true;
        }
      }
      threw := false;
    }
  }

  lemma {:induction false} AfterFailureMisses(rs: seq<Replica>, id: string, now: int)
    ensures (forall j :: 0 <= j < |rs| ==> rs[j].id != id) ==> AfterFailure(rs, id, now) == rs
  {
    if rs != [] {
      AfterFailureMisses(rs[1..], id, now);
    }
  }
}
