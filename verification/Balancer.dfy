/**
 The replica balancer behind one deployment, as a function of values: what a
 pick, a release and a failure report do to the list of replicas, and what
 holds over every run of them. The class that updates the list in place is in
 ReplicaHandles.dfy and is proved against the functions here.
 */
module Balancer {
  import opened Common

  datatype Health = Healthy | Unhealthy

  // A replica as a routing update lists it.
  datatype ReplicaMsg = ReplicaMsg(id: string, address: string, state: string)

  datatype DeploymentMsg = DeploymentMsg(id: nat, name: string, replicas: seq<ReplicaMsg>)

  // A replica as the handle keeps it; `lastFailure` is a steady clock in nanoseconds.
  datatype Replica = Replica(id: string, address: string, state: string,
                             active: int, health: Health, lastFailure: int)

  // Fifteen seconds.
  const COOLDOWN: int := 15_000_000_000

  function Fresh(m: ReplicaMsg): Replica {
    Replica(m.id, m.address, m.state, 0, Healthy, 0)
  }

  function FreshAll(ms: seq<ReplicaMsg>): (rs: seq<Replica>) {
    seq(|ms|, i requires 0 <= i < |ms| => Fresh(ms[i]))
  }

  // ---------- one pick, one failure report ----------

  function Revive(r: Replica, now: int): Replica {
    if r.health.Unhealthy? && now - r.lastFailure > COOLDOWN then r.(health := Healthy) else r
  }

  function ReviveAll(rs: seq<Replica>, now: int): (live: seq<Replica>) {
    seq(|rs|, i requires 0 <= i < |rs| => Revive(rs[i], now))
  }

  // `i` is the first least-loaded healthy replica among the first `n`.
  ghost predicate IsFirstLeast(rs: seq<Replica>, n: nat, i: nat)
    requires n <= |rs|
  {
    && i < n
    && rs[i].health.Healthy?
    && (forall j :: 0 <= j < n && rs[j].health.Healthy? ==> rs[i].active <= rs[j].active)
    && (forall j :: 0 <= j < i && rs[j].health.Healthy? ==> rs[i].active < rs[j].active)
  }

  // The scan over the first `n` replicas: a later one wins only if it carries less.
  function Least(rs: seq<Replica>, n: nat): (best: Option<nat>)
    requires n <= |rs|
    ensures best.Some? ==> best.value < n
  {
    if n == 0 then None
    else
      var best := Least(rs, n - 1);
      if rs[n - 1].health.Healthy? && (best.None? || rs[n - 1].active < rs[best.value].active)
      then Some(n - 1) else best
  }

  lemma {:induction false} LeastMeaning(rs: seq<Replica>, n: nat)
    requires n <= |rs|
    ensures Least(rs, n).None? <==> forall j :: 0 <= j < n ==> rs[j].health.Unhealthy?
    ensures Least(rs, n).Some? ==> IsFirstLeast(rs, n, Least(rs, n).value)
  {
    if n > 0 {
      LeastMeaning(rs, n - 1);
    }
  }

  function Choice(rs: seq<Replica>, now: int): (choice: Option<nat>)
    ensures choice.Some? ==> choice.value < |rs|
  {
    Least(ReviveAll(rs, now), |rs|)
  }

  function AfterPick(rs: seq<Replica>, now: int): (rs': seq<Replica>)
    ensures |rs'| == |rs|
  {
    var live := ReviveAll(rs, now);
    match Choice(rs, now)
    case None => live
    case Some(i) => live[i := live[i].(active := live[i].active + 1)]
  }

  // Only the first replica with the id is marked.
  function AfterFailure(rs: seq<Replica>, id: string, now: int): (rs': seq<Replica>)
    ensures |rs'| == |rs|
  {
    if rs == [] then []
    else if rs[0].id == id then [rs[0].(health := Unhealthy, lastFailure := now)] + rs[1..]
    else [rs[0]] + AfterFailure(rs[1..], id, now)
  }

  function AfterRelease(rs: seq<Replica>, i: nat): (rs': seq<Replica>)
    requires i < |rs|
  {
    rs[i := rs[i].(active := rs[i].active - 1)]
  }

  // With distinct ids the first match is the replica that was asked for.
  lemma {:induction false} AfterFailureAt(rs: seq<Replica>, i: nat, now: int)
    requires i < |rs|
    requires forall j :: 0 <= j < i ==> rs[j].id != rs[i].id
    ensures AfterFailure(rs, rs[i].id, now) == rs[i := rs[i].(health := Unhealthy, lastFailure := now)]
  {
    if i > 0 {
      AfterFailureAt(rs[1..], i - 1, now);
    }
  }

  // A pick fails exactly when every replica is unhealthy and within its cooldown;
  // otherwise it takes the first least-loaded one of those left.
  ghost predicate Eligible(r: Replica, now: int) {
    r.health.Healthy? || now - r.lastFailure > COOLDOWN
  }

  lemma ChoiceMeaning(rs: seq<Replica>, now: int)
    ensures Choice(rs, now).None? <==> forall j :: 0 <= j < |rs| ==> !Eligible(rs[j], now)
    ensures forall i :: Choice(rs, now) == Some(i) <==>
                        && 0 <= i < |rs| && Eligible(rs[i], now)
                        && (forall j :: 0 <= j < |rs| && Eligible(rs[j], now) ==> rs[i].active <= rs[j].active)
                        && (forall j :: 0 <= j < i && Eligible(rs[j], now) ==> rs[i].active < rs[j].active)
  {
    var live := ReviveAll(rs, now);
    LeastMeaning(live, |rs|);
    assert forall j :: 0 <= j < |rs| ==>
      live[j].health.Healthy? == Eligible(rs[j], now) && live[j].active == rs[j].active;
    assert forall j :: 0 <= j < |rs| ==> live[j].health.Unhealthy? == !Eligible(rs[j], now);
  }

  // ---------- runs of one handle ----------

  // A handle together with the requests in flight on it (request -> replica
  // position), the times at which each replica was reported failed, and the
  // latest clock reading.
  datatype Handle = Handle(rs: seq<Replica>, live: map<nat, nat>, fails: seq<set<int>>, clock: int)

  datatype Step =
    | Pick(req: nat, now: int)
    | Release(req: nat)
    | Fail(req: nat, now: int)

  function Start(ms: seq<ReplicaMsg>, clock: int): Handle {
    Handle(FreshAll(ms), map[], seq(|ms|, _ => {}), clock)
  }

  ghost predicate Enabled(h: Handle, e: Step) {
    match e
    case Pick(req, now) => req !in h.live && h.clock <= now
    case Release(req) => req in h.live && h.live[req] < |h.rs|
    case Fail(req, now) => req in h.live && h.live[req] < |h.rs| == |h.fails| && h.clock <= now
  }

  ghost function Next(h: Handle, e: Step): Handle
    requires Enabled(h, e)
  {
    match e
    case Pick(req, now) =>
      var live := match Choice(h.rs, now) case None => h.live case Some(i) => h.live[req := i];
      Handle(AfterPick(h.rs, now), live, h.fails, now)
    case Release(req) =>
      h.(rs := AfterRelease(h.rs, h.live[req]), live := h.live - {req})
    case Fail(req, now) =>
      var i := h.live[req];
      h.(rs := AfterFailure(h.rs, h.rs[i].id, now), fails := h.fails[i := h.fails[i] + {now}], clock := now)
  }

  ghost predicate Feasible(h: Handle, steps: seq<Step>)
    decreases |steps|
  {
    steps == [] || (Enabled(h, steps[0]) && Feasible(Next(h, steps[0]), steps[1..]))
  }

  ghost function Run(h: Handle, steps: seq<Step>): Handle
    requires Feasible(h, steps)
    decreases |steps|
  {
    if steps == [] then h else Run(Next(h, steps[0]), steps[1..])
  }

  // ---------- what every step keeps ----------

  ghost predicate UniqueIds(rs: seq<Replica>) {
    forall i, j :: 0 <= i < j < |rs| ==> rs[i].id != rs[j].id
  }

  ghost predicate UniqueMsgs(ms: seq<ReplicaMsg>) {
    forall i, j :: 0 <= i < j < |ms| ==> ms[i].id != ms[j].id
  }

  // The requests in flight on replica `i`.
  ghost function Holders(live: map<nat, nat>, i: nat): set<nat> {
    set req | req in live && live[req] == i
  }

  ghost predicate Counted(h: Handle) {
    && (forall req :: req in h.live ==> h.live[req] < |h.rs|)
    && (forall i :: 0 <= i < |h.rs| ==> h.rs[i].active == |Holders(h.live, i)|)
  }

  // Health and `lastFailure` say how long ago the latest of the failures `ts` was.
  ghost predicate Remembers(r: Replica, ts: set<int>, clock: int) {
    && (forall t :: t in ts ==> t <= r.lastFailure <= clock)
    && (ts == {} ==> r.health.Healthy?)
    && (ts != {} ==> r.lastFailure in ts && (r.health.Healthy? ==> clock - r.lastFailure > COOLDOWN))
  }

  ghost predicate Inv(h: Handle) {
    && UniqueIds(h.rs)
    && Counted(h)
    && |h.fails| == |h.rs|
    && (forall i :: 0 <= i < |h.rs| ==> Remembers(h.rs[i], h.fails[i], h.clock))
  }

  lemma StartInv(ms: seq<ReplicaMsg>, clock: int)
    requires UniqueMsgs(ms)
    ensures Inv(Start(ms, clock))
  {
    var h := Start(ms, clock);
    forall i | 0 <= i < |h.rs| ensures h.rs[i].active == |Holders(h.live, i)| {
      assert Holders(h.live, i) == {};
    }
  }

  lemma PickCounted(h: Handle, req: nat, now: int)
    requires Counted(h) && Enabled(h, Pick(req, now))
    ensures Counted(Next(h, Pick(req, now)))
  {
    var h' := Next(h, Pick(req, now));
    forall i | 0 <= i < |h.rs| ensures h'.rs[i].active == |Holders(h'.live, i)| {
      if Choice(h.rs, now) == Some(i) {
        assert Holders(h'.live, i) == Holders(h.live, i) + {req};
      } else {
        assert Holders(h'.live, i) == Holders(h.live, i);
      }
    }
  }

  lemma ReleaseCounted(h: Handle, req: nat)
    requires Counted(h) && Enabled(h, Release(req))
    ensures Counted(Next(h, Release(req)))
  {
    var h' := Next(h, Release(req));
    forall i | 0 <= i < |h.rs| ensures h'.rs[i].active == |Holders(h'.live, i)| {
      if h.live[req] == i {
        assert Holders(h'.live, i) == Holders(h.live, i) - {req};
      } else {
        assert Holders(h'.live, i) == Holders(h.live, i);
      }
    }
  }

  lemma PickKeeps(rs: seq<Replica>, now: int, i: nat)
    requires i < |rs|
    ensures AfterPick(rs, now)[i] ==
            Revive(rs[i], now).(active := rs[i].active + if Choice(rs, now) == Some(i) then 1 else 0)
  {
  }

  // A step changes nothing that a routing update lists, and keeps the order.
  ghost predicate SameReplicas(rs: seq<Replica>, rs': seq<Replica>) {
    && |rs| == |rs'|
    && (forall i :: 0 <= i < |rs| ==>
          rs[i].id == rs'[i].id && rs[i].address == rs'[i].address && rs[i].state == rs'[i].state)
  }

  // The handle's replicas are the listed ones, in order.
  ghost predicate SameList(rs: seq<Replica>, ms: seq<ReplicaMsg>) {
    && |rs| == |ms|
    && (forall i :: 0 <= i < |rs| ==>
          rs[i].id == ms[i].id && rs[i].address == ms[i].address && rs[i].state == ms[i].state)
  }

  lemma StepSame(h: Handle, e: Step)
    requires UniqueIds(h.rs) && Enabled(h, e)
    ensures SameReplicas(h.rs, Next(h, e).rs) && UniqueIds(Next(h, e).rs)
  {
    match e
    case Pick(req, now) =>
      forall i | 0 <= i < |h.rs|
        ensures Next(h, e).rs[i].id == h.rs[i].id && Next(h, e).rs[i].address == h.rs[i].address
        ensures Next(h, e).rs[i].state == h.rs[i].state
      {
        PickKeeps(h.rs, now, i);
      }
    case Release(req) =>
    case Fail(req, now) => AfterFailureAt(h.rs, h.live[req], now);
  }

  lemma StepCounted(h: Handle, e: Step)
    requires UniqueIds(h.rs) && Counted(h) && Enabled(h, e)
    ensures Counted(Next(h, e))
  {
    match e
    case Pick(req, now) => PickCounted(h, req, now);
    case Release(req) => ReleaseCounted(h, req);
    case Fail(req, now) => AfterFailureAt(h.rs, h.live[req], now);
  }

  lemma StepRemembers(h: Handle, e: Step, i: nat)
    requires UniqueIds(h.rs) && Enabled(h, e) && i < |h.rs| == |h.fails|
    requires Remembers(h.rs[i], h.fails[i], h.clock)
    ensures |Next(h, e).fails| == |Next(h, e).rs| == |h.rs|
    ensures Remembers(Next(h, e).rs[i], Next(h, e).fails[i], Next(h, e).clock)
  {
    match e
    case Pick(req, now) => PickKeeps(h.rs, now, i);
    case Release(req) =>
    case Fail(req, now) => AfterFailureAt(h.rs, h.live[req], now);
  }

  lemma StepInv(h: Handle, e: Step)
    requires Inv(h) && Enabled(h, e)
    ensures Inv(Next(h, e)) && SameReplicas(h.rs, Next(h, e).rs)
  {
    StepSame(h, e);
    StepCounted(h, e);
    forall i | 0 <= i < |h.rs|
      ensures |Next(h, e).fails| == |h.rs| && Remembers(Next(h, e).rs[i], Next(h, e).fails[i], Next(h, e).clock)
    {
      StepRemembers(h, e, i);
    }
  }

  lemma {:induction false} RunInv(h: Handle, steps: seq<Step>)
    requires Inv(h) && Feasible(h, steps)
    ensures Inv(Run(h, steps)) && |Run(h, steps).rs| == |h.rs|
    decreases |steps|
  {
    if steps != [] {
      StepInv(h, steps[0]);
      RunInv(Next(h, steps[0]), steps[1..]);
    }
  }

  // ---------- cooldown safety ----------

  // Within the last fifteen seconds.
  ghost predicate RecentlyFailed(ts: set<int>, now: int) {
    exists t :: t in ts && now - t <= 15_000_000_000
  }

  lemma EligibleMeaning(r: Replica, ts: set<int>, clock: int, now: int)
    requires Remembers(r, ts, clock) && clock <= now
    ensures Eligible(r, now) <==> !RecentlyFailed(ts, now)
  {
  }

  lemma CooldownAt(h: Handle, now: int)
    requires Inv(h) && h.clock <= now
    ensures Choice(h.rs, now).Some? ==> !RecentlyFailed(h.fails[Choice(h.rs, now).value], now)
    ensures Choice(h.rs, now).None? <==> forall i :: 0 <= i < |h.rs| ==> RecentlyFailed(h.fails[i], now)
  {
    ChoiceMeaning(h.rs, now);
    forall i | 0 <= i < |h.rs| ensures Eligible(h.rs[i], now) <==> !RecentlyFailed(h.fails[i], now) {
      EligibleMeaning(h.rs[i], h.fails[i], h.clock, now);
    }
  }

  // Over any run of one handle with a monotone clock: every failure of a picked
  // replica is more than fifteen seconds ago, and a pick finds nothing exactly
  // when every replica has failed within the last fifteen seconds.
  lemma {:induction false} CooldownSafety(ms: seq<ReplicaMsg>, clock: int, steps: seq<Step>, now: int)
    requires UniqueMsgs(ms) && Feasible(Start(ms, clock), steps)
    requires Run(Start(ms, clock), steps).clock <= now
    ensures var h := Run(Start(ms, clock), steps);
            && |h.fails| == |h.rs| == |ms|
            && (Choice(h.rs, now).Some? ==>
                  forall t :: t in h.fails[Choice(h.rs, now).value] ==> now - t > 15_000_000_000)
            && (Choice(h.rs, now).None? <==> forall i :: 0 <= i < |ms| ==> RecentlyFailed(h.fails[i], now))
  {
    StartInv(ms, clock);
    RunInv(Start(ms, clock), steps);
    var h := Run(Start(ms, clock), steps);
    CooldownAt(h, now);
  }

  // ---------- the load bound ----------

  ghost function EligibleCount(rs: seq<Replica>, n: nat, now: int): nat
    requires n <= |rs|
  {
    if n == 0 then 0 else EligibleCount(rs, n - 1, now) + if Eligible(rs[n - 1], now) then 1 else 0
  }

  ghost function RequestsBelow(live: map<nat, nat>, n: nat): set<nat> {
    set req | req in live && live[req] < n
  }

  lemma OneMoreBelow(live: map<nat, nat>, n: nat)
    ensures |RequestsBelow(live, n + 1)| == |RequestsBelow(live, n)| + |Holders(live, n)|
  {
    assert RequestsBelow(live, n + 1) == RequestsBelow(live, n) + Holders(live, n);
    assert RequestsBelow(live, n) !! Holders(live, n);
  }

  lemma OneMoreShare(n: nat, c: nat)
    ensures (n + 1) * c == n * c + c
  {
  }

  // If every eligible replica carries at least `c`, the eligible ones together
  // account for `c` requests each.
  lemma {:induction false} LoadBelow(h: Handle, now: int, c: nat, n: nat)
    requires Counted(h) && n <= |h.rs|
    requires forall j :: 0 <= j < n && Eligible(h.rs[j], now) ==> h.rs[j].active >= c
    ensures EligibleCount(h.rs, n, now) * c <= |RequestsBelow(h.live, n)|
  {
    if n == 0 {
    } else {
      LoadBelow(h, now, c, n - 1);
      OneMoreBelow(h.live, n - 1);
      OneMoreShare(EligibleCount(h.rs, n - 1, now), c);
    }
  }

  function CeilDiv(m: nat, k: nat): nat
    requires k > 0
  {
    (m + k - 1) / k
  }

  lemma CeilDivBound(m: nat, k: nat, c: nat)
    requires k > 0 && k * c + 1 <= m
    ensures c + 1 <= CeilDiv(m, k)
  {
    var q := CeilDiv(m, k);
    assert k * (c + 1) == k * c + k;
    assert m + k - 1 < k * q + k;
    assert q < c + 1 ==> k * (q + 1) <= k * (c + 1);
  }

  // `n >= k` replicas with at least `c` requests each, out of fewer than `m`.
  lemma ShareBound(m: nat, k: nat, n: nat, c: nat, total: nat)
    requires 0 < k <= n && n * c <= total < m
    ensures c + 1 <= CeilDiv(m, k)
  {
    assert (n - k) * c == n * c - k * c;
    assert k * c <= n * c;
    CeilDivBound(m, k, c);
  }

  ghost predicate LoadAtMost(rs: seq<Replica>, bound: nat) {
    forall i :: 0 <= i < |rs| ==> rs[i].active <= bound
  }

  // A pick that keeps at most `m` requests in flight while `k` replicas can take
  // it adds one to a counter that was below the bound.
  lemma {:induction false} PickLoad(h: Handle, req: nat, now: int, m: nat, k: nat, i: nat)
    requires Inv(h) && Enabled(h, Pick(req, now)) && k > 0
    requires EligibleCount(h.rs, |h.rs|, now) >= k
    requires |Next(h, Pick(req, now)).live| <= m
    requires Choice(h.rs, now) == Some(i)
    ensures h.rs[i].active + 1 <= CeilDiv(m, k)
  {
    ChoiceMeaning(h.rs, now);
    LoadBelow(h, now, h.rs[i].active, |h.rs|);
    assert RequestsBelow(h.live, |h.rs|) == h.live.Keys;
    assert h.live[req := i].Keys == h.live.Keys + {req};
    ShareBound(m, k, EligibleCount(h.rs, |h.rs|, now), h.rs[i].active, |h.live|);
  }

  // At most `m` requests are ever in flight, and at least `k` replicas can take
  // a request whenever one is picked.
  ghost predicate LoadedAtMost(h: Handle, steps: seq<Step>, m: nat, k: nat)
    requires Feasible(h, steps)
    decreases |steps|
  {
    && |h.live| <= m
    && (steps == [] ||
        (&& (steps[0].Pick? ==> EligibleCount(h.rs, |h.rs|, steps[0].now) >= k)
         && LoadedAtMost(Next(h, steps[0]), steps[1..], m, k)))
  }

  lemma StepLoad(h: Handle, e: Step, m: nat, k: nat)
    requires Inv(h) && Enabled(h, e) && k > 0
    requires e.Pick? ==> EligibleCount(h.rs, |h.rs|, e.now) >= k
    requires |Next(h, e).live| <= m
    requires LoadAtMost(h.rs, CeilDiv(m, k))
    ensures LoadAtMost(Next(h, e).rs, CeilDiv(m, k))
  {
    match e
    case Pick(req, now) =>
      forall i | 0 <= i < |h.rs| ensures Next(h, e).rs[i].active <= CeilDiv(m, k) {
        PickKeeps(h.rs, now, i);
        if Choice(h.rs, now) == Some(i) {
          PickLoad(h, req, now, m, k, i);
        }
      }
    case Release(req) =>
    case Fail(req, now) => AfterFailureAt(h.rs, h.live[req], now);
  }

  lemma {:induction false} LoadBoundFrom(h: Handle, steps: seq<Step>, m: nat, k: nat)
    requires Inv(h) && k > 0 && Feasible(h, steps) && LoadedAtMost(h, steps, m, k)
    requires LoadAtMost(h.rs, CeilDiv(m, k))
    ensures LoadAtMost(Run(h, steps).rs, CeilDiv(m, k))
    decreases |steps|
  {
    if steps != [] {
      var h' := Next(h, steps[0]);
      StepInv(h, steps[0]);
      assert |h'.live| <= m;
      StepLoad(h, steps[0], m, k);
      LoadBoundFrom(h', steps[1..], m, k);
    }
  }

  // Over any run of picks, releases, failures and recoveries, no counter ever
  // exceeds the in-flight limit shared evenly over the replicas that are up.
  lemma {:induction false} LoadBound(ms: seq<ReplicaMsg>, clock: int, steps: seq<Step>, m: nat, k: nat)
    requires UniqueMsgs(ms) && k > 0
    requires Feasible(Start(ms, clock), steps) && LoadedAtMost(Start(ms, clock), steps, m, k)
    ensures LoadAtMost(Run(Start(ms, clock), steps).rs, CeilDiv(m, k))
  {
    StartInv(ms, clock);
    LoadBoundFrom(Start(ms, clock), steps, m, k);
  }
}
