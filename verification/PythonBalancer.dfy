/**
 The Python proxy's balancer: request counts in a dictionary keyed by replica id, a
 pick among the RUNNING replicas, and a decrement clamped at zero. Without failures
 it makes the same choices as the C++ balancer.
 */
module PythonBalancer {
  import opened Common
  import opened Keys
  import opened Balancer

  type Cache = map<string, int>

  // The counts after `_initialize_replicas_and_cache`.
  function InitialCache(ms: seq<ReplicaMsg>): (cache: Cache) {
    if ms == [] then map[]
    else AfterListing(InitialCache(ms[..|ms| - 1]), ms[|ms| - 1])
  }

  function AfterListing(cache: Cache, m: ReplicaMsg): Cache {
    var added := if m.state == "RUNNING" && m.id !in cache then cache[m.id := 0] else cache;
    if m.state == "SHUTDOWN" && m.id in added then added - {m.id} else added
  }

  // Python's `cache.get(id, 0)`.
  function Count(cache: Cache, id: string): int {
    if id in cache then cache[id] else 0
  }

  function Running(ms: seq<ReplicaMsg>): (running: seq<ReplicaMsg>) {
    if ms == [] then []
    else Running(ms[..|ms| - 1]) + if ms[|ms| - 1].state == "RUNNING" then [ms[|ms| - 1]] else []
  }

  // Python's `min` keeps the first of equals.
  function FirstMin(ms: seq<ReplicaMsg>, cache: Cache, n: nat): (best: nat)
    requires 0 < n <= |ms|
    ensures best < n
  {
    if n == 1 then 0
    else
      var best := FirstMin(ms, cache, n - 1);
      if Count(cache, ms[n - 1].id) < Count(cache, ms[best].id) then n - 1 else best
  }

  // Nothing when `min` is given an empty list, which raises.
  function Selected(ms: seq<ReplicaMsg>, cache: Cache): Option<ReplicaMsg> {
    var running := Running(ms);
    if running == [] then None else Some(running[FirstMin(running, cache, |running|)])
  }

  function AfterSelecting(ms: seq<ReplicaMsg>, cache: Cache): Cache {
    match Selected(ms, cache)
    case None => cache
    case Some(m) => cache[m.id := Count(cache, m.id) + 1]
  }

  function AfterDecrement(cache: Cache, id: string): Cache {
    if id !in cache then cache
    else cache[id := if cache[id] - 1 < 0 then 0 else cache[id] - 1]
  }

  // The ids in the dictionary: those listed as RUNNING, unless a later entry shuts them down.
  lemma {:induction false} InitiallyListed(ms: seq<ReplicaMsg>, id: string)
    ensures id in InitialCache(ms) <==>
              exists i :: 0 <= i < |ms| && ms[i] == ReplicaMsg(id, ms[i].address, "RUNNING") && NotShutAfter(ms, id, i)
    ensures id in InitialCache(ms) ==> InitialCache(ms)[id] == 0
  {
    if ms != [] {
      var front, last := ms[..|ms| - 1], ms[|ms| - 1];
      InitiallyListed(front, id);
      assert forall i :: 0 <= i < |front| ==> front[i] == ms[i];
      if id in InitialCache(front) && !(last.id == id && last.state == "SHUTDOWN") {
        var i :| && 0 <= i < |front| && front[i] == ReplicaMsg(id, front[i].address, "RUNNING")
                 && NotShutAfter(front, id, i);
        assert NotShutAfter(ms, id, i);
      }
      if i :| 0 <= i < |front| && ms[i] == ReplicaMsg(id, ms[i].address, "RUNNING") && NotShutAfter(ms, id, i) {
        assert NotShutAfter(front, id, i);
        assert front[i] == ReplicaMsg(id, front[i].address, "RUNNING");
      }
    }
  }

  predicate NotShutAfter(ms: seq<ReplicaMsg>, id: string, i: int) {
    forall j :: i < j < |ms| && 0 <= j ==> !(ms[j].id == id && ms[j].state == "SHUTDOWN")
  }

  // Whatever the counts are, no decrement leaves one below zero, and a count of at least
  // one goes down by one.
  lemma DecrementSafe(cache: Cache, id: string)
    ensures id in cache ==> Count(AfterDecrement(cache, id), id) == if cache[id] >= 1 then cache[id] - 1 else 0
    ensures forall other :: other != id ==> Count(AfterDecrement(cache, id), other) == Count(cache, other)
    ensures id !in cache ==> AfterDecrement(cache, id) == cache
  {
  }

  lemma {:induction false} FirstMinMeaning(ms: seq<ReplicaMsg>, cache: Cache, n: nat)
    requires 0 < n <= |ms|
    ensures var k := FirstMin(ms, cache, n);
            && (forall j :: 0 <= j < n ==> Count(cache, ms[k].id) <= Count(cache, ms[j].id))
            && (forall j :: 0 <= j < k ==> Count(cache, ms[k].id) < Count(cache, ms[j].id))
  {
    if n > 1 {
      FirstMinMeaning(ms, cache, n - 1);
    }
  }

  lemma {:induction false} RunningMembers(ms: seq<ReplicaMsg>, m: ReplicaMsg)
    ensures m in Running(ms) <==> m in ms && m.state == "RUNNING"
  {
    if ms != [] {
      RunningMembers(ms[..|ms| - 1], m);
      assert ms == ms[..|ms| - 1] + [ms[|ms| - 1]];
    }
  }

  // The pick is a RUNNING replica with the least count; it fails when there is none.
  lemma SelectedMeaning(ms: seq<ReplicaMsg>, cache: Cache)
    ensures Selected(ms, cache).None? <==> forall m :: m in ms ==> m.state != "RUNNING"
    ensures Selected(ms, cache).Some? ==>
              var chosen := Selected(ms, cache).value;
              && chosen in ms && chosen.state == "RUNNING"
              && (forall m :: m in ms && m.state == "RUNNING" ==> Count(cache, chosen.id) <= Count(cache, m.id))
  {
    var running := Running(ms);
    forall m ensures m in running <==> m in ms && m.state == "RUNNING" {
      RunningMembers(ms, m);
    }
    if running == [] {
      forall m | m in ms ensures m.state != "RUNNING" {
        assert m !in running;
      }
    } else {
      var k := FirstMin(running, cache, |running|);
      FirstMinMeaning(running, cache, |running|);
      assert running[k] in running;
    }
  }

  // ---------- one request ----------

  // The attempt reaches its `finally` only for such a replica.
  predicate Attempted(m: ReplicaMsg) {
    m.id != "" && m.address != "" && SplitAtHash(m.id).Some?
  }

  lemma {:induction false} SplitsAtHash(s: string)
    ensures SplitAtHash(s).Some? <==> '#' in s
  {
    if s != "" {
      SplitsAtHash(s[1..]);
      assert s == [s[0]] + s[1..];
    }
  }

  // A replica is attempted exactly when it has an address and an id of two parts.
  lemma AttemptedExactly(m: ReplicaMsg)
    ensures Attempted(m) <==> m.address != "" && '#' in m.id
  {
    SplitsAtHash(m.id);
  }

  function AfterSending(ms: seq<ReplicaMsg>, cache: Cache): Cache {
    match Selected(ms, cache)
    case None => cache
    case Some(m) =>
      if Attempted(m) then AfterDecrement(AfterSelecting(ms, cache), m.id) else AfterSelecting(ms, cache)
  }

  ghost predicate NonNegative(cache: Cache) {
    forall id :: id in cache ==> cache[id] >= 0
  }

  // A finished request gives back what it took exactly when there was nothing to take
  // or its replica has an address and a two-part id; otherwise the count stays too high.
  lemma CountsRestored(ms: seq<ReplicaMsg>, cache: Cache)
    requires NonNegative(cache)
    ensures NonNegative(AfterSending(ms, cache))
    ensures (forall id :: Count(AfterSending(ms, cache), id) == Count(cache, id)) <==>
              Selected(ms, cache).None? || Attempted(Selected(ms, cache).value)
  {
    if Selected(ms, cache).Some? {
      var m := Selected(ms, cache).value;
      assert Count(AfterSelecting(ms, cache), m.id) == Count(cache, m.id) + 1;
    }
  }

  datatype Ending = Streamed | Swallowed | Raised

  class PythonHandle {
    const replicas: seq<ReplicaMsg>
    var replicaCache: Cache

    constructor (ms: seq<ReplicaMsg>)
      ensures replicas == ms && replicaCache == InitialCache(ms)
    {
      replicas, replicaCache := ms, map[];
      new;
      for k := 0 to |ms|
        invariant replicaCache == InitialCache(ms[..k])
      {
        if ms[k].state == "RUNNING" && ms[k].id !in replicaCache {
          replicaCache := replicaCache[ms[k].id := 0];
        }
        if ms[k].state == "SHUTDOWN" && ms[k].id in replicaCache {
          replicaCache := replicaCache - {ms[k].id};
        }
        assert ms[..k + 1][..k] == ms[..k];
      }
      assert ms[..|ms|] == ms;
    }

    method PickNextReplica() returns (picked: Option<ReplicaMsg>)
      modifies this`replicaCache
      ensures picked == Selected(replicas, old(replicaCache))
      ensures replicaCache == AfterSelecting(replicas, old(replicaCache))
    {
      var running := RunningReplicas();
      if running == [] {
        return None;
      }
      var best := 0;
      for i := 1 to |running|
        invariant best == FirstMin(running, replicaCache, i)
      {
        if Count(replicaCache, running[i].id) < Count(replicaCache, running[best].id) {
          best := i;
        }
      }
      var selected := running[best];
      replicaCache := replicaCache[selected.id := Count(replicaCache, selected.id) + 1];
      picked := Some(selected);
    }

    method RunningReplicas() returns (running: seq<ReplicaMsg>)
      ensures running == Running(replicas)
    {
      running := [];
      for i := 0 to |replicas|
        invariant running == Running(replicas[..i])
      {
        if replicas[i].state == "RUNNING" {
          running := running + [replicas[i]];
        }
        assert replicas[..i + 1][..i] == replicas[..i];
      }
      assert replicas[..|replicas|] == replicas;
    }

    // The `finally` of an attempt.
    method Decrement(id: string)
      modifies this`replicaCache
      ensures replicaCache == AfterDecrement(old(replicaCache), id)
    {
      if id in replicaCache {
        replicaCache := replicaCache[id := replicaCache[id] - 1];
        if replicaCache[id] < 0 {
          replicaCache := replicaCache[id := 0];
        }
      }
    }

    // One whole request, with no other request moving in between; `ok` says whether
    // the attempt's stream ended without an exception.
    method SendRequest(ok: bool) returns (ending: Ending)
      modifies this`replicaCache
      ensures replicaCache == AfterSending(replicas, old(replicaCache))
      ensures ending == match Selected(replicas, old(replicaCache))
                        case None => Raised
                        case Some(m) =>
                          if m.id == "" || m.address == "" then Raised
                          else if ok && SplitAtHash(m.id).Some? then Streamed else Swallowed
    {
      var picked := PickNextReplica();
      if picked.None? || picked.value.id == "" || picked.value.address == "" {
        return Raised;
      }
      if SplitAtHash(picked.value.id).None? {
        return Swallowed;
      }
      Decrement(picked.value.id);
      ending := if ok then Streamed else Swallowed;
    }
  }

  // ---------- both balancers side by side ----------

  // The dictionary, and the replica each request in flight was given.
  datatype Side = Side(cache: Cache, held: map<nat, ReplicaMsg>)

  function NextSide(ms: seq<ReplicaMsg>, p: Side, e: Step): Side {
    match e
    case Pick(req, _) =>
      Side(AfterSelecting(ms, p.cache),
           match Selected(ms, p.cache) case None => p.held case Some(m) => p.held[req := m])
    case Release(req) =>
      if req !in p.held then p
      else Side(if Attempted(p.held[req]) then AfterDecrement(p.cache, p.held[req].id) else p.cache, p.held - {req})
    case Fail(_, _) => p
  }

  // The C++ choice is a position, the Python one a replica.
  ghost predicate SameChoice(ms: seq<ReplicaMsg>, position: Option<nat>, replica: Option<ReplicaMsg>) {
    match position
    case None => replica.None?
    case Some(i) => i < |ms| && replica == Some(ms[i])
  }

  // At a pick both choose the same replica; at a release the count to be decremented
  // is at least one, so the clamp does nothing.
  ghost predicate AgreeAt(ms: seq<ReplicaMsg>, h: Handle, p: Side, e: Step) {
    match e
    case Pick(_, now) => SameChoice(ms, Choice(h.rs, now), Selected(ms, p.cache))
    case Release(req) => req in p.held && Count(p.cache, p.held[req].id) >= 1
    case Fail(_, _) => true
  }

  ghost predicate InLockstep(ms: seq<ReplicaMsg>, h: Handle, p: Side, steps: seq<Step>)
    requires Feasible(h, steps)
    decreases |steps|
  {
    steps == [] ||
    (AgreeAt(ms, h, p, steps[0]) && InLockstep(ms, Next(h, steps[0]), NextSide(ms, p, steps[0]), steps[1..]))
  }

  ghost predicate AllServing(ms: seq<ReplicaMsg>) {
    UniqueMsgs(ms) && forall i :: 0 <= i < |ms| ==> ms[i].state == "RUNNING" && Attempted(ms[i])
  }

  // The two sides hold the same counts for the same replicas.
  ghost predicate Matched(ms: seq<ReplicaMsg>, h: Handle, p: Side) {
    && Counted(h) && MatchedAll(ms, h.rs, p.cache)
    && HeldMatch(ms, h.live, p.held)
  }

  ghost predicate HeldMatch(ms: seq<ReplicaMsg>, live: map<nat, nat>, held: map<nat, ReplicaMsg>) {
    held.Keys == live.Keys && forall req :: req in live ==> live[req] < |ms| && held[req] == ms[live[req]]
  }

  lemma PickHeld(ms: seq<ReplicaMsg>, live: map<nat, nat>, held: map<nat, ReplicaMsg>, req: nat, i: nat)
    requires HeldMatch(ms, live, held) && i < |ms|
    ensures HeldMatch(ms, live[req := i], held[req := ms[i]])
  {
  }

  ghost predicate MatchedAt(m: ReplicaMsg, r: Replica, cache: Cache) {
    r.id == m.id && r.health.Healthy? && m.id in cache && cache[m.id] == r.active
  }

  lemma {:induction false} AllRunning(ms: seq<ReplicaMsg>)
    requires forall i :: 0 <= i < |ms| ==> ms[i].state == "RUNNING"
    ensures Running(ms) == ms
  {
    if ms != [] {
      AllRunning(ms[..|ms| - 1]);
    }
  }

  ghost predicate MatchedAll(ms: seq<ReplicaMsg>, rs: seq<Replica>, cache: Cache) {
    |ms| == |rs| && forall i :: 0 <= i < |ms| ==> MatchedAt(ms[i], rs[i], cache)
  }

  lemma {:induction false} SameLeast(ms: seq<ReplicaMsg>, rs: seq<Replica>, cache: Cache, n: nat)
    requires MatchedAll(ms, rs, cache) && 0 < n <= |ms|
    ensures Least(rs, n) == Some(FirstMin(ms, cache, n))
  {
    if n > 1 {
      SameLeast(ms, rs, cache, n - 1);
    } else {
      assert Least(rs, 0) == None;
    }
  }

  lemma NothingToRevive(rs: seq<Replica>, now: int)
    requires forall i :: 0 <= i < |rs| ==> rs[i].health.Healthy?
    ensures ReviveAll(rs, now) == rs
  {
  }

  lemma {:induction false} ChoicesMatch(ms: seq<ReplicaMsg>, rs: seq<Replica>, cache: Cache, now: int)
    requires AllServing(ms) && MatchedAll(ms, rs, cache)
    ensures ReviveAll(rs, now) == rs
    ensures if ms == [] then Choice(rs, now).None? && Selected(ms, cache).None?
            else Choice(rs, now) == Some(FirstMin(ms, cache, |ms|))
                 && Selected(ms, cache) == Some(ms[FirstMin(ms, cache, |ms|)])
  {
    AllRunning(ms);
    NothingToRevive(rs, now);
    if ms != [] {
      SameLeast(ms, rs, cache, |ms|);
    }
  }

  lemma PickMatched(ms: seq<ReplicaMsg>, rs: seq<Replica>, cache: Cache, now: int)
    requires AllServing(ms) && MatchedAll(ms, rs, cache)
    ensures MatchedAll(ms, AfterPick(rs, now), AfterSelecting(ms, cache))
  {
    ChoicesMatch(ms, rs, cache, now);
  }

  lemma ReleaseMatched(ms: seq<ReplicaMsg>, rs: seq<Replica>, cache: Cache, i: nat)
    requires AllServing(ms) && MatchedAll(ms, rs, cache) && i < |ms| && rs[i].active >= 1
    ensures MatchedAll(ms, AfterRelease(rs, i), AfterDecrement(cache, ms[i].id))
  {
  }

  // A request in flight is counted on its replica.
  lemma HeldCounted(h: Handle, req: nat)
    requires Counted(h) && req in h.live
    ensures h.live[req] < |h.rs| && h.rs[h.live[req]].active >= 1
  {
    var holders := Holders(h.live, h.live[req]);
    assert req in holders;
    assert |holders - {req}| == |holders| - 1;
  }

  lemma PickAgrees(ms: seq<ReplicaMsg>, h: Handle, p: Side, req: nat, now: int)
    requires AllServing(ms) && MatchedAll(ms, h.rs, p.cache)
    ensures AgreeAt(ms, h, p, Pick(req, now))
  {
    ChoicesMatch(ms, h.rs, p.cache, now);
  }

  lemma PickStep(ms: seq<ReplicaMsg>, h: Handle, p: Side, req: nat, now: int)
    requires AllServing(ms) && Matched(ms, h, p) && Enabled(h, Pick(req, now))
    ensures Matched(ms, Next(h, Pick(req, now)), NextSide(ms, p, Pick(req, now)))
  {
    ChoicesMatch(ms, h.rs, p.cache, now);
    PickMatched(ms, h.rs, p.cache, now);
    PickCounted(h, req, now);
    if ms != [] {
      PickHeld(ms, h.live, p.held, req, FirstMin(ms, p.cache, |ms|));
    }
  }

  lemma ReleaseStep(ms: seq<ReplicaMsg>, h: Handle, p: Side, req: nat)
    requires AllServing(ms) && Matched(ms, h, p) && Enabled(h, Release(req))
    ensures AgreeAt(ms, h, p, Release(req))
    ensures Matched(ms, Next(h, Release(req)), NextSide(ms, p, Release(req)))
  {
    HeldCounted(h, req);
    assert MatchedAt(ms[h.live[req]], h.rs[h.live[req]], p.cache);
    ReleaseMatched(ms, h.rs, p.cache, h.live[req]);
    ReleaseCounted(h, req);
  }

  ghost predicate NoFailures(steps: seq<Step>) {
    forall k :: 0 <= k < |steps| ==> !steps[k].Fail?
  }

  lemma {:induction false} LockstepFrom(ms: seq<ReplicaMsg>, h: Handle, p: Side, steps: seq<Step>)
    requires AllServing(ms) && Matched(ms, h, p) && Feasible(h, steps) && NoFailures(steps)
    ensures InLockstep(ms, h, p, steps)
    decreases |steps|
  {
    if steps != [] {
      match steps[0] {
        case Pick(req, now) =>
          PickAgrees(ms, h, p, req, now);
          PickStep(ms, h, p, req, now);
        case Release(req) => ReleaseStep(ms, h, p, req);
      }
      LockstepFrom(ms, Next(h, steps[0]), NextSide(ms, p, steps[0]), steps[1..]);
    }
  }

  lemma {:induction false} InitialCounts(ms: seq<ReplicaMsg>, i: nat)
    requires i < |ms| && forall k :: 0 <= k < |ms| ==> ms[k].state == "RUNNING"
    ensures ms[i].id in InitialCache(ms) && InitialCache(ms)[ms[i].id] == 0
    decreases |ms|
  {
    var front, last := ms[..|ms| - 1], ms[|ms| - 1];
    if i < |front| {
      InitialCounts(front, i);
    } else if last.id in InitialCache(front) {
      InitialZero(front, last.id);
    }
  }

  lemma {:induction false} InitialZero(ms: seq<ReplicaMsg>, id: string)
    ensures Count(InitialCache(ms), id) == 0
  {
    if ms != [] {
      InitialZero(ms[..|ms| - 1], id);
    }
  }

  // Over every run of picks and releases without failures, on unique replicas that
  // all run and can be attempted: the two balancers pick the same replica at every
  // step, and the clamp at zero never acts.
  lemma {:induction false} SamePicks(ms: seq<ReplicaMsg>, clock: int, steps: seq<Step>)
    requires AllServing(ms) && Feasible(Start(ms, clock), steps) && NoFailures(steps)
    ensures InLockstep(ms, Start(ms, clock), Side(InitialCache(ms), map[]), steps)
  {
    StartInv(ms, clock);
    forall i | 0 <= i < |ms| ensures MatchedAt(ms[i], Start(ms, clock).rs[i], InitialCache(ms)) {
      InitialCounts(ms, i);
    }
    LockstepFrom(ms, Start(ms, clock), Side(InitialCache(ms), map[]), steps);
  }

  lemma {:induction false} FirstOfEquals(ms: seq<ReplicaMsg>, cache: Cache, n: nat)
    requires 0 < n <= |ms| && forall i :: 0 <= i < |ms| ==> Count(cache, ms[i].id) == 0
    ensures FirstMin(ms, cache, n) == 0
  {
    if n > 1 {
      FirstOfEquals(ms, cache, n - 1);
    }
  }

  lemma {:induction false} RunningFirst(ms: seq<ReplicaMsg>)
    requires ms != []
    ensures ms[0].state == "RUNNING" ==> Running(ms) != [] && Running(ms)[0] == ms[0]
  {
    if |ms| > 1 {
      RunningFirst(ms[..|ms| - 1]);
    } else {
      assert Running(ms[..0]) == [];
    }
  }

  // Only the Python balancer looks at the state: on a fresh table the first picks
  // agree exactly when there is nothing to pick or the first replica is RUNNING.
  lemma {:induction false} FirstPicksAgree(ms: seq<ReplicaMsg>, now: int)
    ensures SameChoice(ms, Choice(FreshAll(ms), now), Selected(ms, InitialCache(ms))) <==>
              ms == [] || ms[0].state == "RUNNING"
  {
    if ms != [] {
      ChoiceMeaning(FreshAll(ms), now);
      assert Choice(FreshAll(ms), now) == Some(0);
      RunningFirst(ms);
      SelectedMeaning(ms, InitialCache(ms));
      var running := Running(ms);
      forall i | 0 <= i < |running| ensures Count(InitialCache(ms), running[i].id) == 0 {
        InitialZero(ms, running[i].id);
      }
      if running != [] {
        FirstOfEquals(running, InitialCache(ms), |running|);
      }
    }
  }

  // A table with one draining replica: the C++ balancer picks it, the Python one fails.
  lemma FirstPicksDiffer()
    ensures var ms := [ReplicaMsg("1#1", "a", "DRAINING")];
            Choice(FreshAll(ms), 0) == Some(0) && Selected(ms, InitialCache(ms)).None?
  {
    var ms := [ReplicaMsg("1#1", "a", "DRAINING")];
    ChoiceMeaning(FreshAll(ms), 0);
    assert ms[..0] == [];
    SelectedMeaning(ms, InitialCache(ms));
  }

  // ---------- what a run leaves in the counts ----------

  ghost predicate CanSide(p: Side, e: Step) {
    match e
    case Pick(req, _) => req !in p.held
    case Release(req) => req in p.held
    case Fail(_, _) => true
  }

  ghost predicate SideRuns(ms: seq<ReplicaMsg>, p: Side, steps: seq<Step>)
    decreases |steps|
  {
    steps == [] || (CanSide(p, steps[0]) && SideRuns(ms, NextSide(ms, p, steps[0]), steps[1..]))
  }

  ghost function SideAfter(ms: seq<ReplicaMsg>, p: Side, steps: seq<Step>): Side
    decreases |steps|
  {
    if steps == [] then p else SideAfter(ms, NextSide(ms, p, steps[0]), steps[1..])
  }

  // The ids of the requests that end without having been attempted, with repetitions.
  ghost function Unattempted(ms: seq<ReplicaMsg>, p: Side, steps: seq<Step>): multiset<string>
    decreases |steps|
  {
    if steps == [] then multiset{}
    else LeakOf(p, steps[0]) + Unattempted(ms, NextSide(ms, p, steps[0]), steps[1..])
  }

  ghost function LeakOf(p: Side, e: Step): multiset<string> {
    if e.Release? && e.req in p.held && !Attempted(p.held[e.req]) then multiset{p.held[e.req].id} else multiset{}
  }

  // Every decrement finds a count of at least one.
  ghost predicate NeverClamps(ms: seq<ReplicaMsg>, p: Side, steps: seq<Step>)
    decreases |steps|
  {
    steps == [] ||
    (&& (steps[0].Release? && steps[0].req in p.held && Attempted(p.held[steps[0].req]) ==>
           Count(p.cache, p.held[steps[0].req].id) >= 1)
     && NeverClamps(ms, NextSide(ms, p, steps[0]), steps[1..]))
  }

  // The requests in flight on a replica with this id.
  ghost function HeldOn(held: map<nat, ReplicaMsg>, id: string): set<nat> {
    set req | req in held && held[req].id == id
  }

  // The count of an id is what is in flight on it, and what has leaked.
  ghost predicate Ledger(p: Side, leaked: multiset<string>) {
    forall id :: Balanced(p, leaked, id)
  }

  ghost predicate Balanced(p: Side, leaked: multiset<string>, id: string) {
    Count(p.cache, id) == |HeldOn(p.held, id)| + leaked[id]
  }

  lemma HeldOnMore(held: map<nat, ReplicaMsg>, req: nat, m: ReplicaMsg, id: string)
    requires req !in held
    ensures |HeldOn(held[req := m], id)| == |HeldOn(held, id)| + if m.id == id then 1 else 0
  {
    if m.id == id {
      assert HeldOn(held[req := m], id) == HeldOn(held, id) + {req};
    } else {
      assert HeldOn(held[req := m], id) == HeldOn(held, id);
    }
  }

  lemma HeldOnLess(held: map<nat, ReplicaMsg>, req: nat, id: string)
    requires req in held
    ensures |HeldOn(held, id)| == |HeldOn(held - {req}, id)| + if held[req].id == id then 1 else 0
  {
    HeldOnMore(held - {req}, req, held[req], id);
    assert (held - {req})[req := held[req]] == held;
  }

  lemma StepBalanced(ms: seq<ReplicaMsg>, p: Side, leaked: multiset<string>, e: Step, id: string)
    requires Ledger(p, leaked) && CanSide(p, e)
    ensures Balanced(NextSide(ms, p, e), leaked + LeakOf(p, e), id)
    ensures e.Release? && Attempted(p.held[e.req]) ==> Count(p.cache, p.held[e.req].id) >= 1
  {
    assert Balanced(p, leaked, id);
    match e
    case Pick(req, _) =>
      if Selected(ms, p.cache).Some? {
        HeldOnMore(p.held, req, Selected(ms, p.cache).value, id);
      }
    case Release(req) =>
      HeldOnLess(p.held, req, id);
      HeldOnLess(p.held, req, p.held[req].id);
      assert Balanced(p, leaked, p.held[req].id);
    case Fail(_, _) =>
  }

  lemma {:induction false} LedgerFrom(ms: seq<ReplicaMsg>, p: Side, leaked: multiset<string>, steps: seq<Step>)
    requires Ledger(p, leaked) && SideRuns(ms, p, steps)
    ensures Ledger(SideAfter(ms, p, steps), leaked + Unattempted(ms, p, steps))
    ensures NeverClamps(ms, p, steps)
    decreases |steps|
  {
    if steps != [] {
      var p', leaked' := NextSide(ms, p, steps[0]), leaked + LeakOf(p, steps[0]);
      forall id ensures Balanced(p', leaked', id) {
        StepBalanced(ms, p, leaked, steps[0], id);
      }
      if steps[0].Release? {
        StepBalanced(ms, p, leaked, steps[0], "");
      }
      LedgerFrom(ms, p', leaked', steps[1..]);
      assert leaked' + Unattempted(ms, p', steps[1..]) == leaked + Unattempted(ms, p, steps);
    } else {
      assert leaked + multiset{} == leaked;
    }
  }

  ghost function Opened(ms: seq<ReplicaMsg>): Side {
    Side(InitialCache(ms), map[])
  }

  // Every request that has ended so far had been attempted.
  ghost predicate AllAttempted(ms: seq<ReplicaMsg>, p: Side, steps: seq<Step>)
    decreases |steps|
  {
    steps == [] ||
    (&& (steps[0].Release? && steps[0].req in p.held ==> Attempted(p.held[steps[0].req]))
     && AllAttempted(ms, NextSide(ms, p, steps[0]), steps[1..]))
  }

  lemma {:induction false} NothingUnattempted(ms: seq<ReplicaMsg>, p: Side, steps: seq<Step>)
    ensures Unattempted(ms, p, steps) == multiset{} <==> AllAttempted(ms, p, steps)
    decreases |steps|
  {
    if steps != [] {
      NothingUnattempted(ms, NextSide(ms, p, steps[0]), steps[1..]);
      var first, rest := LeakOf(p, steps[0]), Unattempted(ms, NextSide(ms, p, steps[0]), steps[1..]);
      if first != multiset{} {
        assert p.held[steps[0].req].id in first + rest;
      } else {
        assert first + rest == rest;
      }
    }
  }

  // Over every interleaving of picks and releases, on any list at all: the count of an
  // id is the number of requests in flight on it plus the number that ended on it without
  // being attempted, so the counts are right exactly when every one was attempted; and
  // the clamp at zero never acts.
  lemma {:induction false} LeaksExactly(ms: seq<ReplicaMsg>, steps: seq<Step>)
    requires SideRuns(ms, Opened(ms), steps)
    ensures var p := SideAfter(ms, Opened(ms), steps);
            && (forall id :: Count(p.cache, id) == |HeldOn(p.held, id)| + Unattempted(ms, Opened(ms), steps)[id])
            && ((forall id :: Count(p.cache, id) == |HeldOn(p.held, id)|) <==> AllAttempted(ms, Opened(ms), steps))
    ensures NeverClamps(ms, Opened(ms), steps)
  {
    var p, lost := SideAfter(ms, Opened(ms), steps), Unattempted(ms, Opened(ms), steps);
    forall id ensures Balanced(Opened(ms), multiset{}, id) {
      InitialZero(ms, id);
      assert HeldOn(map[], id) == {};
    }
    LedgerFrom(ms, Opened(ms), multiset{}, steps);
    assert multiset{} + lost == lost;
    forall id ensures Count(p.cache, id) == |HeldOn(p.held, id)| + lost[id] {
      assert Balanced(p, lost, id);
    }
    NothingUnattempted(ms, Opened(ms), steps);
    if lost != multiset{} {
      var id :| id in lost;
      assert Count(p.cache, id) != |HeldOn(p.held, id)|;
    }
  }

  // A replica whose id has one part: one request, and its count is one too high for good.
  lemma CountLeaks()
    ensures var ms := [ReplicaMsg("r", "a", "RUNNING")];
            && Count(InitialCache(ms), "r") == 0 && Count(AfterSending(ms, InitialCache(ms)), "r") == 1
  {
    var ms := [ReplicaMsg("r", "a", "RUNNING")];
    InitialZero(ms, "r");
    AllRunning(ms);
    assert SplitAtHash("r") == None by {
      assert "r"[1..] == "";
    }
  }
}
