/**
 With nothing released and nothing failing, least-loaded picking is exactly
 round robin; the load bound of Balancer.dfy is therefore the best possible.
 */
module RoundRobin {
  import opened Common
  import opened Balancer

  ghost predicate AllPicks(steps: seq<Step>) {
    forall n :: 0 <= n < |steps| ==> steps[n].Pick?
  }

  // Where the n-th request goes, and how many full rounds came before it.
  function Slot(n: nat, k: nat): (slot: nat)
    requires k > 0
    ensures slot < k
  {
    if n == 0 || Slot(n - 1, k) + 1 == k then 0 else Slot(n - 1, k) + 1
  }

  function Lap(n: nat, k: nat): nat
    requires k > 0
  {
    if n == 0 then 0 else if Slot(n, k) == 0 then Lap(n - 1, k) + 1 else Lap(n - 1, k)
  }

  lemma MulUnique(k: nat, a: nat, b: nat, q: nat, r: nat)
    requires k * a + b == k * q + r && b < k && r < k
    ensures a == q && b == r
  {
    assert k * (a - q) == k * a - k * q;
    assert k * (q - a) == k * q - k * a;
    if a > q {
      MulAtLeast(k, a - q);
    } else if a < q {
      MulAtLeast(k, q - a);
    }
  }

  lemma MulAtLeast(k: nat, d: nat)
    requires d > 0
    ensures k * d >= k
  {
    assert k * d == k * (d - 1) + k;
  }

  lemma {:induction false} LapSlot(n: nat, k: nat)
    requires k > 0
    ensures n == k * Lap(n, k) + Slot(n, k)
  {
    if n > 0 {
      LapSlot(n - 1, k);
      var lap := Lap(n - 1, k);
      assert k * (lap + 1) == k * lap + k;
    }
  }

  lemma DivUnique(n: nat, k: nat, q: nat, r: nat)
    requires k > 0 && n == k * q + r && r < k
    ensures n / k == q && n % k == r
  {
    assert n == k * (n / k) + n % k;
    MulUnique(k, n / k, n % k, q, r);
  }

  lemma {:induction false} SlotIsMod(n: nat, k: nat)
    requires k > 0
    ensures Slot(n, k) == n % k && Lap(n, k) == n / k
  {
    LapSlot(n, k);
    DivUnique(n, k, Lap(n, k), Slot(n, k));
  }

  // `n` requests dealt out one at a time, starting from the front.
  ghost predicate Dealt(rs: seq<Replica>, n: nat)
    requires |rs| > 0
  {
    forall i :: 0 <= i < |rs| ==>
      rs[i].health.Healthy? && rs[i].active == Lap(n, |rs|) + if i < Slot(n, |rs|) then 1 else 0
  }

  lemma PickDealt(rs: seq<Replica>, n: nat, now: int)
    requires |rs| > 0 && Dealt(rs, n)
    ensures Choice(rs, now) == Some(Slot(n, |rs|))
    ensures Dealt(AfterPick(rs, now), n + 1)
  {
    ChoiceMeaning(rs, now);
    assert Choice(rs, now) == Some(Slot(n, |rs|));
    forall i | 0 <= i < |rs|
      ensures AfterPick(rs, now)[i].health.Healthy?
      ensures AfterPick(rs, now)[i].active == Lap(n + 1, |rs|) + if i < Slot(n + 1, |rs|) then 1 else 0
    {
      PickKeeps(rs, now, i);
    }
  }

  // The j-th of `steps`, counted from `n`, sits where round robin puts it.
  ghost predicate Placed(live: map<nat, nat>, steps: seq<Step>, n: nat, k: nat)
    requires k > 0 && AllPicks(steps)
  {
    forall j :: 0 <= j < |steps| ==>
      steps[j].req in live && live[steps[j].req] == Slot(n + j, k)
  }

  lemma {:induction false} PlacedFront(live: map<nat, nat>, steps: seq<Step>, n: nat, k: nat)
    requires k > 0 && AllPicks(steps) && steps != []
    requires steps[0].req in live && live[steps[0].req] == Slot(n, k)
    requires AllPicks(steps[1..]) && Placed(live, steps[1..], n + 1, k)
    ensures Placed(live, steps, n, k)
  {
    forall j | 0 <= j < |steps|
      ensures steps[j].req in live && live[steps[j].req] == Slot(n + j, k)
    {
      if j > 0 {
        assert steps[1..][j - 1] == steps[j];
        assert n + 1 + (j - 1) == n + j;
      }
    }
  }

  lemma {:induction false} DealtFrom(h: Handle, steps: seq<Step>, n: nat)
    requires |h.rs| > 0 && Dealt(h.rs, n) && AllPicks(steps) && Feasible(h, steps)
    ensures |Run(h, steps).rs| == |h.rs| && Dealt(Run(h, steps).rs, n + |steps|)
    ensures forall req :: req in h.live ==> req in Run(h, steps).live && Run(h, steps).live[req] == h.live[req]
    ensures Placed(Run(h, steps).live, steps, n, |h.rs|)
    decreases |steps|
  {
    if steps != [] {
      PickDealt(h.rs, n, steps[0].now);
      var h' := Next(h, steps[0]);
      assert h'.live == h.live[steps[0].req := Slot(n, |h.rs|)];
      DealtFrom(h', steps[1..], n + 1);
      PlacedFront(Run(h, steps).live, steps, n, |h.rs|);
    }
  }

  // The j-th request picked on `k` idle replicas goes to list position j mod k,
  // so the counters never differ by more than one.
  lemma {:induction false} RoundRobinRun(ms: seq<ReplicaMsg>, clock: int, steps: seq<Step>)
    requires |ms| > 0 && AllPicks(steps) && Feasible(Start(ms, clock), steps)
    ensures var h := Run(Start(ms, clock), steps);
            && |h.rs| == |ms|
            && (forall j :: 0 <= j < |steps| ==> steps[j].req in h.live && h.live[steps[j].req] == j % |ms|)
            && (forall i, i' :: 0 <= i < |ms| && 0 <= i' < |ms| ==> h.rs[i].active <= h.rs[i'].active + 1)
  {
    var h := Run(Start(ms, clock), steps);
    assert Dealt(Start(ms, clock).rs, 0);
    DealtFrom(Start(ms, clock), steps, 0);
    forall j | 0 <= j < |steps| ensures steps[j].req in h.live && h.live[steps[j].req] == j % |ms| {
      SlotIsMod(j, |ms|);
    }
  }

  lemma {:induction false} LapIsCeil(m: nat, k: nat)
    requires k > 0
    ensures CeilDiv(m, k) == Lap(m, k) + if Slot(m, k) == 0 then 0 else 1
  {
    LapSlot(m, k);
    var q, r := Lap(m, k), Slot(m, k);
    if r == 0 {
      DivUnique(m + k - 1, k, q, k - 1);
    } else {
      assert k * (q + 1) == k * q + k;
      DivUnique(m + k - 1, k, q + 1, r - 1);
    }
  }

  lemma {:induction false} AllEligible(rs: seq<Replica>, n: nat, now: int)
    requires n <= |rs| && forall i :: 0 <= i < |rs| ==> rs[i].health.Healthy?
    ensures EligibleCount(rs, n, now) == n
  {
    if n > 0 {
      AllEligible(rs, n - 1, now);
    }
  }

  // A run of picks that starts with `n` requests dealt stays within its own numbers.
  lemma {:induction false} DealtLoad(h: Handle, steps: seq<Step>, n: nat, m: nat)
    requires |h.rs| > 0 && Dealt(h.rs, n) && AllPicks(steps) && Feasible(h, steps) && |h.live| + |steps| <= m
    ensures LoadedAtMost(h, steps, m, |h.rs|)
    decreases |steps|
  {
    if steps != [] {
      AllEligible(h.rs, |h.rs|, steps[0].now);
      PickDealt(h.rs, n, steps[0].now);
      var h' := Next(h, steps[0]);
      assert h'.live.Keys == h.live.Keys + {steps[0].req};
      DealtLoad(h', steps[1..], n + 1, m);
    }
  }

  lemma StartDealt(ms: seq<ReplicaMsg>, clock: int)
    requires |ms| > 0
    ensures |Start(ms, clock).rs| == |ms| && Dealt(Start(ms, clock).rs, 0) && Start(ms, clock).live == map[]
  {
  }

  // The load bound is attained: dealing `m` requests to `k` idle replicas keeps within
  // its hypothesis and fills the first of them to exactly the bound.
  lemma {:induction false} LoadBoundTight(ms: seq<ReplicaMsg>, clock: int, steps: seq<Step>)
    requires |ms| > 0 && AllPicks(steps) && Feasible(Start(ms, clock), steps)
    ensures LoadedAtMost(Start(ms, clock), steps, |steps|, |ms|)
    ensures |Run(Start(ms, clock), steps).rs| == |ms|
    ensures Run(Start(ms, clock), steps).rs[0].active == CeilDiv(|steps|, |ms|)
  {
    StartDealt(ms, clock);
    DealtFrom(Start(ms, clock), steps, 0);
    LapIsCeil(|steps|, |ms|);
    DealtLoad(Start(ms, clock), steps, 0, |steps|);
  }
}
