/**
 Retrying a remote call: a capped exponential backoff with jitter between attempts.
 The outcome of each attempt and each random draw are given as scripts.
 */
module Retry {
  import opened Common

  datatype Attempt<T> = Success(value: T) | Failure(error: string)

  // An exception is returned, not raised; with no attempts at all there is none.
  datatype Result<T> = Returned(value: T) | GaveUp(last: Option<string>)

  function Min(x: real, y: real): (least: real)
    ensures least <= x && least <= y && (least == x || least == y)
  {
    if x < y then x else y
  }

  // Multiplication by the backoff factor.
  function By(b: real): real -> real {
    (x: real) => x * b
  }

  // The delay before any jitter after the `k`-th failure, counted from 0.
  function Delay(k: nat, d: real, grow: real -> real, m: real): real {
    if k == 0 then d else Min(grow(Delay(k - 1, d, grow, m)), m)
  }

  // The initial delay grown `k` times, with no cap.
  function Grown(k: nat, d: real, grow: real -> real): real {
    if k == 0 then d else grow(Grown(k - 1, d, grow))
  }

  // `b` to the `k`.
  function Pow(b: real, k: nat): real {
    if k == 0 then 1.0 else b * Pow(b, k - 1)
  }

  // The delay before any jitter as a closed form: d, then d times b to the k, up to m.
  function BaseDelay(k: nat, d: real, b: real, m: real): real {
    if k == 0 then d else Min(d * Pow(b, k), m)
  }

  lemma {:induction false} GrownIsPower(k: nat, d: real, b: real)
    ensures Grown(k, d, By(b)) == d * Pow(b, k)
  {
    if k > 0 {
      GrownIsPower(k - 1, d, b);
      Regroup(d, Pow(b, k - 1), b);
    }
  }

  lemma Regroup(d: real, p: real, b: real)
    ensures (d * p) * b == d * (b * p)
  {
  }

  // Growing a delay that is at the cap already leaves it at the cap.
  ghost predicate Expands(grow: real -> real, m: real) {
    && (forall x, y :: y == Min(x, m) ==> Min(grow(x), m) == Min(grow(y), m))
    && (forall x :: x >= 0.0 ==> grow(x) >= 0.0)
  }

  lemma FactorExpands(b: real, m: real)
    requires b >= 1.0 && m >= 0.0
    ensures Expands(By(b), m)
  {
    forall x, y | y == Min(x, m) ensures Min(By(b)(x), m) == Min(By(b)(y), m) {
      FactorCaps(x, y, b, m);
    }
    forall x | x >= 0.0 ensures By(b)(x) >= 0.0 {
      FactorKeepsSign(x, b);
    }
  }

  lemma FactorKeepsSign(x: real, b: real)
    requires x >= 0.0 && b >= 0.0
    ensures By(b)(x) >= 0.0
  {
    assert x * b >= 0.0;
  }

  lemma FactorCaps(x: real, y: real, b: real, m: real)
    requires b >= 1.0 && m >= 0.0 && y == Min(x, m)
    ensures Min(By(b)(x), m) == Min(By(b)(y), m)
  {
    CapCommutes(x, b, m);
  }

  lemma CapCommutes(x: real, b: real, m: real)
    requires b >= 1.0 && m >= 0.0
    ensures Min(x * b, m) == Min(Min(x, m) * b, m)
  {
    assert m * b >= m;
    if x >= m {
      assert x * b >= m * b;
    }
  }

  // Capping at every step is the same as capping once: the delays are the initial
  // one, then its powers up to the cap.
  lemma {:induction false} DelayClosed(k: nat, d: real, grow: real -> real, m: real)
    requires Expands(grow, m) && k > 0
    ensures Delay(k, d, grow, m) == Min(Grown(k, d, grow), m)
  {
    if k == 1 {
      assert Delay(0, d, grow, m) == d && Grown(0, d, grow) == d;
    } else {
      DelayClosed(k - 1, d, grow, m);
    }
  }

  lemma {:induction false} DelayRange(k: nat, d: real, grow: real -> real, m: real)
    requires d >= 0.0 && m >= 0.0 && Expands(grow, m)
    ensures 0.0 <= Delay(k, d, grow, m) && (k > 0 ==> Delay(k, d, grow, m) <= m)
  {
    if k > 0 {
      DelayRange(k - 1, d, grow, m);
    }
  }

  // Python draws the jitter between nothing and the delay it is added to.
  ghost predicate Drawn(draws: seq<real>, d: real, grow: real -> real, m: real) {
    forall i :: 0 <= i < |draws| ==> 0.0 <= draws[i] <= Delay(i, d, grow, m)
  }

  // Each sleep is its delay, and the draw on top of it if there is jitter.
  ghost predicate Slept(sleeps: seq<real>, d: real, grow: real -> real, m: real, jitter: bool, draws: seq<real>) {
    && |sleeps| <= |draws|
    && (forall i {:trigger sleeps[i]} :: 0 <= i < |sleeps| ==>
          sleeps[i] == Delay(i, d, grow, m) + if jitter then draws[i] else 0.0)
  }

  // The first attempt of `n` that succeeds, or `n`.
  function FirstSuccess<T>(attempts: seq<Attempt<T>>, n: nat): (k: nat)
    requires n <= |attempts|
    ensures k <= n && (forall i :: 0 <= i < k ==> attempts[i].Failure?) && (k < n ==> attempts[k].Success?)
  {
    if n == 0 then 0
    else
      var k := FirstSuccess(attempts, n - 1);
      if k < n - 1 || attempts[n - 1].Success? then k else n
  }

  lemma {:induction false} DelayIsGrown(k: nat, d: real, b: real, m: real)
    requires b >= 1.0 && m >= 0.0 && k > 0
    ensures Delay(k, d, By(b), m) == Min(Grown(k, d, By(b)), m)
  {
    FactorExpands(b, m);
    DelayClosed(k, d, By(b), m);
  }

  // For a factor of at least one the delay is the closed form.
  lemma {:induction false} DelayIsBase(k: nat, d: real, b: real, m: real)
    requires b >= 1.0 && m >= 0.0
    ensures Delay(k, d, By(b), m) == BaseDelay(k, d, b, m)
  {
    if k > 0 {
      DelayIsGrown(k, d, b, m);
      GrownIsPower(k, d, b);
      CappedIsBase(k, d, b, m, Grown(k, d, By(b)));
    }
  }

  lemma {:induction false} CappedIsBase(k: nat, d: real, b: real, m: real, x: real)
    requires k > 0 && x == d * Pow(b, k)
    ensures Min(x, m) == BaseDelay(k, d, b, m)
  {
  }

  lemma {:induction false} PowSign(b: real, k: nat)
    requires b >= 0.0
    ensures Pow(b, k) >= 0.0
  {
    if k > 0 {
      PowSign(b, k - 1);
    }
  }

  // Growing a delay that is under the cap leaves it there.
  ghost predicate Contracts(grow: real -> real, m: real) {
    forall x :: 0.0 <= x <= m ==> 0.0 <= grow(x) <= m
  }

  lemma FactorContracts(b: real, m: real)
    requires 0.0 <= b < 1.0
    ensures Contracts(By(b), m)
  {
    forall x | 0.0 <= x <= m ensures 0.0 <= By(b)(x) <= m {
      FactorShrinks(x, b, m);
    }
  }

  lemma FactorShrinks(x: real, b: real, m: real)
    requires 0.0 <= x <= m && 0.0 <= b < 1.0
    ensures 0.0 <= By(b)(x) <= m
  {
    var y := x * b;
    Shrinks(x, b);
    assert By(b)(x) == y;
  }

  lemma Shrinks(x: real, b: real)
    requires x >= 0.0 && 0.0 <= b < 1.0
    ensures 0.0 <= x * b <= x
  {
  }

  // So once a delay has got under the cap, the cap never acts.
  lemma {:induction false} CapIdle(k: nat, d: real, grow: real -> real, m: real)
    requires Contracts(grow, m) && 0.0 <= grow(d) <= m && k > 0
    ensures Delay(k, d, grow, m) == Grown(k, d, grow) && 0.0 <= Grown(k, d, grow) <= m
  {
    if k == 1 {
      assert Delay(0, d, grow, m) == d && Grown(0, d, grow) == d;
    } else {
      CapIdle(k - 1, d, grow, m);
    }
  }

  lemma {:induction false} ShrinksFreely(k: nat, d: real, b: real, m: real)
    requires d >= 0.0 && 0.0 <= b < 1.0 && d * b <= m && k > 0
    ensures Delay(k, d, By(b), m) == Grown(k, d, By(b))
  {
    FactorContracts(b, m);
    Shrinks(d, b);
    CapIdle(k, d, By(b), m);
  }

  // Under a cap of nothing every delay but the first is nothing.
  lemma {:induction false} NoRoom(k: nat, d: real, b: real)
    requires d >= 0.0 && b >= 0.0 && k > 0
    ensures Delay(k, d, By(b), 0.0) == 0.0 && BaseDelay(k, d, b, 0.0) == 0.0
  {
    PowSign(b, k);
    assert d * Pow(b, k) >= 0.0;
    var x := Delay(k - 1, d, By(b), 0.0);
    if k > 1 {
      NoRoom(k - 1, d, b);
    } else {
      assert x == d;
    }
    FactorKeepsSign(x, b);
    assert Delay(k, d, By(b), 0.0) == Min(By(b)(x), 0.0);
  }

  // With a factor below one, a first delay over the cap even when shrunk once, and a cap:
  // the second delay is the cap shrunk, and not the first delay shrunk twice.
  lemma {:induction false} SecondDiffers(d: real, b: real, m: real)
    requires 0.0 <= b < 1.0 && m > 0.0 && d * b > m
    ensures Delay(2, d, By(b), m) != BaseDelay(2, d, b, m)
  {
    TwiceShrunk(d, b, m);
    SecondDelay(d, b, m);
    var square := d * (b * b);
    assert Pow(b, 2) == b * Pow(b, 1) && Pow(b, 1) == b * Pow(b, 0) == b;
    CappedIsBase(2, d, b, m, square);
    assert Min(square, m) > m * b;
  }

  lemma {:induction false} SecondDelay(d: real, b: real, m: real)
    requires d * b > m && m * b < m
    ensures Delay(2, d, By(b), m) == m * b
  {
    assert Delay(1, d, By(b), m) == Min(By(b)(Delay(0, d, By(b), m)), m) == m;
    assert Delay(2, d, By(b), m) == Min(By(b)(m), m);
  }

  lemma TwiceShrunk(d: real, b: real, m: real)
    requires 0.0 <= b < 1.0 && m > 0.0 && d * b > m
    ensures m * b < m && m * b < d * (b * b)
  {
    assert b > 0.0;
    assert (d * b) * b == d * (b * b);
    assert (d * b) * b > m * b;
  }

  // Capping at every step is the same as capping once exactly when the factor is at least
  // one, or one shrinking brings the first delay under the cap, or the cap is nothing.
  lemma {:induction false} ClosedExactly(d: real, b: real, m: real)
    requires d >= 0.0 && b >= 0.0 && m >= 0.0
    ensures (forall k: nat :: Delay(k, d, By(b), m) == BaseDelay(k, d, b, m)) <==>
              b >= 1.0 || d * b <= m || m == 0.0
  {
    if b >= 1.0 || d * b <= m || m == 0.0 {
      forall k: nat ensures Delay(k, d, By(b), m) == BaseDelay(k, d, b, m) {
        ClosedAt(k, d, b, m);
      }
    } else {
      SecondDiffers(d, b, m);
    }
  }

  lemma {:induction false} ClosedAt(k: nat, d: real, b: real, m: real)
    requires d >= 0.0 && b >= 0.0 && m >= 0.0 && (b >= 1.0 || d * b <= m || m == 0.0)
    ensures Delay(k, d, By(b), m) == BaseDelay(k, d, b, m)
  {
    if k > 0 {
      if b >= 1.0 {
        DelayIsBase(k, d, b, m);
      } else if d * b <= m {
        ShrinksFreely(k, d, b, m);
        GrownIsPower(k, d, b);
        CappedIsBase(k, d, b, m, Grown(k, d, By(b)));
      } else {
        NoRoom(k, d, b);
      }
    }
  }

  // From 100 by halves under a cap of 10 the second delay is 5, and not 10.
  lemma ShrinkingDiffers()
    ensures Delay(2, 100.0, By(0.5), 10.0) == 5.0 && BaseDelay(2, 100.0, 0.5, 10.0) == 10.0
  {
    assert Delay(1, 100.0, By(0.5), 10.0) == Min(By(0.5)(Delay(0, 100.0, By(0.5), 10.0)), 10.0) == 10.0;
    assert Pow(0.5, 1) == 0.5 * Pow(0.5, 0) == 0.5;
  }

  lemma {:induction false} SleptAtBase(sleeps: seq<real>, d: real, b: real, m: real, jitter: bool, draws: seq<real>)
    requires b >= 1.0 && m >= 0.0 && Slept(sleeps, d, By(b), m, jitter, draws)
    ensures forall i :: 0 <= i < |sleeps| ==>
              sleeps[i] == BaseDelay(i, d, b, m) + if jitter then draws[i] else 0.0
  {
    forall i | 0 <= i < |sleeps| ensures Delay(i, d, By(b), m) == BaseDelay(i, d, b, m) {
      DelayIsBase(i, d, b, m);
    }
  }

  method TrySendWithRetries<T>(attempts: seq<Attempt<T>>, numAttempts: nat, delay: real, factor: real, cap: real,
                               jitter: bool, draws: seq<real>)
    returns (result: Result<T>, sleeps: seq<real>, made: nat)
    requires numAttempts <= |attempts| && numAttempts <= |draws|
    ensures var k := FirstSuccess(attempts, numAttempts);
            && result == (if k < numAttempts then Returned(attempts[k].value)
                          else if numAttempts == 0 then GaveUp(None) else GaveUp(Some(attempts[numAttempts - 1].error)))
            && made == (if k < numAttempts then k + 1 else numAttempts)
    ensures var k := FirstSuccess(attempts, numAttempts);
            |sleeps| == if k < numAttempts || numAttempts == 0 then k else numAttempts - 1
    ensures Slept(sleeps, delay, By(factor), cap, jitter, draws)
    ensures factor >= 1.0 && cap >= 0.0 ==>
              forall i :: 0 <= i < |sleeps| ==>
                sleeps[i] == BaseDelay(i, delay, factor, cap) + if jitter then draws[i] else 0.0
  {
    result, sleeps, made := AttemptUpTo(attempts, numAttempts, delay, factor, cap, jitter, draws);
    if factor >= 1.0 && cap >= 0.0 {
      SleptAtBase(sleeps, delay, factor, cap, jitter, draws);
    }
  }

  // The loop.
  method AttemptUpTo<T>(attempts: seq<Attempt<T>>, numAttempts: nat, delay: real, factor: real, cap: real,
                        jitter: bool, draws: seq<real>)
    returns (result: Result<T>, sleeps: seq<real>, made: nat)
    requires numAttempts <= |attempts| && numAttempts <= |draws|
    ensures var k := FirstSuccess(attempts, numAttempts);
            && result == (if k < numAttempts then Returned(attempts[k].value)
                          else if numAttempts == 0 then GaveUp(None) else GaveUp(Some(attempts[numAttempts - 1].error)))
            && made == (if k < numAttempts then k + 1 else numAttempts)
            && |sleeps| == if k < numAttempts || numAttempts == 0 then k else numAttempts - 1
    ensures Slept(sleeps, delay, By(factor), cap, jitter, draws)
  {
    var lastException: Option<string> := None;
    var currentDelay := delay;
    sleeps, made := [], 0;
    for attempt := 1 to numAttempts + 1
      invariant made == attempt - 1 && FirstSuccess(attempts, made) == made
      invariant lastException == if made == 0 then None else Some(attempts[made - 1].error)
      invariant |sleeps| == if made < numAttempts || made == 0 then made else made - 1
      invariant made < numAttempts ==> currentDelay == Delay(made, delay, By(factor), cap)
      invariant Slept(sleeps, delay, By(factor), cap, jitter, draws)
    {
      made := attempt;
      match attempts[attempt - 1]
      case Success(value) =>
        FirstIs(attempts, numAttempts, attempt - 1);
        return Returned(value), sleeps, made;
      case Failure(error) =>
        lastException := Some(error);
        if attempt < numAttempts {
          var backoffDelay := currentDelay;
          if jitter {
            backoffDelay := backoffDelay + draws[attempt - 1];
          }
          SleptMore(sleeps, backoffDelay, delay, factor, cap, jitter, draws);
          sleeps := sleeps + [backoffDelay];
          currentDelay := Increased(currentDelay, factor, cap);
        }
    }
    result := GaveUp(lastException);
  }

  // The next delay: multiplied by the factor, and capped.
  method Increased(delay: real, factor: real, cap: real) returns (next: real)
    ensures next == Min(By(factor)(delay), cap)
  {
    next := Min(delay * factor, cap);
  }

  lemma {:induction false} SleptMore(sleeps: seq<real>, slept: real, d: real, b: real, m: real, jitter: bool,
                                     draws: seq<real>)
    requires Slept(sleeps, d, By(b), m, jitter, draws) && |sleeps| < |draws|
    requires slept == Delay(|sleeps|, d, By(b), m) + if jitter then draws[|sleeps|] else 0.0
    ensures Slept(sleeps + [slept], d, By(b), m, jitter, draws)
  {
  }

  lemma {:induction false} FirstIs<T>(attempts: seq<Attempt<T>>, n: nat, k: nat)
    requires k < n <= |attempts| && attempts[k].Success? && forall i :: 0 <= i < k ==> attempts[i].Failure?
    ensures FirstSuccess(attempts, n) == k
  {
  }

  function Total(sleeps: seq<real>): real {
    if sleeps == [] then 0.0 else Total(sleeps[..|sleeps| - 1]) + sleeps[|sleeps| - 1]
  }

  // That adds the sleeps up: in any split, and for a single one.
  lemma {:induction false} TotalAdds(a: seq<real>, b: seq<real>, x: real)
    ensures Total(a + b) == Total(a) + Total(b)
    ensures Total([x]) == x
  {
    assert [x][..0] == [];
    if b == [] {
      assert a + b == a;
    } else {
      var front := b[..|b| - 1];
      TotalAdds(a, front, x);
      assert (a + b)[..|a + b| - 1] == a + front;
    }
  }

  // `n` times `m`.
  function Repeated(n: nat, m: real): real {
    if n == 0 then 0.0 else Repeated(n - 1, m) + m
  }

  lemma {:induction false} RepeatedIsProduct(n: nat, m: real)
    ensures Repeated(n, m) == n as real * m
  {
    if n > 0 {
      RepeatedIsProduct(n - 1, m);
    }
  }

  lemma {:induction false} RepeatedGrows(k: nat, n: nat, m: real)
    requires k <= n && m >= 0.0
    ensures 0.0 <= Repeated(k, m) <= Repeated(n, m)
  {
    if k < n {
      RepeatedGrows(k, n - 1, m);
    } else if n > 0 {
      RepeatedGrows(n - 1, n - 1, m);
    }
  }

  lemma {:induction false} TotalSleeps(sleeps: seq<real>, d: real, grow: real -> real, m: real, jitter: bool,
                                       draws: seq<real>)
    requires d >= 0.0 && m >= 0.0 && Expands(grow, m) && Drawn(draws, d, grow, m)
    requires Slept(sleeps, d, grow, m, jitter, draws) && sleeps != []
    ensures 0.0 <= Total(sleeps) <= 2.0 * (d + Repeated(|sleeps| - 1, m))
  {
    var last := |sleeps| - 1;
    DelayRange(last, d, grow, m);
    if last == 0 {
      assert Total(sleeps[..0]) == 0.0;
    } else {
      TotalSleeps(sleeps[..last], d, grow, m, jitter, draws);
    }
  }

  lemma TotalInRange(sleeps: seq<real>, n: nat, d: real, grow: real -> real, m: real, jitter: bool, draws: seq<real>)
    requires d >= 0.0 && m >= 0.0 && Expands(grow, m) && Drawn(draws, d, grow, m)
    requires Slept(sleeps, d, grow, m, jitter, draws) && n >= 2 && |sleeps| <= n - 1
    ensures 0.0 <= Total(sleeps) <= 2.0 * (d + Repeated(n - 2, m))
  {
    RepeatedGrows(0, n - 2, m);
    if sleeps != [] {
      TotalSleeps(sleeps, d, grow, m, jitter, draws);
      RepeatedGrows(|sleeps| - 1, n - 2, m);
    }
  }

  lemma {:induction false} AsProduct(total: real, d: real, k: nat, m: real)
    requires total <= 2.0 * (d + Repeated(k, m))
    ensures total <= 2.0 * (d + k as real * m)
  {
    RepeatedIsProduct(k, m);
  }

  lemma {:induction false} DrawsAtBase(draws: seq<real>, d: real, b: real, m: real)
    requires b >= 1.0 && m >= 0.0
    requires forall i :: 0 <= i < |draws| ==> 0.0 <= draws[i] <= BaseDelay(i, d, b, m)
    ensures Drawn(draws, d, By(b), m)
  {
    forall i | 0 <= i < |draws| ensures 0.0 <= draws[i] <= Delay(i, d, By(b), m) {
      DelayIsBase(i, d, b, m);
    }
  }

  // Of `n` attempts: each sleep lies between its delay, d and then d times b to the k up to
  // m, and twice it, and together they take at most twice the first delay and `n - 2` times
  // the cap.
  lemma {:induction false} BackoffBounds(n: nat, d: real, b: real, m: real, jitter: bool, draws: seq<real>,
                                         sleeps: seq<real>)
    requires d >= 0.0 && b >= 1.0 && m >= 0.0 && |sleeps| <= |draws|
    requires forall i :: 0 <= i < |draws| ==> 0.0 <= draws[i] <= BaseDelay(i, d, b, m)
    requires |sleeps| <= if n == 0 then 0 else n - 1
    requires forall i :: 0 <= i < |sleeps| ==> sleeps[i] == BaseDelay(i, d, b, m) + if jitter then draws[i] else 0.0
    ensures forall i :: 0 <= i < |sleeps| ==> BaseDelay(i, d, b, m) <= sleeps[i] <= 2.0 * BaseDelay(i, d, b, m)
    ensures n >= 2 ==> 0.0 <= Total(sleeps) <= 2.0 * (d + (n - 2) as real * m)
    ensures n < 2 ==> sleeps == []
  {
    DrawsAtBase(draws, d, b, m);
    BaseSlept(sleeps, d, b, m, jitter, draws);
    if n >= 2 {
      TotalFor(sleeps, n, d, b, m, jitter, draws);
      AsProduct(Total(sleeps), d, n - 2, m);
    }
  }

  lemma {:induction false} BaseSlept(sleeps: seq<real>, d: real, b: real, m: real, jitter: bool, draws: seq<real>)
    requires b >= 1.0 && m >= 0.0 && |sleeps| <= |draws|
    requires forall i :: 0 <= i < |sleeps| ==> sleeps[i] == BaseDelay(i, d, b, m) + if jitter then draws[i] else 0.0
    ensures Slept(sleeps, d, By(b), m, jitter, draws)
  {
    forall i | 0 <= i < |sleeps| ensures Delay(i, d, By(b), m) == BaseDelay(i, d, b, m) {
      DelayIsBase(i, d, b, m);
    }
  }

  lemma {:induction false} TotalFor(sleeps: seq<real>, n: nat, d: real, b: real, m: real, jitter: bool,
                                    draws: seq<real>)
    requires d >= 0.0 && b >= 1.0 && m >= 0.0 && n >= 2 && |sleeps| <= n - 1
    requires Drawn(draws, d, By(b), m) && Slept(sleeps, d, By(b), m, jitter, draws)
    ensures 0.0 <= Total(sleeps) <= 2.0 * (d + Repeated(n - 2, m))
  {
    FactorExpands(b, m);
    TotalInRange(sleeps, n, d, By(b), m, jitter, draws);
  }
}
