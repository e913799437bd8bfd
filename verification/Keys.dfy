/**
 Replica keys: the manager and the autoscaler both name a replica
 `worker#replica`, with both numbers written in decimal, and the Python proxy
 reads such a key back by splitting it at the first '#'.
 */
module Keys {
  import opened Common

  function Digit(d: nat): char
    requires d < 10
  {
    '0' + (d as char)
  }

  predicate IsDigit(c: char) {
    '0' <= c <= '9'
  }

  // A natural number as Python's str() and C++'s std::to_string write it.
  function Decimal(n: nat): string {
    if n < 10 then [Digit(n)] else Decimal(n / 10) + [Digit(n % 10)]
  }

  predicate IsNumeral(s: string) {
    s != "" && forall i :: 0 <= i < |s| ==> IsDigit(s[i])
  }

  // The number a numeral stands for, most significant digit first.
  function Value(s: string): nat
    requires IsNumeral(s)
  {
    var last := (s[|s| - 1] - '0') as nat;
    if |s| == 1 then last else 10 * Value(s[..|s| - 1]) + last
  }

  lemma {:induction false} DecimalRoundTrip(n: nat)
    ensures IsNumeral(Decimal(n)) && Value(Decimal(n)) == n
  {
    if n >= 10 {
      DecimalRoundTrip(n / 10);
      assert Decimal(n)[..|Decimal(n)| - 1] == Decimal(n / 10);
    }
  }

  function Key(worker: nat, replica: nat): string {
    Decimal(worker) + "#" + Decimal(replica)
  }

  // The part of `s` before its first '#', and the part after it.
  function SplitAtHash(s: string): Option<(string, string)> {
    if s == "" then None
    else if s[0] == '#' then Some(("", s[1..]))
    else match SplitAtHash(s[1..])
      case None => None
      case Some((left, right)) => Some(([s[0]] + left, right))
  }

  lemma {:induction false} SplitNumeral(left: string, right: string)
    requires forall i :: 0 <= i < |left| ==> IsDigit(left[i])
    ensures SplitAtHash(left + "#" + right) == Some((left, right))
  {
    var s := left + "#" + right;
    if left == "" {
      assert s[1..] == right;
    } else {
      SplitNumeral(left[1..], right);
      assert s[1..] == left[1..] + "#" + right;
      assert [left[0]] + left[1..] == left;
    }
  }

  // Splitting a rendered key recovers both numbers exactly.
  lemma {:induction false} KeyRoundTrip(worker: nat, replica: nat)
    ensures SplitAtHash(Key(worker, replica)) == Some((Decimal(worker), Decimal(replica)))
    ensures IsNumeral(Decimal(worker)) && Value(Decimal(worker)) == worker
    ensures IsNumeral(Decimal(replica)) && Value(Decimal(replica)) == replica
  {
    DecimalRoundTrip(worker);
    DecimalRoundTrip(replica);
    SplitNumeral(Decimal(worker), Decimal(replica));
  }

  lemma KeyInjective(w: nat, r: nat, w': nat, r': nat)
    ensures Key(w, r) == Key(w', r') <==> w == w' && r == r'
  {
    KeyRoundTrip(w, r);
    KeyRoundTrip(w', r');
  }

  // The worker a key names, when it names one.
  function WorkerOf(key: string): Option<nat> {
    match SplitAtHash(key)
    case None => None
    case Some((left, _)) => if IsNumeral(left) then Some(Value(left)) else None
  }
}
