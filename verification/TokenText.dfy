/**
 From the model's cumulative outputs to byte tokens: `generate_stream` sends only
 what is new in each output, and crossing into C++ encodes it as UTF-8.
 */
module TokenText {
  import opened Common
  import opened ChunkedCoding

  // ---------- UTF-8 ----------

  // RFC 3629; a Dafny char is a Unicode scalar value.
  function Utf8Char(c: char): (bs: Bytes)
    ensures bs != []
  {
    var n := c as int;
    if n < 0x80 then [n]
    else if n < 0x800 then [0xC0 + n / 0x40, 0x80 + n % 0x40]
    else if n < 0x10000 then [0xE0 + n / 0x1000, 0x80 + n / 0x40 % 0x40, 0x80 + n % 0x40]
    else [0xF0 + n / 0x40000, 0x80 + n / 0x1000 % 0x40, 0x80 + n / 0x40 % 0x40, 0x80 + n % 0x40]
  }

  function Spell(encode: char -> Bytes, text: string): Bytes {
    if text == "" then [] else encode(text[0]) + Spell(encode, text[1..])
  }

  // Any encoding that goes character by character respects concatenation.
  lemma {:induction false} SpellConcat(encode: char -> Bytes, a: string, b: string)
    ensures Spell(encode, a + b) == Spell(encode, a) + Spell(encode, b)
  {
    if a == "" {
      assert a + b == b;
    } else {
      assert (a + b)[1..] == a[1..] + b && (a + b)[0] == a[0];
      SpellConcat(encode, a[1..], b);
    }
  }

  function Utf8(text: string): Bytes {
    Spell(Utf8Char, text)
  }

  // ---------- reading UTF-8 back ----------

  predicate IsTail(b: Byte) {
    0x80 <= b < 0xC0
  }

  // What a leading byte and the tail bytes after it stand for.
  function Weight(lead: int, tails: seq<Byte>): int {
    if tails == [] then lead else 0x40 * Weight(lead, tails[..|tails| - 1]) + tails[|tails| - 1] as int - 0x80
  }

  // How many tail bytes a leading byte announces, and what it carries itself.
  function Lead(b: Byte): Option<(nat, int)> {
    if b < 0x80 then Some((0, b as int))
    else if 0xC0 <= b < 0xE0 then Some((1, b as int - 0xC0))
    else if 0xE0 <= b < 0xF0 then Some((2, b as int - 0xE0))
    else if 0xF0 <= b < 0xF8 then Some((3, b as int - 0xF0))
    else None
  }

  // The least number that needs that many tail bytes.
  function Shortest(tails: nat): int {
    if tails == 0 then 0 else if tails == 1 then 0x80 else if tails == 2 then 0x800 else 0x10000
  }

  // The character at the front of some bytes, and how many bytes it takes: section 3 of
  // RFC 3629, which allows neither longer forms nor surrogates.
  function CharAtFront(bs: Bytes): (front: Option<(char, nat)>)
    ensures front.Some? ==> 0 < front.value.1 <= |bs|
  {
    if bs == [] then None
    else
      match Lead(bs[0])
      case None => None
      case Some((k, lead)) =>
        if |bs| <= k || exists i :: 1 <= i <= k && !IsTail(bs[i]) then None
        else
          var n := Weight(lead, bs[1..k + 1]);
          if Shortest(k) <= n < 0xD800 || (Shortest(k) <= n && 0xE000 <= n < 0x110000) then Some((n as char, k + 1))
          else None
  }

  function ReadUtf8(bs: Bytes): Option<string>
    decreases |bs|
  {
    if bs == [] then Some("")
    else
      match CharAtFront(bs)
      case None => None
      case Some((c, n)) =>
        (match ReadUtf8(bs[n..]) case None => None case Some(text) => Some([c] + text))
  }

  // Writing a number in base 64 loses nothing.
  lemma {:induction false} Weights(lead: int, a: Byte, b: Byte, c: Byte)
    ensures Weight(lead, []) == lead
    ensures Weight(lead, [a]) == 0x40 * lead + a as int - 0x80
    ensures Weight(lead, [a, b]) == 0x40 * Weight(lead, [a]) + b as int - 0x80
    ensures Weight(lead, [a, b, c]) == 0x40 * Weight(lead, [a, b]) + c as int - 0x80
  {
    assert [a][..0] == [];
    assert [a, b][..1] == [a];
    assert [a, b, c][..2] == [a, b];
  }

  lemma ThreeDigits(n: nat)
    ensures n == 0x40 * (0x40 * (n / 0x1000) + n / 0x40 % 0x40) + n % 0x40
  {
    var m := n / 0x40;
    assert m / 0x40 == n / 0x1000;
    assert m == 0x40 * (m / 0x40) + m % 0x40;
  }

  lemma FourDigits(n: nat)
    ensures n == 0x40 * (0x40 * (0x40 * (n / 0x40000) + n / 0x1000 % 0x40) + n / 0x40 % 0x40) + n % 0x40
  {
    ThreeDigits(n);
  }

  lemma ReadsChar(c: char, rest: Bytes)
    ensures CharAtFront(Utf8Char(c) + rest) == Some((c, |Utf8Char(c)|))
  {
    var n := c as int;
    var bs, k := Utf8Char(c), |Utf8Char(c)| - 1;
    CharShape(c);
    CharWeight(c);
    assert n < 0xD800 || 0xE000 <= n < 0x110000;
    assert (bs + rest)[1..k + 1] == bs[1..];
    assert forall i :: 1 <= i <= k ==> (bs + rest)[i] == bs[i];
  }

  // The encoder's leading byte announces its tail bytes, of which there are no more than
  // the number needs.
  lemma CharShape(c: char)
    ensures var n, bs := c as int, Utf8Char(c);
            && (forall i :: 1 <= i < |bs| ==> IsTail(bs[i]))
            && Shortest(|bs| - 1) <= n
            && 1 <= |bs| <= 4
            && Lead(bs[0]) == Some((|bs| - 1, if |bs| == 1 then n else if |bs| == 2 then n / 0x40
                                              else if |bs| == 3 then n / 0x1000 else n / 0x40000))
  {
  }

  // Together they carry the number.
  lemma CharWeight(c: char)
    ensures var bs := Utf8Char(c);
            Lead(bs[0]).Some? && Weight(Lead(bs[0]).value.1, bs[1..]) == c as int
  {
    var n, bs := c as int, Utf8Char(c);
    CharShape(c);
    if |bs| == 1 {
      assert bs[1..] == [];
    } else if |bs| == 2 {
      assert bs[1..] == [bs[1]];
      Weights(n / 0x40, bs[1], 0, 0);
    } else if |bs| == 3 {
      assert bs[1..] == [bs[1], bs[2]];
      ThreeDigits(n);
      Weights(n / 0x1000, bs[1], bs[2], 0);
    } else {
      assert bs[1..] == [bs[1], bs[2], bs[3]];
      FourDigits(n);
      Weights(n / 0x40000, bs[1], bs[2], bs[3]);
    }
  }

  // Whatever is encoded reads back as itself.
  lemma {:induction false} Utf8RoundTrip(text: string)
    ensures ReadUtf8(Utf8(text)) == Some(text)
  {
    if text != "" {
      var rest := Utf8(text[1..]);
      ReadsChar(text[0], rest);
      assert (Utf8Char(text[0]) + rest)[|Utf8Char(text[0])|..] == rest;
      Utf8RoundTrip(text[1..]);
      assert [text[0]] + text[1..] == text;
    }
  }

  // The digits of a number in base 64, from the last one on.
  lemma LastDigit(q: nat, t: nat)
    requires t < 0x40
    ensures (0x40 * q + t) / 0x40 == q && (0x40 * q + t) % 0x40 == t
  {
  }

  lemma DivTwice(n: nat)
    ensures n / 0x1000 == n / 0x40 / 0x40 && n / 0x40000 == n / 0x40 / 0x40 / 0x40
  {
  }

  lemma {:induction false} OneTail(c: char, lead: nat, a: Byte)
    requires lead < 0x20 && IsTail(a) && c as int == Weight(lead, [a]) && 0x80 <= c as int
    ensures Utf8Char(c) == [0xC0 + lead, a]
  {
    Weights(lead, a, 0, 0);
    LastDigit(lead, a - 0x80);
  }

  lemma {:induction false} TwoTails(c: char, lead: nat, a: Byte, b: Byte)
    requires lead < 0x10 && IsTail(a) && IsTail(b) && c as int == Weight(lead, [a, b]) && 0x800 <= c as int
    ensures Utf8Char(c) == [0xE0 + lead, a, b]
  {
    Weights(lead, a, b, 0);
    LastDigit(0x40 * lead + (a - 0x80), b - 0x80);
    LastDigit(lead, a - 0x80);
    DivTwice(c as int);
  }

  lemma {:induction false} ThreeTails(c: char, lead: nat, a: Byte, b: Byte, d: Byte)
    requires IsTail(a) && IsTail(b) && IsTail(d) && c as int == Weight(lead, [a, b, d]) && 0x10000 <= c as int
    ensures Utf8Char(c) == [0xF0 + lead, a, b, d]
  {
    Weights(lead, a, b, d);
    var u := 0x40 * lead + (a - 0x80);
    LastDigit(0x40 * u + (b - 0x80), d - 0x80);
    LastDigit(u, b - 0x80);
    LastDigit(lead, a - 0x80);
    DivTwice(c as int);
  }

  // What reads as a character is that character's encoding, and nothing else.
  lemma FrontIsEncoded(bs: Bytes, c: char, n: nat)
    requires CharAtFront(bs) == Some((c, n))
    ensures n <= |bs| && bs[..n] == Utf8Char(c)
  {
    FrontParts(bs, c, n);
    if n == 1 {
    } else if n == 2 {
      OneTail(c, bs[0] - 0xC0, bs[1]);
    } else if n == 3 {
      TwoTails(c, bs[0] - 0xE0, bs[1], bs[2]);
    } else {
      ThreeTails(c, bs[0] - 0xF0, bs[1], bs[2], bs[3]);
    }
  }

  lemma FrontParts(bs: Bytes, c: char, n: nat)
    requires CharAtFront(bs) == Some((c, n))
    ensures 1 <= n <= 4 && n <= |bs| && (forall i :: 1 <= i < n ==> IsTail(bs[i])) && Shortest(n - 1) <= c as int
    ensures n == 1 ==> bs[0] < 0x80 && c as int == bs[0]
    ensures n == 2 ==> 0xC0 <= bs[0] < 0xE0 && c as int == Weight(bs[0] - 0xC0, [bs[1]])
    ensures n == 3 ==> 0xE0 <= bs[0] < 0xF0 && c as int == Weight(bs[0] - 0xE0, [bs[1], bs[2]])
    ensures n == 4 ==> 0xF0 <= bs[0] && c as int == Weight(bs[0] - 0xF0, [bs[1], bs[2], bs[3]])
  {
    var k := n - 1;
    if k == 0 {
      assert bs[1..1] == [];
    } else if k == 1 {
      assert bs[1..2] == [bs[1]];
    } else if k == 2 {
      assert bs[1..3] == [bs[1], bs[2]];
    } else if k == 3 {
      assert bs[1..4] == [bs[1], bs[2], bs[3]];
    }
  }

  lemma {:induction false} OnlyEncodedReads(bs: Bytes, text: string)
    requires ReadUtf8(bs) == Some(text)
    ensures bs == Utf8(text)
    decreases |bs|
  {
    if bs != [] {
      var c, n := CharAtFront(bs).value.0, CharAtFront(bs).value.1;
      FrontIsEncoded(bs, c, n);
      assert text == [c] + text[1..] && ReadUtf8(bs[n..]) == Some(text[1..]);
      OnlyEncodedReads(bs[n..], text[1..]);
      assert bs == bs[..n] + bs[n..];
    }
  }

  // Bytes read as a text exactly when they are its encoding.
  lemma {:induction false} ReadsExactly(bs: Bytes, text: string)
    ensures ReadUtf8(bs) == Some(text) <==> bs == Utf8(text)
  {
    Utf8RoundTrip(text);
    if ReadUtf8(bs) == Some(text) {
      OnlyEncodedReads(bs, text);
    }
  }

  function EncodeAll(texts: seq<string>): (tokens: seq<Bytes>) {
    seq(|texts|, i requires 0 <= i < |texts| => Utf8(texts[i]))
  }

  function Join(texts: seq<string>): string {
    if texts == [] then "" else texts[0] + Join(texts[1..])
  }

  lemma {:induction false} ConcatEncoded(texts: seq<string>)
    ensures Concat(EncodeAll(texts)) == Utf8(Join(texts))
  {
    if texts != [] {
      ConcatEncoded(texts[1..]);
      assert EncodeAll(texts)[1..] == EncodeAll(texts[1..]);
      SpellConcat(Utf8Char, texts[0], Join(texts[1..]));
    }
  }

  // ---------- deltas of cumulative outputs ----------

  // Python's `text[position:]`.
  function From(text: string, position: nat): string {
    if position <= |text| then text[position..] else ""
  }

  // The texts sent for the remaining outputs once `sent` characters have gone out.
  function Deltas(outs: seq<string>, sent: nat): seq<string> {
    if outs == [] then []
    else if From(outs[0], sent) == "" then Deltas(outs[1..], sent)
    else [From(outs[0], sent)] + Deltas(outs[1..], |outs[0]|)
  }

  function Longest(outs: seq<string>, sent: nat): (n: nat)
    ensures n >= sent
  {
    if outs == [] then sent else Longest(outs[1..], if |outs[0]| > sent then |outs[0]| else sent)
  }

  // The first output that has a character at position `j`.
  function FirstReaching(outs: seq<string>, j: nat): (k: nat)
    ensures k <= |outs|
    ensures forall i :: 0 <= i < k ==> |outs[i]| <= j
    ensures k < |outs| ==> |outs[k]| > j
  {
    if outs == [] || |outs[0]| > j then 0 else FirstReaching(outs[1..], j) + 1
  }

  lemma {:induction false} DeltasAt(outs: seq<string>, sent: nat, j: nat)
    requires sent <= j < Longest(outs, sent)
    ensures |Join(Deltas(outs, sent))| == Longest(outs, sent) - sent
    ensures FirstReaching(outs, j) < |outs|
    ensures Join(Deltas(outs, sent))[j - sent] == outs[FirstReaching(outs, j)][j]
  {
    if |outs[0]| > sent {
      DeltasLength(outs[1..], |outs[0]|);
      if j >= |outs[0]| {
        DeltasAt(outs[1..], |outs[0]|, j);
      }
    } else {
      DeltasAt(outs[1..], sent, j);
    }
  }

  lemma {:induction false} DeltasLength(outs: seq<string>, sent: nat)
    ensures |Join(Deltas(outs, sent))| == Longest(outs, sent) - sent
  {
    if outs != [] {
      DeltasLength(outs[1..], if |outs[0]| > sent then |outs[0]| else sent);
    }
  }

  // For any outputs at all: the text sent is as long as the longest of them, and
  // each of its characters comes from the first output long enough to have it.
  lemma {:induction false} SentText(outs: seq<string>)
    ensures |Join(Deltas(outs, 0))| == Longest(outs, 0)
    ensures forall i :: 0 <= i < |outs| ==> |outs[i]| <= Longest(outs, 0)
    ensures forall j :: 0 <= j < Longest(outs, 0) ==>
              FirstReaching(outs, j) < |outs| && Join(Deltas(outs, 0))[j] == outs[FirstReaching(outs, j)][j]
  {
    DeltasLength(outs, 0);
    LongestBounds(outs, 0);
    forall j | 0 <= j < Longest(outs, 0)
      ensures FirstReaching(outs, j) < |outs| && Join(Deltas(outs, 0))[j] == outs[FirstReaching(outs, j)][j]
    {
      DeltasAt(outs, 0, j);
    }
  }

  lemma {:induction false} LongestBounds(outs: seq<string>, sent: nat)
    ensures forall i :: 0 <= i < |outs| ==> |outs[i]| <= Longest(outs, sent)
  {
    if outs != [] {
      LongestBounds(outs[1..], if |outs[0]| > sent then |outs[0]| else sent);
      forall i | 0 <= i < |outs| ensures |outs[i]| <= Longest(outs, sent) {
        if i > 0 {
          assert outs[i] == outs[1..][i - 1];
        }
      }
    }
  }

  // Each output extends the one before it.
  ghost predicate Cumulative(outs: seq<string>) {
    forall i, j :: 0 <= i <= j < |outs| ==> outs[i] <= outs[j]
  }

  function Final(outs: seq<string>): string {
    if outs == [] then "" else outs[|outs| - 1]
  }

  // No output is longer than the final one, and each agrees with it where it first
  // reached further than those before.
  ghost predicate AgreesWithFinal(outs: seq<string>) {
    && (forall i :: 0 <= i < |outs| ==> |outs[i]| <= |Final(outs)|)
    && (forall j :: 0 <= j < |Final(outs)| ==> outs[FirstReaching(outs, j)][j] == Final(outs)[j])
  }

  lemma {:induction false} AgreeingIsFinal(outs: seq<string>)
    requires AgreesWithFinal(outs)
    ensures Join(Deltas(outs, 0)) == Final(outs)
  {
    SentText(outs);
    LongestAttained(outs, 0);
    assert |Join(Deltas(outs, 0))| == |Final(outs)|;
    forall j | 0 <= j < |Final(outs)| ensures Join(Deltas(outs, 0))[j] == Final(outs)[j] {
      assert outs[FirstReaching(outs, j)][j] == Final(outs)[j];
    }
  }

  lemma CumulativeAgrees(outs: seq<string>)
    requires Cumulative(outs)
    ensures AgreesWithFinal(outs)
  {
    if outs != [] {
      forall j | 0 <= j < |Final(outs)| ensures outs[FirstReaching(outs, j)][j] == Final(outs)[j] {
        var k := FirstReaching(outs, j);
        assert |outs[|outs| - 1]| > j;
        assert outs[k] <= outs[|outs| - 1];
      }
      forall i | 0 <= i < |outs| ensures |outs[i]| <= |Final(outs)| {
        assert outs[i] <= outs[|outs| - 1];
      }
    }
  }

  // What is sent is the final output exactly when the outputs agree with it so, and
  // cumulative outputs do.
  lemma {:induction false} SentIsFinal(outs: seq<string>)
    ensures Join(Deltas(outs, 0)) == Final(outs) <==> AgreesWithFinal(outs)
    ensures Cumulative(outs) ==> Join(Deltas(outs, 0)) == Final(outs)
  {
    SentText(outs);
    if AgreesWithFinal(outs) {
      AgreeingIsFinal(outs);
    }
    if Cumulative(outs) {
      CumulativeAgrees(outs);
    }
  }

  // An engine that rewrites what it said: the second output is as long as the first, so
  // nothing of it is sent.
  lemma NotFinal()
    ensures Join(Deltas(["ab", "cd"], 0)) == "ab" && Final(["ab", "cd"]) == "cd"
  {
    var outs := ["ab", "cd"];
    assert outs[1..] == ["cd"] && outs[1..][1..] == [];
    assert Deltas(outs[1..], 2) == [];
    assert Deltas(outs, 0) == ["ab"];
    assert ["ab"][1..] == [];
  }

  lemma {:induction false} LongestAttained(outs: seq<string>, sent: nat)
    ensures Longest(outs, sent) == sent || exists i :: 0 <= i < |outs| && |outs[i]| == Longest(outs, sent)
  {
    if outs != [] {
      var rest := outs[1..];
      LongestAttained(rest, if |outs[0]| > sent then |outs[0]| else sent);
      if i :| 0 <= i < |rest| && |rest[i]| == Longest(outs, sent) {
        assert outs[i + 1] == rest[i];
      }
    }
  }

  // ---------- one generation job ----------

  // The outputs the engine yields, and the message of the exception it then
  // raises, if it raises one.
  datatype Job = Job(outs: seq<string>, crash: Option<string>)

  function CrashText(crash: Option<string>): seq<string> {
    match crash case None => [] case Some(message) => ["[PYTHON ERROR] " + message]
  }

  // Everything the job puts into the queue before closing it.
  function Texts(job: Job): seq<string> {
    Deltas(job.outs, 0) + CrashText(job.crash)
  }

  function Tokens(job: Job): seq<Bytes> {
    EncodeAll(Texts(job))
  }

  // The text a client is meant to end up with.
  function Answer(job: Job): string {
    Join(Deltas(job.outs, 0)) + Join(CrashText(job.crash))
  }

  lemma {:induction false} JoinAppend(a: seq<string>, b: seq<string>)
    ensures Join(a + b) == Join(a) + Join(b)
  {
    if a == [] {
      assert a + b == b;
    } else {
      assert (a + b)[1..] == a[1..] + b && (a + b)[0] == a[0];
      JoinAppend(a[1..], b);
    }
  }

  lemma EncodedNonEmpty(texts: seq<string>)
    requires forall i :: 0 <= i < |texts| ==> texts[i] != ""
    ensures NonEmpty(EncodeAll(texts))
  {
    forall i | 0 <= i < |texts| ensures EncodeAll(texts)[i] != [] {
      assert Utf8(texts[i]) == Utf8Char(texts[i][0]) + Utf8(texts[i][1..]);
    }
  }

  lemma {:induction false} DeltasNonEmpty(outs: seq<string>, sent: nat)
    ensures forall i :: 0 <= i < |Deltas(outs, sent)| ==> Deltas(outs, sent)[i] != ""
  {
    if outs != [] {
      DeltasNonEmpty(outs[1..], if |outs[0]| > sent then |outs[0]| else sent);
    }
  }

  // No token of a job is empty, and together they spell the answer.
  lemma TokensSpell(job: Job)
    ensures NonEmpty(Tokens(job))
    ensures Concat(Tokens(job)) == Utf8(Answer(job))
  {
    DeltasNonEmpty(job.outs, 0);
    EncodedNonEmpty(Texts(job));
    ConcatEncoded(Texts(job));
    JoinAppend(Deltas(job.outs, 0), CrashText(job.crash));
  }
}
