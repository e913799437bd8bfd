/**
 HTTP/1.1 chunked transfer coding (section 7.1 of RFC 9112): the encoder is the
 proxy's token callback and its final write; the decoder is written from the
 standard, with chunk extensions, trailer fields and either case of hexadecimal.
 */
module ChunkedCoding {
  import opened Common

  const CR: Byte := 13
  const LF: Byte := 10
  const CRLF: Bytes := [CR, LF]
  const SEMICOLON: Byte := 59

  // ---------- hexadecimal ----------

  function HexDigit(d: nat): Byte
    requires d < 16
  {
    if d < 10 then 48 + d else 87 + d
  }

  // A length as `std::hex` prints it.
  function Hex(n: nat): Bytes {
    if n < 16 then [HexDigit(n)] else Hex(n / 16) + [HexDigit(n % 16)]
  }

  predicate IsHex(b: Byte) {
    48 <= b <= 57 || 65 <= b <= 70 || 97 <= b <= 102
  }

  function DigitValue(b: Byte): nat
    requires IsHex(b)
  {
    if b <= 57 then b - 48 else if b <= 70 then b - 55 else b - 87
  }

  predicate AllHex(s: Bytes) {
    forall i :: 0 <= i < |s| ==> IsHex(s[i])
  }

  function HexValue(s: Bytes): nat
    requires AllHex(s)
  {
    if s == [] then 0 else 16 * HexValue(s[..|s| - 1]) + DigitValue(s[|s| - 1])
  }

  lemma {:induction false} HexRoundTrip(n: nat)
    ensures Hex(n) != [] && AllHex(Hex(n)) && HexValue(Hex(n)) == n
  {
    if n < 16 {
      assert Hex(n)[..0] == [];
    } else {
      HexRoundTrip(n / 16);
      assert Hex(n)[..|Hex(n)| - 1] == Hex(n / 16);
    }
  }

  // As `std::hex` prints it: only the digits and the small letters, and no zero in front.
  lemma {:induction false} HexShape(n: nat)
    ensures forall i :: 0 <= i < |Hex(n)| ==> 48 <= Hex(n)[i] <= 57 || 97 <= Hex(n)[i] <= 102
    ensures if n == 0 then Hex(n) == [48] else Hex(n) != [] && Hex(n)[0] != 48
  {
    if n >= 16 {
      HexShape(n / 16);
    }
  }

  // ---------- the encoder ----------

  // What the token callback writes for one token.
  function Chunk(token: Bytes): Bytes {
    Hex(|token|) + CRLF + token + CRLF
  }

  function Wire(tokens: seq<Bytes>): Bytes {
    if tokens == [] then [] else Chunk(tokens[0]) + Wire(tokens[1..])
  }

  function Concat(tokens: seq<Bytes>): Bytes {
    if tokens == [] then [] else tokens[0] + Concat(tokens[1..])
  }

  // The final write: the zero chunk, with the literal's terminating NUL.
  const LAST: Bytes := [48] + CRLF + CRLF + [0]

  // ---------- the decoder ----------

  datatype Decoded = Body(body: Bytes, rest: Bytes) | Incomplete | Malformed

  // The number of bytes before the first CRLF.
  function LineLength(s: Bytes): (n: Option<nat>)
    ensures n.Some? ==> n.value + 2 <= |s|
  {
    if |s| < 2 then None
    else if s[..2] == CRLF then Some(0)
    else match LineLength(s[1..]) case None => None case Some(n) => Some(n + 1)
  }

  // The part of a size line before any chunk extension.
  function BeforeExtension(line: Bytes): Bytes {
    if line == [] || line[0] == SEMICOLON then [] else [line[0]] + BeforeExtension(line[1..])
  }

  function SizeOf(line: Bytes): Option<nat> {
    var digits := BeforeExtension(line);
    if digits == [] || !AllHex(digits) then None else Some(HexValue(digits))
  }

  // The trailer section: field lines up to an empty one.
  function SkipTrailers(s: Bytes): Decoded
    decreases |s|
  {
    match LineLength(s)
    case None => Incomplete
    case Some(n) => if n == 0 then Body([], s[2..]) else SkipTrailers(s[n + 2..])
  }

  function Prepend(data: Bytes, d: Decoded): Decoded {
    match d case Body(body, rest) => Body(data + body, rest) case _ => d
  }

  function Decode(s: Bytes): Decoded
    decreases |s|
  {
    match LineLength(s)
    case None => Incomplete
    case Some(n) =>
      match SizeOf(s[..n])
      case None => Malformed
      case Some(size) =>
        var data := s[n + 2..];
        if size == 0 then SkipTrailers(data)
        else if |data| < size + 2 then Incomplete
        else if data[size..size + 2] != CRLF then Malformed
        else Prepend(data[..size], Decode(data[size + 2..]))
  }

  // ---------- the decoder undoes the encoder ----------

  lemma {:induction false} LineEnds(line: Bytes, tail: Bytes)
    requires AllHex(line)
    ensures LineLength(line + CRLF + tail) == Some(|line|)
  {
    var s := line + CRLF + tail;
    if line == [] {
      assert s[..2] == CRLF;
    } else {
      LineEnds(line[1..], tail);
      assert s[1..] == line[1..] + CRLF + tail;
      assert s[..2][0] == line[0];
    }
  }

  lemma {:induction false} NoExtension(line: Bytes)
    requires AllHex(line)
    ensures BeforeExtension(line) == line
  {
    if line != [] {
      NoExtension(line[1..]);
    }
  }

  lemma {:induction false} ReadsSize(n: nat, tail: Bytes)
    ensures var s := Hex(n) + CRLF + tail;
            LineLength(s) == Some(|Hex(n)|) && SizeOf(s[..|Hex(n)|]) == Some(n) && s[|Hex(n)| + 2..] == tail
  {
    var s := Hex(n) + CRLF + tail;
    HexRoundTrip(n);
    LineEnds(Hex(n), tail);
    NoExtension(Hex(n));
    assert s[..|Hex(n)|] == Hex(n);
  }

  lemma {:induction false} ReadsChunk(token: Bytes, tail: Bytes)
    requires token != []
    ensures Decode(Chunk(token) + tail) == Prepend(token, Decode(tail))
  {
    var after := token + CRLF + tail;
    assert Chunk(token) + tail == Hex(|token|) + CRLF + after;
    ReadsSize(|token|, after);
    assert after[..|token|] == token;
    assert after[|token|..|token| + 2] == CRLF;
    assert after[|token| + 2..] == tail;
  }

  // An empty token would be read as the end of the body.
  lemma {:induction false} ReadsEmptyChunk(tail: Bytes)
    ensures Decode(Chunk([]) + tail) == Body([], tail)
  {
    var after := CRLF + tail;
    assert Chunk([]) + tail == Hex(0) + CRLF + after;
    ReadsSize(0, after);
    LineEnds([], tail);
    assert after == [] + CRLF + tail;
    assert after[2..] == tail;
  }

  ghost predicate NonEmpty(tokens: seq<Bytes>) {
    forall i :: 0 <= i < |tokens| ==> tokens[i] != []
  }

  lemma {:induction false} ReadsWire(tokens: seq<Bytes>, tail: Bytes)
    requires NonEmpty(tokens)
    ensures Decode(Wire(tokens) + tail) == Prepend(Concat(tokens), Decode(tail))
  {
    if tokens == [] {
      assert [] + tail == tail;
      assert Decode(tail).Body? ==> [] + Decode(tail).body == Decode(tail).body;
    } else {
      assert Wire(tokens) + tail == Chunk(tokens[0]) + (Wire(tokens[1..]) + tail);
      ReadsChunk(tokens[0], Wire(tokens[1..]) + tail);
      ReadsWire(tokens[1..], tail);
      var d := Decode(tail);
      assert d.Body? ==> tokens[0] + (Concat(tokens[1..]) + d.body) == tokens[0] + Concat(tokens[1..]) + d.body;
    }
  }

  lemma {:induction false} ReadsLast(rest: Bytes)
    ensures Decode(LAST + rest) == Body([], [0] + rest)
  {
    assert Hex(0) == [48];
    assert LAST + rest == Chunk([]) + ([0] + rest);
    ReadsEmptyChunk([0] + rest);
  }

  lemma {:induction false} WireAppend(tokens: seq<Bytes>, token: Bytes)
    ensures Wire(tokens + [token]) == Wire(tokens) + Chunk(token)
  {
    if tokens == [] {
      assert [] + [token] == [token];
      assert Wire([token]) == Chunk(token) + Wire([token][1..]);
    } else {
      WireAppend(tokens[1..], token);
      assert (tokens + [token])[1..] == tokens[1..] + [token];
    }
  }

  // A body that has not been terminated is never taken for a complete one.
  lemma {:induction false} OpenBody(tokens: seq<Bytes>)
    requires NonEmpty(tokens)
    ensures Decode(Wire(tokens)) == Incomplete
  {
    ReadsWire(tokens, []);
    assert Wire(tokens) + [] == Wire(tokens);
  }

  // Decoding stops at the first empty token and leaves the others unread.
  lemma {:induction false} StopsEarly(tokens: seq<Bytes>, tail: Bytes)
    requires !NonEmpty(tokens)
    ensures Decode(Wire(tokens) + tail).Body? && |Decode(Wire(tokens) + tail).rest| >= |tail|
  {
    if tokens[0] == [] {
      assert Wire(tokens) + tail == Chunk([]) + (Wire(tokens[1..]) + tail);
      ReadsEmptyChunk(Wire(tokens[1..]) + tail);
    } else {
      assert Wire(tokens) + tail == Chunk(tokens[0]) + (Wire(tokens[1..]) + tail);
      ReadsChunk(tokens[0], Wire(tokens[1..]) + tail);
      assert !NonEmpty(tokens[1..]) by {
        var i :| 0 <= i < |tokens| && tokens[i] == [];
        assert tokens[1..][i - 1] == [];
      }
      StopsEarly(tokens[1..], tail);
    }
  }

  // A terminated body decodes to the tokens' bytes, and whatever follows the
  // terminator is left alone, exactly when no token is empty.
  lemma {:induction false} DecodeExact(tokens: seq<Bytes>, rest: Bytes)
    ensures Decode(Wire(tokens) + (LAST + rest)) == Body(Concat(tokens), [0] + rest) <==> NonEmpty(tokens)
  {
    if NonEmpty(tokens) {
      ReadsWire(tokens, LAST + rest);
      ReadsLast(rest);
      assert Concat(tokens) + [] == Concat(tokens);
    } else {
      StopsEarly(tokens, LAST + rest);
    }
  }

  // ---------- what else the standard allows ----------

  // A chunk or a last chunk: its size, leading zeros and all, what may follow the size on
  // its line, and its data.
  datatype Piece = Piece(size: Bytes, extension: Bytes, data: Bytes)

  // No line end comes before the one that ends it.
  predicate IsLine(line: Bytes) {
    LineLength(line + CRLF) == Some(|line|)
  }

  predicate WellFormed(p: Piece) {
    && p.size != [] && AllHex(p.size) && HexValue(p.size) == |p.data|
    && (p.extension == [] || p.extension[0] == SEMICOLON)
    && IsLine(p.size + p.extension)
  }

  function Render(pieces: seq<Piece>): Bytes {
    if pieces == [] then []
    else SizeLine(pieces[0]) + (pieces[0].data + CRLF) + Render(pieces[1..])
  }

  function SizeLine(p: Piece): Bytes {
    p.size + p.extension + CRLF
  }

  function DataOf(pieces: seq<Piece>): Bytes {
    if pieces == [] then [] else pieces[0].data + DataOf(pieces[1..])
  }

  function Lines(lines: seq<Bytes>): Bytes {
    if lines == [] then [] else lines[0] + CRLF + Lines(lines[1..])
  }

  ghost predicate Standard(pieces: seq<Piece>, last: Piece, trailers: seq<Bytes>) {
    && (forall i :: 0 <= i < |pieces| ==> WellFormed(pieces[i]) && pieces[i].data != [])
    && WellFormed(last) && last.data == []
    && (forall i :: 0 <= i < |trailers| ==> trailers[i] != [] && IsLine(trailers[i]))
  }

  // The chunks, the last chunk, the trailer fields and the line that ends them.
  function Message(pieces: seq<Piece>, last: Piece, trailers: seq<Bytes>): Bytes {
    Render(pieces) + (SizeLine(last) + (Lines(trailers) + CRLF))
  }

  lemma {:induction false} LineFound(line: Bytes, tail: Bytes)
    requires IsLine(line)
    ensures LineLength(line + CRLF + tail) == Some(|line|)
  {
    var s := line + CRLF + tail;
    if line == [] {
      assert s[..2] == CRLF;
    } else {
      var short := line + CRLF;
      assert short[1..] == line[1..] + CRLF;
      LineFound(line[1..], tail);
      assert s[1..] == line[1..] + CRLF + tail;
      assert s[..2] == short[..2];
    }
  }

  lemma {:induction false} SizeBeforeExtension(size: Bytes, extension: Bytes)
    requires AllHex(size) && (extension == [] || extension[0] == SEMICOLON)
    ensures BeforeExtension(size + extension) == size
  {
    if size == [] {
      assert size + extension == extension;
    } else {
      SizeBeforeExtension(size[1..], extension);
      assert (size + extension)[1..] == size[1..] + extension;
    }
  }

  lemma {:induction false} ReadsSizeLine(p: Piece, tail: Bytes)
    requires WellFormed(p)
    ensures var s := SizeLine(p) + tail;
            var n := |p.size + p.extension|;
            && LineLength(s) == Some(n) && SizeOf(s[..n]) == Some(|p.data|) && s[n + 2..] == tail
  {
    var s := SizeLine(p) + tail;
    LineFound(p.size + p.extension, tail);
    SizeBeforeExtension(p.size, p.extension);
    assert s[..|p.size + p.extension|] == p.size + p.extension;
  }

  lemma {:induction false} SkipsTrailers(trailers: seq<Bytes>, rest: Bytes)
    requires forall i :: 0 <= i < |trailers| ==> trailers[i] != [] && IsLine(trailers[i])
    ensures SkipTrailers(Lines(trailers) + CRLF + rest) == Body([], rest)
  {
    var s := Lines(trailers) + CRLF + rest;
    if trailers == [] {
      assert s == [] + CRLF + rest;
      LineEnds([], rest);
      assert s[2..] == rest;
    } else {
      var tail := Lines(trailers[1..]) + CRLF + rest;
      assert s == trailers[0] + CRLF + tail;
      LineFound(trailers[0], tail);
      assert s[|trailers[0]| + 2..] == tail;
      SkipsTrailers(trailers[1..], rest);
    }
  }

  lemma {:induction false} ReadsPiece(p: Piece, later: Bytes)
    requires WellFormed(p) && p.data != []
    ensures Decode(SizeLine(p) + (p.data + CRLF + later)) == Prepend(p.data, Decode(later))
  {
    var tail := p.data + CRLF + later;
    ReadsSizeLine(p, tail);
    assert tail[..|p.data|] == p.data;
    assert tail[|p.data|..|p.data| + 2] == CRLF;
    assert tail[|p.data| + 2..] == later;
  }

  lemma {:induction false} ReadsLastPiece(last: Piece, trailers: seq<Bytes>, rest: Bytes)
    requires WellFormed(last) && last.data == []
    requires forall i :: 0 <= i < |trailers| ==> trailers[i] != [] && IsLine(trailers[i])
    ensures Decode(SizeLine(last) + (Lines(trailers) + CRLF + rest)) == Body([], rest)
  {
    ReadsSizeLine(last, Lines(trailers) + CRLF + rest);
    SkipsTrailers(trailers, rest);
  }

  // Every message of section 7.1 of RFC 9112 decodes to its data and leaves the rest.
  lemma {:induction false} ReadsStandard(pieces: seq<Piece>, last: Piece, trailers: seq<Bytes>, rest: Bytes)
    requires Standard(pieces, last, trailers)
    ensures Decode(Message(pieces, last, trailers) + rest) == Body(DataOf(pieces), rest)
  {
    var s := Message(pieces, last, trailers) + rest;
    if pieces == [] {
      ReadsLastPiece(last, trailers, rest);
      LastFront(SizeLine(last) + (Lines(trailers) + CRLF + rest), last, trailers, Lines(trailers) + CRLF + rest, rest);
    } else {
      var later := Message(pieces[1..], last, trailers) + rest;
      ReadsPiece(pieces[0], later);
      ReadsStandard(pieces[1..], last, trailers, rest);
      PieceFront(SizeLine(pieces[0]) + (pieces[0].data + CRLF + later), pieces[0], pieces[1..], last, trailers, later,
                 rest);
      assert [pieces[0]] + pieces[1..] == pieces;
    }
  }

  lemma {:induction false} LastFront(s: Bytes, last: Piece, trailers: seq<Bytes>, tail: Bytes, rest: Bytes)
    requires s == SizeLine(last) + tail && tail == Lines(trailers) + CRLF + rest
    ensures s == Message([], last, trailers) + rest
  {
  }

  lemma {:induction false} PieceFront(s: Bytes, p: Piece, more: seq<Piece>, last: Piece, trailers: seq<Bytes>,
                                      later: Bytes, rest: Bytes)
    requires s == SizeLine(p) + (p.data + CRLF + later) && later == Message(more, last, trailers) + rest
    ensures s == Message([p] + more, last, trailers) + rest
    ensures DataOf([p] + more) == p.data + DataOf(more)
  {
    assert ([p] + more)[1..] == more;
    var front, tail := SizeLine(p) + (p.data + CRLF), SizeLine(last) + (Lines(trailers) + CRLF);
    assert Render([p] + more) == front + Render(more);
    assert s == front + (Render(more) + tail + rest);
    assert s == (front + Render(more) + tail) + rest;
  }

  // ---------- and nothing but that ----------

  lemma {:induction false} LineSplit(s: Bytes)
    requires LineLength(s).Some?
    ensures var n := LineLength(s).value;
            IsLine(s[..n]) && s == s[..n] + CRLF + s[n + 2..]
  {
    var n := LineLength(s).value;
    if n == 0 {
      assert s[..0] + CRLF == CRLF;
      assert CRLF[..2] == CRLF;
    } else {
      LineSplit(s[1..]);
      assert s[1..][..n - 1] == s[..n][1..] && s[1..][n - 1 + 2..] == s[n + 2..];
      var short := s[..n] + CRLF;
      assert short[1..] == s[1..][..n - 1] + CRLF;
      assert s == [s[0]] + s[1..];
      assert s == s[..n] + CRLF + s[n + 2..];
      assert short == s[..n + 2];
      assert short[..2] == s[..2];
    }
  }

  lemma {:induction false} ExtensionSplit(line: Bytes)
    ensures var size := BeforeExtension(line);
            && |size| <= |line| && line == size + line[|size|..]
            && (line[|size|..] == [] || line[|size|..][0] == SEMICOLON)
  {
    if line != [] && line[0] != SEMICOLON {
      ExtensionSplit(line[1..]);
      assert line == [line[0]] + line[1..];
      assert line[|BeforeExtension(line)|..] == line[1..][|BeforeExtension(line[1..])|..];
    } else {
      assert line[0..] == line;
    }
  }

  lemma {:induction false} SizeLineSplit(s: Bytes, data: Bytes) returns (p: Piece)
    requires LineLength(s).Some? && SizeOf(s[..LineLength(s).value]) == Some(|data|)
    ensures WellFormed(p) && p.data == data && s == SizeLine(p) + s[LineLength(s).value + 2..]
  {
    var n := LineLength(s).value;
    var size := BeforeExtension(s[..n]);
    LineSplit(s);
    ExtensionSplit(s[..n]);
    p := Piece(size, s[..n][|size|..], data);
    assert p.size + p.extension == s[..n];
  }

  lemma {:induction false} TrailersSplit(s: Bytes) returns (trailers: seq<Bytes>)
    requires SkipTrailers(s).Body?
    ensures forall i :: 0 <= i < |trailers| ==> trailers[i] != [] && IsLine(trailers[i])
    ensures s == Lines(trailers) + CRLF + SkipTrailers(s).rest && SkipTrailers(s).body == []
    decreases |s|
  {
    var n := LineLength(s).value;
    LineSplit(s);
    if n == 0 {
      trailers := [];
      assert s == [] + CRLF + s[2..];
    } else {
      var more := TrailersSplit(s[n + 2..]);
      trailers := [s[..n]] + more;
      LineFront(s, s[..n], more, s[n + 2..], SkipTrailers(s).rest);
    }
  }

  lemma {:induction false} LineFront(s: Bytes, line: Bytes, more: seq<Bytes>, later: Bytes, rest: Bytes)
    requires s == line + CRLF + later && later == Lines(more) + CRLF + rest
    ensures s == Lines([line] + more) + CRLF + rest
  {
    assert ([line] + more)[1..] == more;
    assert s == line + CRLF + Lines(more) + CRLF + rest;
  }

  lemma {:induction false} PieceSplit(s: Bytes) returns (p: Piece, later: Bytes)
    requires Decode(s).Body? && SizeOf(s[..LineLength(s).value]) != Some(0)
    ensures WellFormed(p) && p.data != [] && |later| < |s|
    ensures s == SizeLine(p) + (p.data + CRLF + later)
    ensures Decode(s) == Prepend(p.data, Decode(later))
  {
    var n := LineLength(s).value;
    var size := SizeOf(s[..n]).value;
    var tail := s[n + 2..];
    PieceDecodes(s, n, size, tail);
    later := tail[size + 2..];
    p := SizeLineSplit(s, tail[..size]);
    DataEnds(tail, size);
  }

  lemma {:induction false} PieceDecodes(s: Bytes, n: nat, size: nat, tail: Bytes)
    requires Decode(s).Body? && LineLength(s) == Some(n) && SizeOf(s[..n]) == Some(size) && size > 0
    requires tail == s[n + 2..]
    ensures |tail| >= size + 2 && tail[size..size + 2] == CRLF
    ensures Decode(s) == Prepend(tail[..size], Decode(tail[size + 2..]))
  {
  }

  lemma DataEnds(tail: Bytes, size: nat)
    requires |tail| >= size + 2 && tail[size..size + 2] == CRLF
    ensures tail == tail[..size] + CRLF + tail[size + 2..]
  {
  }

  lemma {:induction false} LastSplit(s: Bytes) returns (last: Piece, trailers: seq<Bytes>)
    requires Decode(s).Body? && SizeOf(s[..LineLength(s).value]) == Some(0)
    ensures Standard([], last, trailers)
    ensures s == Message([], last, trailers) + Decode(s).rest && Decode(s).body == []
  {
    var tail := s[LineLength(s).value + 2..];
    last := SizeLineSplit(s, []);
    trailers := TrailersSplit(tail);
    LastFront(s, last, trailers, tail, Decode(s).rest);
  }

  // Whatever decodes to a body is a message of the standard with that data, and the rest.
  lemma {:induction false} OnlyStandard(s: Bytes) returns (pieces: seq<Piece>, last: Piece, trailers: seq<Bytes>)
    requires Decode(s).Body?
    ensures Standard(pieces, last, trailers)
    ensures s == Message(pieces, last, trailers) + Decode(s).rest && Decode(s).body == DataOf(pieces)
    decreases |s|
  {
    if SizeOf(s[..LineLength(s).value]) == Some(0) {
      last, trailers := LastSplit(s);
      pieces := [];
    } else {
      var p, later := PieceSplit(s);
      var more;
      more, last, trailers := OnlyStandard(later);
      pieces := [p] + more;
      StandardMore(p, more, last, trailers);
      PieceFront(s, p, more, last, trailers, later, Decode(later).rest);
    }
  }

  lemma StandardMore(p: Piece, more: seq<Piece>, last: Piece, trailers: seq<Bytes>)
    requires WellFormed(p) && p.data != [] && Standard(more, last, trailers)
    ensures Standard([p] + more, last, trailers)
  {
  }

  // ---------- a body cut short ----------

  lemma {:induction false} NoLineEnd(line: Bytes, k: nat)
    requires AllHex(line) && k < |line| + 2
    ensures LineLength((line + CRLF)[..k]) == None
  {
    var s := (line + CRLF)[..k];
    if k >= 2 {
      var rest := (line[1..] + CRLF)[..k - 1];
      NoLineEnd(line[1..], k - 1);
      assert line + CRLF == [line[0]] + (line[1..] + CRLF);
      assert s == [line[0]] + rest;
      assert s[1..] == rest;
      assert s[..2][0] == line[0];
    }
  }

  // A size line that has not ended yet.
  lemma {:induction false} CutSize(n: nat, tail: Bytes, k: nat)
    requires k < |Hex(n)| + 2
    ensures Decode((Hex(n) + CRLF + tail)[..k]) == Incomplete
  {
    HexRoundTrip(n);
    NoLineEnd(Hex(n), k);
    assert (Hex(n) + CRLF + tail)[..k] == (Hex(n) + CRLF)[..k];
  }

  lemma CutChunk(token: Bytes, k: nat)
    requires token != [] && k < |Chunk(token)|
    ensures Decode(Chunk(token)[..k]) == Incomplete
  {
    var head := Hex(|token|) + CRLF;
    var data := token + CRLF;
    assert Chunk(token) == head + data;
    if k < |head| {
      CutSize(|token|, data, k);
    } else {
      var tail := data[..k - |head|];
      assert Chunk(token)[..k] == head + tail;
      ReadsSize(|token|, tail);
    }
  }

  // Where the terminator ends and its NUL begins.
  const MARK: nat := 5

  lemma CutLast(k: nat)
    requires k < MARK
    ensures Decode(LAST[..k]) == Incomplete
  {
    assert Hex(0) == [48];
    assert LAST == Hex(0) + CRLF + (CRLF + [0]);
    if k < 3 {
      CutSize(0, CRLF + [0], k);
    } else {
      var tail := LAST[3..k];
      assert LAST[..k] == Hex(0) + CRLF + tail;
      ReadsSize(0, tail);
      assert |tail| < 2;
    }
  }

  // However many bytes of a terminated body a client has: until the terminator is whole
  // the body is incomplete, and from then on it is exactly the tokens' bytes.
  lemma {:induction false} CutExact(tokens: seq<Bytes>, n: nat)
    requires NonEmpty(tokens) && n <= |Wire(tokens) + LAST|
    ensures Decode((Wire(tokens) + LAST)[..n]) ==
            if n < |Wire(tokens)| + MARK then Incomplete
            else Body(Concat(tokens), LAST[MARK..n - |Wire(tokens)|])
  {
    if tokens == [] {
      assert Wire(tokens) + LAST == LAST;
      CutTerminator(n);
    } else {
      var rest := Wire(tokens[1..]) + LAST;
      assert Wire(tokens) + LAST == Chunk(tokens[0]) + rest;
      CutFirst(tokens[0], rest, n);
      if n >= |Chunk(tokens[0])| {
        CutExact(tokens[1..], n - |Chunk(tokens[0])|);
      }
    }
  }

  lemma CutTerminator(n: nat)
    requires n <= |LAST|
    ensures Decode(LAST[..n]) == if n < MARK then Incomplete else Body([], LAST[MARK..n])
  {
    if n < MARK {
      CutLast(n);
    } else {
      assert Hex(0) == [48];
      assert LAST[..n] == Chunk([]) + LAST[MARK..n];
      ReadsEmptyChunk(LAST[MARK..n]);
    }
  }

  lemma CutFirst(token: Bytes, rest: Bytes, n: nat)
    requires token != [] && n <= |Chunk(token) + rest|
    ensures Decode((Chunk(token) + rest)[..n]) ==
            if n < |Chunk(token)| then Incomplete else Prepend(token, Decode(rest[..n - |Chunk(token)|]))
  {
    var first := Chunk(token);
    if n < |first| {
      assert (first + rest)[..n] == first[..n];
      CutChunk(token, n);
    } else {
      assert (first + rest)[..n] == first + rest[..n - |first|];
      ReadsChunk(token, rest[..n - |first|]);
    }
  }
}
