/**
 * The wire format: arrays of bulk strings as in the Redis serialization protocol,
 * what one attempt to extract a request makes of any buffer, and the printer.
 *
 * Lengths are read with strtoul, so a length line may carry leading white space,
 * a sign or an embedded NUL, and `-n` means 2^64 - n; positions are computed in
 * 64 bits and wrap.
 */
module RespFormat {
  import opened Wrappers
  import opened Bytes

  const CR: byte := 13
  const LF: byte := 10
  const STAR: byte := 42
  const DOLLAR: byte := 36
  const CRLF: Bytes := [CR, LF]

  /** No std::string is longer than this. */
  const MAX_STRING: nat := 0x7fff_ffff_ffff_ffff
  /** vector::reserve throws beyond max_size: 2^63 - 1 bytes of 32-byte strings. */
  const MAX_TOKENS: nat := 0x3ff_ffff_ffff_ffff

  type Request = seq<Bytes>

  // -------------------------------------------------------------- length lines

  predicate IsSpace(b: byte) { b == 32 || 9 <= b <= 13 }
  predicate IsDigit(b: byte) { 48 <= b <= 57 }

  function SkipSpace(t: Bytes, i: nat): (j: nat)
    requires i <= |t|
    ensures i <= j <= |t|
    decreases |t| - i
  {
    if i < |t| && IsSpace(t[i]) then SkipSpace(t, i + 1) else i
  }

  function DigitsEnd(t: Bytes, i: nat): (j: nat)
    requires i <= |t|
    ensures i <= j <= |t| && (forall k :: i <= k < j ==> IsDigit(t[k])) && (j < |t| ==> !IsDigit(t[j]))
    decreases |t| - i
  {
    if i < |t| && IsDigit(t[i]) then DigitsEnd(t, i + 1) else i
  }

  function DecimalValue(digits: Bytes): nat
    requires forall d :: d in digits ==> IsDigit(d)
  {
    if digits == [] then 0
    else
      var last: int := digits[|digits| - 1];
      assert IsDigit(digits[|digits| - 1]);
      10 * DecimalValue(digits[..|digits| - 1]) + (last - 48)
  }

  /** TryParseSize: strtoul with base 10 on the text up to its first NUL. */
  function ParseSize(text: Bytes): (size: Option<nat>)
    ensures size.Some? ==> size.value < TWO64
  {
    var start := SkipSpace(text, 0);
    var signed := start < |text| && text[start] in {43, 45};
    var begin := if signed then start + 1 else start;
    var end := DigitsEnd(text, begin);
    if end == begin || (end < |text| && text[end] != 0) then None
    else
      var value := DecimalValue(text[begin..end]);
      if value >= TWO64 then None
      else Some(if signed && text[start] == 45 then (TWO64 - value) % TWO64 else value)
  }

  predicate CrlfAt(b: Bytes, i: nat) { i + 1 < |b| && b[i] == CR && b[i + 1] == LF }

  /** std::string::find("\r\n", from). */
  function FindCrlf(b: Bytes, from: nat): (at: Option<nat>)
    ensures at.Some? ==> from <= at.value && CrlfAt(b, at.value) && forall j :: from <= j < at.value ==> !CrlfAt(b, j)
    ensures at.None? ==> forall j :: from <= j ==> !CrlfAt(b, j)
    decreases |b| - from
  {
    if from >= |b| then None
    else if CrlfAt(b, from) then Some(from)
    else FindCrlf(b, from + 1)
  }

  // ------------------------------------------------------------------- parsing

  datatype ProtocolError = NotAnArray | InvalidArrayLength | TooManyTokens
    | InvalidPrefix | InvalidBulkLength | InvalidTerminator | OutOfRange

  datatype SizeLine = Unfinished | Malformed(error: ProtocolError) | Announced(size: nat, next: nat)

  /** The length line that starts at `at` with its type byte; `next` is the position behind it. */
  function ReadSize(b: Bytes, at: nat, error: ProtocolError): (l: SizeLine)
    requires at < |b| && b[at] != CR
    ensures l.Announced? ==> l.size < TWO64 && at + 2 < l.next <= |b|
  {
    match FindCrlf(b, at)
    case None => Unfinished
    case Some(end) =>
      match ParseSize(b[at + 1..end])
      case None => Malformed(error)
      case Some(size) => assert end != at; ParseSizeNonEmpty(b[at + 1..end]); Announced(size, end + 2)
  }

  lemma ParseSizeNonEmpty(text: Bytes)
    ensures ParseSize(text).Some? ==> text != []
  {
  }

  datatype OneToken = Wait | Fail(error: ProtocolError) | Token(token: Bytes, next: nat)

  /** One turn of the token loop, with its 64-bit additions. */
  function ReadToken(b: Bytes, cursor: nat): (t: OneToken)
    ensures t.Token? ==> t.next <= |b|
  {
    if cursor >= |b| then Wait
    else if b[cursor] != DOLLAR then Fail(InvalidPrefix)
    else
      match ReadSize(b, cursor, InvalidBulkLength)
      case Unfinished => Wait
      case Malformed(e) => Fail(e)
      case Announced(size, dataBegin) =>
        var dataEnd := (dataBegin + size) % TWO64;
        if (dataEnd + 2) % TWO64 > |b| then Wait
        else if dataEnd > |b| then Fail(OutOfRange)
        else if !CrlfAt(b, dataEnd) then Fail(InvalidTerminator)
        else Token(if dataBegin + size <= |b| then b[dataBegin..dataBegin + size] else b[dataBegin..], dataEnd + 2)
  }

  /** The token at `cursor` has a length that wraps: it is whatever the buffer holds. */
  predicate WrapsAt(b: Bytes, cursor: nat) {
    cursor < |b| && b[cursor] == DOLLAR
    && var l := ReadSize(b, cursor, InvalidBulkLength);
       l.Announced? && l.next + l.size >= TWO64
  }

  datatype Extracted = Incomplete | Error(error: ProtocolError) | Complete(tokens: Request, end: nat)

  function PrependToken(t: Bytes, e: Extracted): Extracted {
    if e.Complete? then Complete([t] + e.tokens, e.end) else e
  }

  function ReadTokens(b: Bytes, cursor: nat, count: nat): (e: Extracted)
    ensures e.Complete? ==> |e.tokens| == count && (cursor <= |b| ==> e.end <= |b|)
    decreases count
  {
    if count == 0 then Complete([], cursor)
    else
      match ReadToken(b, cursor)
      case Wait => Incomplete
      case Fail(e) => Error(e)
      case Token(t, next) => PrependToken(t, ReadTokens(b, next, count - 1))
  }

  /** Some token the loop gets through has a length that wraps. */
  predicate TokensWrap(b: Bytes, cursor: nat, count: nat)
    decreases count
  {
    count > 0
    && var t := ReadToken(b, cursor);
       t.Token? && (WrapsAt(b, cursor) || TokensWrap(b, t.next, count - 1))
  }

  /** TryExtractResp on any buffer. */
  function Extract(b: Bytes): (e: Extracted)
    ensures e.Complete? ==> e.end <= |b|
  {
    if b == [] then Incomplete
    else if b[0] != STAR then Error(NotAnArray)
    else
      match ReadSize(b, 0, InvalidArrayLength)
      case Unfinished => Incomplete
      case Malformed(e) => Error(e)
      case Announced(count, next) =>
        if count > MAX_TOKENS then Error(TooManyTokens) else ReadTokens(b, next, count)
  }

  predicate Wraps(b: Bytes) {
    b != [] && b[0] == STAR
    && var l := ReadSize(b, 0, InvalidArrayLength);
       l.Announced? && l.size <= MAX_TOKENS && TokensWrap(b, l.next, l.size)
  }

  // ------------------------------------------------- stability under extension

  lemma FindExtends(b: Bytes, from: nat, more: Bytes)
    requires FindCrlf(b, from).Some?
    ensures FindCrlf(b + more, from) == FindCrlf(b, from)
  {
    var at := FindCrlf(b, from).value;
    assert CrlfAt(b + more, at);
    forall j | from <= j < at ensures !CrlfAt(b + more, j) {
      assert !CrlfAt(b, j);
    }
  }

  lemma SizeExtends(b: Bytes, at: nat, error: ProtocolError, more: Bytes)
    requires at < |b| && b[at] != CR && ReadSize(b, at, error) != Unfinished
    ensures ReadSize(b + more, at, error) == ReadSize(b, at, error)
  {
    hide ParseSize, FindCrlf;
    FindExtends(b, at, more);
    var end := FindCrlf(b, at).value;
    assert (b + more)[at + 1..end] == b[at + 1..end];
  }

  /** A token or an error stays, except that a token with a wrapping length grows with the buffer. */
  lemma TokenExtends(b: Bytes, cursor: nat, more: Bytes)
    requires ReadToken(b, cursor) != Wait && |b| + |more| <= MAX_STRING
    ensures var t, t' := ReadToken(b, cursor), ReadToken(b + more, cursor);
            && (t.Fail? ==> t' == t)
            && (t.Token? ==> t'.Token? && t'.next == t.next)
            && (t.Token? ==> t'.token == if WrapsAt(b, cursor) then t.token + more else t.token)
    ensures WrapsAt(b + more, cursor) == WrapsAt(b, cursor)
  {
    var whole := b + more;
    hide ReadSize;
    assert whole[cursor] == b[cursor];
    if b[cursor] == DOLLAR {
      SizeExtends(b, cursor, InvalidBulkLength, more);
      var l := ReadSize(b, cursor, InvalidBulkLength);
      if l.Announced? {
        var dataEnd := (l.next + l.size) % TWO64;
        if dataEnd <= |b| {
          assert CrlfAt(whole, dataEnd) == CrlfAt(b, dataEnd);
          assert whole[l.next..] == b[l.next..] + more;
          if l.next + l.size <= |b| { assert whole[l.next..l.next + l.size] == b[l.next..l.next + l.size]; }
        }
      }
    }
  }

  lemma {:induction false} TokensExtend(b: Bytes, cursor: nat, count: nat, more: Bytes)
    requires ReadTokens(b, cursor, count) != Incomplete && |b| + |more| <= MAX_STRING
    ensures var e, e' := ReadTokens(b, cursor, count), ReadTokens(b + more, cursor, count);
            && (e.Error? ==> e' == e)
            && (e.Complete? ==> e'.Complete? && e'.end == e.end)
            && (e.Complete? && !TokensWrap(b, cursor, count) ==> e' == e)
            && (e.Complete? && TokensWrap(b, cursor, count) && more != [] ==> e' != e)
    ensures TokensWrap(b + more, cursor, count) == TokensWrap(b, cursor, count)
    decreases count
  {
    hide ReadToken, WrapsAt;
    if count > 0 {
      TokenExtends(b, cursor, more);
      var t := ReadToken(b, cursor);
      if t.Token? {
        TokensExtend(b, t.next, count - 1, more);
        var t' := ReadToken(b + more, cursor);
        var e, e' := ReadTokens(b, cursor, count), ReadTokens(b + more, cursor, count);
        if e.Complete? {
          assert e.tokens == [t.token] + e.tokens[1..] && e'.tokens == [t'.token] + e'.tokens[1..];
          if WrapsAt(b, cursor) && more != [] { assert |t'.token| != |t.token|; }
        }
      }
    }
  }

  /** What an attempt makes of a buffer does not change when more bytes arrive: an
      error stays the same error, a request ends at the same byte, and it has the
      same tokens if and only if none of its lengths wraps. */
  lemma ExtractExtends(b: Bytes, more: Bytes)
    requires Extract(b) != Incomplete && |b| + |more| <= MAX_STRING
    ensures Extract(b).Error? ==> Extract(b + more) == Extract(b)
    ensures Extract(b).Complete? ==> Extract(b + more).Complete? && Extract(b + more).end == Extract(b).end
    ensures Extract(b).Complete? && more != [] ==> (Extract(b + more) == Extract(b) <==> !Wraps(b))
    ensures Wraps(b + more) == Wraps(b)
  {
    hide ReadSize, ReadTokens, TokensWrap;
    if b[0] == STAR {
      SizeExtends(b, 0, InvalidArrayLength, more);
      var l := ReadSize(b, 0, InvalidArrayLength);
      if l.Announced? && l.size <= MAX_TOKENS { TokensExtend(b, l.next, l.size, more); }
    }
  }

  /** A request whose tokens depend on what follows it: the length -2 points back at
      the end of its own line, and the token is the rest of the buffer. */
  lemma WrappedLength(more: Bytes)
    ensures var b := [STAR, 49, CR, LF, DOLLAR, 45, 50, CR, LF];
            Wraps(b) && (|more| <= MAX_STRING - |b| ==> Extract(b + more) == Complete([more], |b|))
  {
    var b: Bytes := [STAR, 49, CR, LF, DOLLAR, 45, 50, CR, LF];
    WrappedLines(b);
    WrappedLines(b + more);
    hide ReadSize;
    WrappedToken(b);
    WrappedToken(b + more);
    hide ReadToken, WrapsAt;
    assert (b + more)[9..] == more;
    assert ReadTokens(b + more, 9, 0) == Complete([], 9);
    assert [more] + [] == [more];
  }

  predicate StartsWrapped(b: Bytes) { [STAR, 49, CR, LF, DOLLAR, 45, 50, CR, LF] <= b }

  lemma WrappedLines(b: Bytes)
    requires StartsWrapped(b)
    ensures ReadSize(b, 0, InvalidArrayLength) == Announced(1, 4)
    ensures ReadSize(b, 4, InvalidBulkLength) == Announced(TWO64 - 2, 9)
  {
    OneDigit(49);
    OneDigit(50);
    assert ParseSize([49]) == Some(1) by {
      assert SkipSpace([49], 0) == 0 && DigitsEnd([49], 0) == 1 && [49][0..1] == [49];
    }
    assert ParseSize([45, 50]) == Some(TWO64 - 2) by {
      assert SkipSpace([45, 50], 0) == 0 && DigitsEnd([45, 50], 1) == 2 && [45, 50][1..2] == [50];
    }
    hide ParseSize;
    FindIs(b, 0, 2);
    FindIs(b, 4, 7);
    assert b[1..2] == [49] && b[5..7] == [45, 50];
  }

  lemma WrappedToken(b: Bytes)
    requires StartsWrapped(b) && ReadSize(b, 4, InvalidBulkLength) == Announced(TWO64 - 2, 9)
    ensures WrapsAt(b, 4) && (|b| <= MAX_STRING ==> ReadToken(b, 4) == Token(b[9..], 9))
  {
    hide ReadSize;
    assert (9 + (TWO64 - 2)) % TWO64 == 7;
    assert b[4] == DOLLAR && CrlfAt(b, 7);
  }

  lemma OneDigit(d: byte)
    requires IsDigit(d)
    ensures DecimalValue([d]) == d - 48
  {
    assert DecimalValue([]) == 0 && [d][..0] == [];
  }

  lemma FindIs(b: Bytes, from: nat, at: nat)
    requires from <= at && CrlfAt(b, at) && forall j :: from <= j < at ==> !CrlfAt(b, j)
    ensures FindCrlf(b, from) == Some(at)
  {
  }

  // ------------------------------------------------------------------- printer

  /** std::to_string of a size. */
  function Decimal(n: nat): (d: Bytes)
    ensures d != [] && forall x :: x in d ==> IsDigit(x)
  {
    if n < 10 then [48 + n] else Decimal(n / 10) + [48 + n % 10]
  }

  function EncodeToken(token: Bytes): Bytes { [DOLLAR] + Decimal(|token|) + CRLF + token + CRLF }

  function EncodeTokens(tokens: Request): Bytes {
    if tokens == [] then [] else EncodeToken(tokens[0]) + EncodeTokens(tokens[1..])
  }

  /** What EncodeResp returns. */
  function EncodeRequest(tokens: Request): Bytes { [STAR] + Decimal(|tokens|) + CRLF + EncodeTokens(tokens) }

  lemma {:induction false} DecimalReads(n: nat)
    ensures DecimalValue(Decimal(n)) == n
  {
    if n < 10 {
      OneDigit(48 + n);
    } else {
      DecimalReads(n / 10);
      var d := Decimal(n);
      assert d[..|d| - 1] == Decimal(n / 10);
    }
  }

  lemma AllDigits(t: Bytes, i: nat)
    requires i <= |t| && forall x :: x in t ==> IsDigit(x)
    ensures DigitsEnd(t, i) == |t|
  {
  }

  lemma ParsePrinted(n: nat)
    requires n < TWO64
    ensures ParseSize(Decimal(n)) == Some(n)
  {
    var t := Decimal(n);
    assert IsDigit(t[0]);
    AllDigits(t, 0);
    DecimalReads(n);
    assert t[0..|t|] == t;
  }

  /** A printed length line is read back, whatever follows it. */
  lemma SizeReads(before: Bytes, kind: byte, n: nat, rest: Bytes, error: ProtocolError)
    requires n < TWO64 && kind != CR
    ensures var b := before + ([kind] + Decimal(n) + CRLF + rest);
            |before| < |b| && b[|before|] == kind
            && ReadSize(b, |before|, error) == Announced(n, |before| + 3 + |Decimal(n)|)
  {
    var d := Decimal(n);
    var b := before + ([kind] + d + CRLF + rest);
    var at, end := |before|, |before| + 1 + |d|;
    assert b[at + 1..end] == d;
    forall j | at <= j < end ensures !CrlfAt(b, j) {
      if j > at { assert b[j] == d[j - at - 1] && d[j - at - 1] in d; }
    }
    assert CrlfAt(b, end);
    hide Decimal, ParseSize;
    FindIs(b, at, end);
    ParsePrinted(n);
  }

  lemma TokenReads(before: Bytes, token: Bytes, rest: Bytes)
    requires |before| + |EncodeToken(token)| + |rest| <= MAX_STRING
    ensures var b := before + EncodeToken(token) + rest;
            ReadToken(b, |before|) == Token(token, |before| + |EncodeToken(token)|) && !WrapsAt(b, |before|)
  {
    var d := Decimal(|token|);
    hide Decimal, ReadToken, WrapsAt;
    var line, tail := [DOLLAR] + d + CRLF, token + CRLF + rest;
    var b := before + EncodeToken(token) + rest;
    assert b == before + (line + tail) by {
      assert EncodeToken(token) == line + token + CRLF;
      Regroup(before, line, token, rest);
    }
    SizeReads(before, DOLLAR, |token|, tail, InvalidBulkLength);
    TokenLies(before, line, token, rest);
    TokenFits(b, |before|, token, |before| + |line|);
  }

  lemma Regroup(before: Bytes, line: Bytes, token: Bytes, rest: Bytes)
    ensures before + (line + token + CRLF) + rest == before + (line + (token + CRLF + rest))
  {
  }

  lemma TokenFits(b: Bytes, at: nat, token: Bytes, begin: nat)
    requires at < |b| <= MAX_STRING && b[at] == DOLLAR
             && ReadSize(b, at, InvalidBulkLength) == Announced(|token|, begin)
    requires begin + |token| <= |b| && b[begin..begin + |token|] == token && CrlfAt(b, begin + |token|)
    ensures ReadToken(b, at) == Token(token, begin + |token| + 2) && !WrapsAt(b, at)
  {
    hide ReadSize;
  }

  /** Where a token and its terminator lie. */
  lemma TokenLies(before: Bytes, line: Bytes, token: Bytes, rest: Bytes)
    ensures var b, begin := before + (line + (token + CRLF + rest)), |before| + |line|;
            b[begin..begin + |token|] == token && CrlfAt(b, begin + |token|)
  {
  }

  lemma {:induction false} TokensRead(before: Bytes, tokens: Request, rest: Bytes)
    requires |before| + |EncodeTokens(tokens)| + |rest| <= MAX_STRING
    ensures var b := before + EncodeTokens(tokens) + rest;
            && ReadTokens(b, |before|, |tokens|) == Complete(tokens, |before| + |EncodeTokens(tokens)|)
            && !TokensWrap(b, |before|, |tokens|)
    decreases |tokens|
  {
    hide ReadToken, EncodeToken, WrapsAt;
    if tokens != [] {
      var first, others := EncodeToken(tokens[0]), EncodeTokens(tokens[1..]);
      var b := before + EncodeTokens(tokens) + rest;
      assert b == before + first + (others + rest) == (before + first) + others + rest;
      TokenReads(before, tokens[0], others + rest);
      TokensRead(before + first, tokens[1..], rest);
      assert tokens == [tokens[0]] + tokens[1..];
    }
  }

  /** A printed request followed by any bytes is extracted exactly, whatever bytes its tokens hold. */
  lemma RequestRoundTrip(tokens: Request, rest: Bytes)
    requires |tokens| <= MAX_TOKENS && |EncodeRequest(tokens)| + |rest| <= MAX_STRING
    ensures var b := EncodeRequest(tokens) + rest;
            Extract(b) == Complete(tokens, |EncodeRequest(tokens)|) && !Wraps(b)
  {
    var head := [STAR] + Decimal(|tokens|) + CRLF;
    var body := EncodeTokens(tokens);
    var b := EncodeRequest(tokens) + rest;
    assert b == [] + ([STAR] + Decimal(|tokens|) + CRLF + (body + rest)) == head + body + rest;
    SizeReads([], STAR, |tokens|, body + rest, InvalidArrayLength);
    TokensRead(head, tokens, rest);
  }

  /** A printed request cut short anywhere is incomplete, not an error. */
  lemma CutIncomplete(tokens: Request, n: nat)
    requires |tokens| <= MAX_TOKENS && |EncodeRequest(tokens)| <= MAX_STRING && n < |EncodeRequest(tokens)|
    ensures Extract(EncodeRequest(tokens)[..n]) == Incomplete
  {
    hide EncodeRequest, Extract, Wraps;
    var whole := EncodeRequest(tokens);
    RequestRoundTrip(tokens, []);
    assert whole + [] == whole == whole[..n] + whole[n..];
    if Extract(whole[..n]) != Incomplete { ExtractExtends(whole[..n], whole[n..]); }
  }
}
