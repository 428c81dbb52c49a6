/**
 * Which bytes are a request: the grammar that the extraction accepts, stated without it.
 *
 * A request is an array line, then for every token a length line, the bytes of the token
 * and a line end. A length line holds what strtoul takes for a number.
 */
module RespGrammar {
  import opened Wrappers
  import opened Bytes
  import opened RespFormat

  // ------------------------------------------------------------------------- lengths

  /** White space, an optional sign and digits, up to the end or a NUL. */
  predicate IsNumber(spaces: Bytes, sign: Bytes, digits: Bytes, rest: Bytes) {
    && (forall x :: x in spaces ==> x == 32 || 9 <= x <= 13)
    && sign in [[], [43], [45]]
    && digits != [] && (forall x :: x in digits ==> 48 <= x <= 57)
    && (rest == [] || rest[0] == 0)
  }

  lemma {:induction false} SpacesSkipped(t: Bytes, i: nat, n: nat)
    requires i <= n <= |t| && (forall k :: i <= k < n ==> IsSpace(t[k])) && (n < |t| ==> !IsSpace(t[n]))
    ensures SkipSpace(t, i) == n
    decreases n - i
  {
    if i < n { SpacesSkipped(t, i + 1, n); }
  }

  lemma {:induction false} DigitsTaken(t: Bytes, i: nat, n: nat)
    requires i <= n <= |t| && (forall k :: i <= k < n ==> IsDigit(t[k])) && (n < |t| ==> !IsDigit(t[n]))
    ensures DigitsEnd(t, i) == n
    decreases n - i
  {
    if i < n { DigitsTaken(t, i + 1, n); }
  }

  lemma {:induction false} SpacesAre(t: Bytes, i: nat)
    requires i <= |t|
    ensures forall k :: i <= k < SkipSpace(t, i) ==> IsSpace(t[k])
    decreases |t| - i
  {
    if i < |t| && IsSpace(t[i]) { SpacesAre(t, i + 1); }
  }

  /** A number is read as its value; a minus sign takes it from 2^64, and 2^64 or more is refused. */
  lemma NumberRead(spaces: Bytes, sign: Bytes, digits: Bytes, rest: Bytes)
    requires IsNumber(spaces, sign, digits, rest)
    ensures ParseSize(spaces + sign + digits + rest) ==
            var value := DecimalValue(digits);
            if value >= TWO64 then None else Some(if sign == [45] && value > 0 then TWO64 - value else value)
  {
    hide DecimalValue;
    var t := spaces + sign + digits + rest;
    var start, begin, end := |spaces|, |spaces| + |sign|, |spaces| + |sign| + |digits|;
    forall k | 0 <= k < start ensures IsSpace(t[k]) { assert t[k] == spaces[k] && spaces[k] in spaces; }
    forall k | begin <= k < end ensures IsDigit(t[k]) {
      assert t[k] == digits[k - begin] && digits[k - begin] in digits;
    }
    assert sign != [] ==> t[start] == sign[0];
    assert rest != [] ==> t[end] == rest[0];
    assert IsDigit(t[begin]);
    SpacesSkipped(t, 0, start);
    DigitsTaken(t, begin, end);
    assert t[begin..end] == digits;
  }

  /** Nothing else is a length. */
  lemma OnlyNumbers(t: Bytes) returns (spaces: Bytes, sign: Bytes, digits: Bytes, rest: Bytes)
    requires ParseSize(t).Some?
    ensures IsNumber(spaces, sign, digits, rest) && t == spaces + sign + digits + rest
  {
    hide DecimalValue;
    var start := SkipSpace(t, 0);
    SpacesAre(t, 0);
    var begin := if start < |t| && t[start] in {43, 45} then start + 1 else start;
    var end := DigitsEnd(t, begin);
    spaces, sign, digits, rest := t[..start], t[start..begin], t[begin..end], t[end..];
    assert begin > start ==> sign == [t[start]];
  }

  // -------------------------------------------------------------------------- requests

  /** From `from` to `to` lies a line of the given type that announces `size`. */
  ghost predicate LineAt(b: Bytes, from: nat, to: nat, kind: byte, size: nat) {
    && from + 3 <= to <= |b| && b[from] == kind
    && CrlfAt(b, to - 2) && (forall j :: from <= j < to - 2 ==> !CrlfAt(b, j))
    && ParseSize(b[from + 1..to - 2]) == Some(size)
  }

  ghost predicate TokenAt(b: Bytes, from: nat, to: nat, token: Bytes) {
    exists data: nat {:trigger LineAt(b, from, data, DOLLAR, |token|)} ::
      && LineAt(b, from, data, DOLLAR, |token|)
      && to == data + |token| + 2 && to <= |b|
      && b[data..data + |token|] == token && CrlfAt(b, data + |token|)
  }

  ghost predicate TokensAt(b: Bytes, from: nat, to: nat, tokens: Request)
    decreases |tokens|
  {
    if tokens == [] then from == to
    else exists next: nat :: TokenAt(b, from, next, tokens[0]) && TokensAt(b, next, to, tokens[1..])
  }

  /** The first `to` bytes are a request with these tokens. */
  ghost predicate RequestAt(b: Bytes, to: nat, tokens: Request) {
    exists next: nat :: LineAt(b, 0, next, STAR, |tokens|) && TokensAt(b, next, to, tokens)
  }

  lemma LineExact(b: Bytes, at: nat, error: ProtocolError, size: nat, next: nat)
    requires at < |b| && b[at] != CR
    ensures ReadSize(b, at, error) == Announced(size, next) <==> LineAt(b, at, next, b[at], size)
  {
    hide ParseSize;
    if LineAt(b, at, next, b[at], size) {
      FindIs(b, at, next - 2);
    }
  }

  lemma LineStarts(b: Bytes, from: nat, to: nat, kind: byte, size: nat)
    requires LineAt(b, from, to, kind, size)
    ensures from < |b| && b[from] == kind
  {
  }

  lemma TokenFound(b: Bytes, from: nat, data: nat, token: Bytes)
    requires |b| <= MAX_STRING && LineAt(b, from, data, DOLLAR, |token|) && data + |token| + 2 <= |b|
    requires b[data..data + |token|] == token && CrlfAt(b, data + |token|)
    ensures ReadToken(b, from) == Token(token, data + |token| + 2) && !WrapsAt(b, from)
  {
    hide ReadSize, LineAt;
    LineStarts(b, from, data, DOLLAR, |token|);
    LineExact(b, from, InvalidBulkLength, |token|, data);
    TokenFits(b, from, token, data);
  }

  lemma TokenExact(b: Bytes, from: nat, to: nat, token: Bytes)
    requires |b| <= MAX_STRING
    ensures ReadToken(b, from) == Token(token, to) && !WrapsAt(b, from) <==> TokenAt(b, from, to, token)
  {
    hide ReadSize, LineAt, CrlfAt;
    if TokenAt(b, from, to, token) {
      var data: nat :| LineAt(b, from, data, DOLLAR, |token|) && to == data + |token| + 2 && to <= |b|
                       && b[data..data + |token|] == token && CrlfAt(b, data + |token|);
      TokenFound(b, from, data, token);
    }
    if ReadToken(b, from) == Token(token, to) && !WrapsAt(b, from) {
      var l := ReadSize(b, from, InvalidBulkLength);
      LineExact(b, from, InvalidBulkLength, l.size, l.next);
      assert LineAt(b, from, l.next, DOLLAR, |token|);
    }
  }

  lemma {:induction false} TokensExact(b: Bytes, from: nat, to: nat, tokens: Request)
    requires |b| <= MAX_STRING
    ensures ReadTokens(b, from, |tokens|) == Complete(tokens, to) && !TokensWrap(b, from, |tokens|) <==>
            TokensAt(b, from, to, tokens)
    decreases |tokens|
  {
    hide ReadToken, WrapsAt, TokenAt;
    if tokens != [] {
      var first, others := tokens[0], tokens[1..];
      assert tokens == [first] + others;
      if TokensAt(b, from, to, tokens) {
        var next: nat :| TokenAt(b, from, next, first) && TokensAt(b, next, to, others);
        TokenExact(b, from, next, first);
        TokensExact(b, next, to, others);
      }
      if ReadTokens(b, from, |tokens|) == Complete(tokens, to) && !TokensWrap(b, from, |tokens|) {
        var t := ReadToken(b, from);
        TokenExact(b, from, t.next, t.token);
        var e := ReadTokens(b, t.next, |tokens| - 1);
        assert e.Complete? && [t.token] + e.tokens == [first] + others;
        assert e.tokens == ([t.token] + e.tokens)[1..] == others && t.token == first;
        TokensExact(b, t.next, to, others);
      }
    }
  }

  /** A request is extracted if and only if the buffer starts with one, none of whose lengths wraps. */
  lemma ExtractExact(b: Bytes, to: nat, tokens: Request)
    requires |b| <= MAX_STRING
    ensures Extract(b) == Complete(tokens, to) && !Wraps(b) <==> RequestAt(b, to, tokens) && |tokens| <= MAX_TOKENS
  {
    hide ReadSize, ReadTokens, TokensWrap, TokensAt, LineAt;
    if RequestAt(b, to, tokens) && |tokens| <= MAX_TOKENS {
      var next: nat :| LineAt(b, 0, next, STAR, |tokens|) && TokensAt(b, next, to, tokens);
      LineStarts(b, 0, next, STAR, |tokens|);
      LineExact(b, 0, InvalidArrayLength, |tokens|, next);
      TokensExact(b, next, to, tokens);
    }
    if Extract(b) == Complete(tokens, to) && !Wraps(b) {
      var l := ReadSize(b, 0, InvalidArrayLength);
      LineExact(b, 0, InvalidArrayLength, l.size, l.next);
      TokensExact(b, l.next, to, tokens);
      assert LineAt(b, 0, l.next, STAR, |tokens|);
    }
  }

  /** After an error no continuation of the buffer starts with a request. */
  lemma ErrorIsFinal(b: Bytes, more: Bytes, to: nat, tokens: Request)
    requires Extract(b).Error? && |b| + |more| <= MAX_STRING && |tokens| <= MAX_TOKENS
    ensures !RequestAt(b + more, to, tokens)
  {
    hide Extract, Wraps, RequestAt;
    ExtractExtends(b, more);
    ExtractExact(b + more, to, tokens);
  }

  /** A request of any spelling that has not arrived completely is waited for. */
  lemma PartWaits(b: Bytes, to: nat, tokens: Request, n: nat)
    requires RequestAt(b, to, tokens) && |b| <= MAX_STRING && |tokens| <= MAX_TOKENS && n < to <= |b|
    ensures Extract(b[..n]) == Incomplete
  {
    hide Extract, Wraps, RequestAt;
    ExtractExact(b, to, tokens);
    assert b == b[..n] + b[n..];
    EndsWithin(b[..n]);
    if Extract(b[..n]) != Incomplete { ExtractExtends(b[..n], b[n..]); }
  }

  lemma EndsWithin(b: Bytes)
    ensures Extract(b).Complete? ==> Extract(b).end <= |b|
  {
  }
}
