/**
 * Rust's `str::split_whitespace` and the two iterator adaptors the decoder
 * calls on it, `nth` and `count`.
 *
 * A token is a maximal run of characters that are not white space in the
 * sense of `char::is_whitespace` (the Unicode White_Space property).
 */
module SplitWhitespace {
  import opened Options

  /** `char::is_whitespace`: the characters with the Unicode White_Space property. */
  predicate IsWhitespace(c: char) {
    ('\t' <= c <= '\r') || c == ' ' || c == '\U{85}' || c == '\U{A0}' || c == '\U{1680}'
    || ('\U{2000}' <= c <= '\U{200A}') || c == '\U{2028}' || c == '\U{2029}'
    || c == '\U{202F}' || c == '\U{205F}' || c == '\U{3000}'
  }

  /** What the iterator can yield: a non-empty string without white space. */
  predicate IsToken(t: string) {
    t != [] && forall i :: 0 <= i < |t| ==> !IsWhitespace(t[i])
  }

  /** Length of the run of non-white-space characters at the start of `s`. */
  function WordLength(s: string): (n: nat)
    ensures n <= |s|
    ensures forall i :: 0 <= i < n ==> !IsWhitespace(s[i])
    ensures n < |s| ==> IsWhitespace(s[n])
    decreases |s|
  {
    if s == [] || IsWhitespace(s[0]) then 0 else 1 + WordLength(s[1..])
  }

  /** The tokens `s.split_whitespace()` yields, in order. */
  function Tokens(s: string): (ts: seq<string>)
    ensures forall i :: 0 <= i < |ts| ==> IsToken(ts[i])
    decreases |s|
  {
    if s == [] then []
    else if IsWhitespace(s[0]) then Tokens(s[1..])
    else
      var n := WordLength(s);
      [s[..n]] + Tokens(s[n..])
  }

  /** The tokens separated by single spaces. */
  function JoinWords(ts: seq<string>): string {
    if ts == [] then []
    else if |ts| == 1 then ts[0]
    else ts[0] + " " + JoinWords(ts[1..])
  }

  /** The characters of `s` that are not white space, in order. */
  function DropWhitespace(s: string): (r: string)
    ensures |r| <= |s|
  {
    if s == [] then []
    else (if IsWhitespace(s[0]) then [] else [s[0]]) + DropWhitespace(s[1..])
  }

  function Concat(ts: seq<string>): string {
    if ts == [] then [] else ts[0] + Concat(ts[1..])
  }

  lemma {:induction false} DropWhitespaceAppend(a: string, b: string)
    ensures DropWhitespace(a + b) == DropWhitespace(a) + DropWhitespace(b)
    decreases |a|
  {
    if a != [] {
      assert (a + b)[1..] == a[1..] + b;
      DropWhitespaceAppend(a[1..], b);
    } else {
      assert a + b == b;
    }
  }

  lemma {:induction false} DropWhitespaceOfWord(t: string)
    requires forall i :: 0 <= i < |t| ==> !IsWhitespace(t[i])
    ensures DropWhitespace(t) == t
    decreases |t|
  {
    if t != [] {
      DropWhitespaceOfWord(t[1..]);
      assert [t[0]] + t[1..] == t;
    }
  }

  /** Tokenizing loses exactly the white space: the tokens put back together are the
      line's other characters, in order. */
  lemma {:induction false} TokensKeepAllOtherCharacters(s: string)
    ensures Concat(Tokens(s)) == DropWhitespace(s)
    decreases |s|
  {
    if s == [] {
    } else if IsWhitespace(s[0]) {
      TokensKeepAllOtherCharacters(s[1..]);
    } else {
      var n := WordLength(s);
      var ts := Tokens(s);
      assert ts == [s[..n]] + Tokens(s[n..]);
      assert ts[1..] == Tokens(s[n..]);
      TokensKeepAllOtherCharacters(s[n..]);
      assert s == s[..n] + s[n..];
      DropWhitespaceAppend(s[..n], s[n..]);
      DropWhitespaceOfWord(s[..n]);
    }
  }

  lemma {:induction false} WordLengthOfToken(t: string, rest: string)
    requires forall i :: 0 <= i < |t| ==> !IsWhitespace(t[i])
    requires rest == [] || IsWhitespace(rest[0])
    ensures WordLength(t + rest) == |t|
    decreases |t|
  {
    if t == [] {
      assert t + rest == rest;
    } else {
      assert (t + rest)[1..] == t[1..] + rest;
      WordLengthOfToken(t[1..], rest);
    }
  }

  lemma {:induction false} TokensOfTokenThen(t: string, rest: string)
    requires IsToken(t)
    requires rest == [] || IsWhitespace(rest[0])
    ensures Tokens(t + rest) == [t] + Tokens(rest)
  {
    var s := t + rest;
    WordLengthOfToken(t, rest);
    assert s[..|t|] == t;
    assert s[|t|..] == rest;
  }

  predicate AllWhitespace(w: string) {
    forall i :: 0 <= i < |w| ==> IsWhitespace(w[i])
  }

  /** Leading white space yields no token. */
  lemma {:induction false} TokensSkipWhitespace(w: string, s: string)
    requires AllWhitespace(w)
    ensures Tokens(w + s) == Tokens(s)
    decreases |w|
  {
    if w == [] {
      assert w + s == s;
    } else {
      assert (w + s)[1..] == w[1..] + s;
      TokensSkipWhitespace(w[1..], s);
    }
  }

  /** Splitting single-space-separated tokens followed by white space gives the tokens back. */
  lemma {:induction false} TokensOfJoinWordsThen(ts: seq<string>, trail: string)
    requires forall i :: 0 <= i < |ts| ==> IsToken(ts[i])
    requires AllWhitespace(trail)
    ensures Tokens(JoinWords(ts) + trail) == ts
    decreases |ts|
  {
    if ts == [] {
      TokensSkipWhitespace(trail, []);
      assert JoinWords(ts) + trail == trail + [];
    } else if |ts| == 1 {
      TokensOfTokenThen(ts[0], trail);
      TokensSkipWhitespace(trail, []);
      assert trail + [] == trail;
    } else {
      var rest := JoinWords(ts[1..]) + trail;
      assert JoinWords(ts) + trail == ts[0] + (" " + rest);
      TokensOfTokenThen(ts[0], " " + rest);
      TokensSkipWhitespace(" ", rest);
      TokensOfJoinWordsThen(ts[1..], trail);
      assert ts == [ts[0]] + ts[1..];
    }
  }

  /** Splitting single-space-separated tokens gives the tokens back, whatever white space
      surrounds them. */
  lemma TokensOfJoinWords(lead: string, ts: seq<string>, trail: string)
    requires forall i :: 0 <= i < |ts| ==> IsToken(ts[i])
    requires AllWhitespace(lead) && AllWhitespace(trail)
    ensures Tokens(lead + JoinWords(ts) + trail) == ts
  {
    assert lead + JoinWords(ts) + trail == lead + (JoinWords(ts) + trail);
    TokensSkipWhitespace(lead, JoinWords(ts) + trail);
    TokensOfJoinWordsThen(ts, trail);
  }

  /**
   * The state of a `SplitWhitespace` iterator: the tokens of the line and the
   * index of the next one to yield (`|tokens|` once exhausted).
   */
  datatype SplitIter = SplitIter(tokens: seq<string>, next: nat)

  /** `line.split_whitespace()`: a fresh iterator over the line's tokens. */
  function Split(line: string): SplitIter {
    SplitIter(Tokens(line), 0)
  }

  /** `Iterator::next`: the next token and the advanced iterator, or `None` when exhausted. */
  function Next(it: SplitIter): (Option<string>, SplitIter) {
    if it.next < |it.tokens| then (Some(it.tokens[it.next]), SplitIter(it.tokens, it.next + 1))
    else (None, it)
  }

  /** `Iterator::nth(n)`: discard `n` items, then yield the next one. */
  function Nth(it: SplitIter, n: nat): (r: (Option<string>, SplitIter))
    requires it.next <= |it.tokens|
    ensures r.1.tokens == it.tokens && r.1.next <= |it.tokens|
    ensures r.0.Some? <==> it.next + n < |it.tokens|
    ensures r.0.Some? ==> r.0.value == it.tokens[it.next + n] && r.1.next == it.next + n + 1
    ensures r.0.None? ==> r.1.next == |it.tokens|
    decreases n
  {
    if n == 0 then Next(it) else Nth(Next(it).1, n - 1)
  }

  /** `Iterator::count`: consume the iterator and report how many items it yielded. */
  function Count(it: SplitIter): (c: nat)
    requires it.next <= |it.tokens|
    ensures c == |it.tokens| - it.next
    decreases |it.tokens| - it.next
  {
    match Next(it)
    case (None, _) => 0
    case (Some(_), rest) => 1 + Count(rest)
  }
}
