/** C strings in a byte buffer, and the strtok / strtok_r tokeniser of section 7.24.5.8 of
    ISO/IEC 9899:2011 and POSIX.1-2008, both as pure functions on strings and in place. */
module CStrings {
  import opened Collections
  import opened Wrappers

  const NUL: char := '\0'

  predicate NulFree(s: string) {
    NUL !in s
  }

  /** The memory `mem` holds the NUL-terminated string `s` at address `p`. */
  ghost predicate Holds(mem: seq<char>, p: nat, s: string)
    decreases |s|
  {
    && p < |mem|
    && if s == "" then mem[p] == NUL else s[0] != NUL && mem[p] == s[0] && Holds(mem, p + 1, s[1..])
  }

  /** At most one C string starts at an address. */
  lemma {:induction false} HoldsUnique(mem: seq<char>, p: nat, s: string, t: string)
    requires Holds(mem, p, s) && Holds(mem, p, t)
    ensures s == t
    decreases |s|
  {
    if s != "" && t != "" {
      HoldsUnique(mem, p + 1, s[1..], t[1..]);
      assert s == [s[0]] + s[1..] && t == [t[0]] + t[1..];
    }
  }

  /** A suffix of a C string is the C string at the later address. */
  lemma {:induction false} HoldsSuffix(mem: seq<char>, p: nat, s: string, k: nat)
    requires Holds(mem, p, s) && k <= |s|
    ensures p + |s| < |mem| && Holds(mem, p + k, s[k..])
    decreases |s|
  {
    if k == 0 {
      assert s[0..] == s;
      if s != "" { HoldsSuffix(mem, p + 1, s[1..], 0); }
    } else {
      HoldsSuffix(mem, p + 1, s[1..], k - 1);
      assert s[1..][k - 1..] == s[k..];
    }
  }

  /** A write below an address or behind its terminator does not disturb the string held there. */
  lemma {:induction false} HoldsFrame(mem: seq<char>, p: nat, s: string, i: nat, c: char)
    requires Holds(mem, p, s) && i < |mem| && (i < p || p + |s| < i)
    ensures Holds(mem[i := c], p, s)
    decreases |s|
  {
    if s != "" { HoldsFrame(mem, p + 1, s[1..], i, c); }
  }

  /** Cutting a C string with a NUL leaves its prefix at the same address and, behind the NUL, its tail. */
  lemma {:induction false} HoldsCut(mem: seq<char>, p: nat, s: string, k: nat)
    requires Holds(mem, p, s) && k <= |s| && p + k < |mem|
    ensures Holds(mem[p + k := NUL], p, s[..k])
    ensures k < |s| ==> Holds(mem[p + k := NUL], p + k + 1, s[k + 1..])
    decreases k
  {
    if k == 0 {
      assert s[..0] == "";
      if s != "" { HoldsFrame(mem, p + 1, s[1..], p, NUL); }
    } else {
      HoldsCut(mem, p + 1, s[1..], k - 1);
      assert s[1..][..k - 1] == s[..k][1..];
      if k < |s| { assert s[1..][k..] == s[k + 1..]; }
    }
  }

  // ----- pure tokenising -----

  /** strspn for a one-character delimiter set. */
  function Skip(s: string, d: char): (n: nat)
    ensures n <= |s|
    ensures n < |s| ==> s[n] != d
  {
    if s == "" || s[0] != d then 0 else 1 + Skip(s[1..], d)
  }

  /** strcspn for a one-character delimiter set. */
  function Span(s: string, d: char): (n: nat)
    ensures n <= |s|
    ensures n < |s| ==> s[n] == d
  {
    if s == "" || s[0] == d then 0 else 1 + Span(s[1..], d)
  }

  /** Does a call of strtok on `s` return a token? */
  predicate HasToken(s: string, d: char) {
    Skip(s, d) < |s|
  }

  /** Offset in `s` at which the first token ends. */
  function TokenEnd(s: string, d: char): (n: nat)
    ensures Skip(s, d) <= n <= |s|
    ensures HasToken(s, d) ==> Skip(s, d) < n
    ensures n < |s| ==> s[n] == d
  {
    Skip(s, d) + Span(s[Skip(s, d)..], d)
  }

  function Token(s: string, d: char): (t: string)
    ensures |t| == TokenEnd(s, d) - Skip(s, d)
  {
    s[Skip(s, d)..TokenEnd(s, d)]
  }

  function TailAfter(s: string, e: nat): string
    requires e <= |s|
  {
    if e < |s| then s[e + 1..] else ""
  }

  /** What the saved cursor denotes after the first token: everything behind its delimiter. */
  function Rest(s: string, d: char): (t: string)
    ensures |t| == if TokenEnd(s, d) < |s| then |s| - TokenEnd(s, d) - 1 else 0
  {
    TailAfter(s, TokenEnd(s, d))
  }

  /** All tokens that repeated calls of strtok return. */
  function Tokens(s: string, d: char): seq<string>
    decreases |s|
  {
    if HasToken(s, d) then [Token(s, d)] + Tokens(Rest(s, d), d) else []
  }

  /** The reference split: every piece between delimiters, empty pieces included. */
  function Split(s: string, d: char): (pieces: seq<string>)
    ensures |pieces| >= 1
    decreases |s|
  {
    if Span(s, d) == |s| then [s] else [s[..Span(s, d)]] + Split(s[Span(s, d) + 1..], d)
  }

  function NonEmpty(ss: seq<string>): seq<string> {
    if ss == [] then []
    else if ss[0] == "" then NonEmpty(ss[1..])
    else [ss[0]] + NonEmpty(ss[1..])
  }

  lemma NonEmptyConcat(a: seq<string>, b: seq<string>)
    ensures NonEmpty(a + b) == NonEmpty(a) + NonEmpty(b)
  {
    if a == [] {
      assert a + b == b;
    } else {
      assert (a + b)[1..] == a[1..] + b;
      NonEmptyConcat(a[1..], b);
    }
  }

  /** Reading off a span: the delimiter first occurs right behind a delimiter-free prefix. */
  lemma SpanAt(a: string, b: string, d: char)
    requires d !in a && (b == "" || b[0] == d)
    ensures Span(a + b, d) == |a|
  {
    if a == "" {
      assert a + b == b;
    } else {
      assert (a + b)[1..] == a[1..] + b;
      assert a[0] in a;
      SpanAt(a[1..], b, d);
    }
  }

  /** strtok on a delimiter-free, non-empty word followed by a delimiter or the end. */
  lemma TokenAt(a: string, b: string, d: char)
    requires a != "" && d !in a && (b == "" || b[0] == d)
    ensures HasToken(a + b, d) && Skip(a + b, d) == 0 && TokenEnd(a + b, d) == |a|
    ensures Token(a + b, d) == a && Rest(a + b, d) == if b == "" then "" else b[1..]
  {
    assert (a + b)[0] == a[0] && a[0] in a;
    assert (a + b)[0..] == a + b;
    SpanAt(a, b, d);
    assert (a + b)[..|a|] == a;
    if b != "" {
      assert (a + b)[|a| + 1..] == b[1..];
    }
  }

  /** A leading delimiter shifts the first token, and changes neither it nor what follows. */
  lemma SkipDelimiter(s: string, d: char)
    ensures var t := [d] + s;
      && HasToken(t, d) == HasToken(s, d) && TokenEnd(t, d) == 1 + TokenEnd(s, d)
      && Token(t, d) == Token(s, d) && Rest(t, d) == Rest(s, d)
  {
    var t, n, e := [d] + s, Skip(s, d), TokenEnd(s, d);
    assert t[1..] == s;
    SliceBehind(d, s, n, |s|);
    assert Skip(t, d) == 1 + n && t[1 + n..] == s[n..];
    assert TokenEnd(t, d) == 1 + e;
    SliceBehind(d, s, n, e);
    if e < |s| { SliceBehind(d, s, e + 1, |s|); }
    hide Skip, TokenEnd, Span;
  }

  lemma SliceBehind(d: char, s: string, i: nat, j: nat)
    requires i <= j <= |s|
    ensures ([d] + s)[1 + i..1 + j] == s[i..j]
    ensures j == |s| ==> ([d] + s)[1 + i..] == s[i..]
  {
  }

  /** A leading delimiter changes no token. */
  lemma TokensSkipDelimiter(s: string, d: char)
    ensures Tokens([d] + s, d) == Tokens(s, d)
  {
    SkipDelimiter(s, d);
    hide Token, Rest, HasToken;
  }

  /** Tokenising a word, a delimiter and a tail. */
  lemma TokensCons(a: string, b: string, d: char)
    requires d !in a
    ensures Tokens(a + [d] + b, d) == (if a == "" then [] else [a]) + Tokens(b, d)
  {
    if a == "" {
      assert a + [d] + b == [d] + b;
      TokensSkipDelimiter(b, d);
      hide Tokens;
      assert [] + Tokens(b, d) == Tokens(b, d);
    } else {
      assert a + [d] + b == a + ([d] + b) && ([d] + b)[1..] == b;
      TokenAt(a, [d] + b, d);
      hide HasToken, Token, Rest, Skip, TokenEnd;
    }
  }

  /** Tokens do not reach across a delimiter: the tokens of two texts, joined by one, are those of both. */
  lemma {:induction false} TokensConcat(a: string, b: string, d: char)
    ensures Tokens(a + [d] + b, d) == Tokens(a, d) + Tokens(b, d)
    decreases |a|
  {
    var n := Span(a, d);
    SpanClean(a, d);
    if n == |a| {
      assert a[..n] == a;
      TokensCons(a, b, d);
      TokensWord(a, d);
    } else {
      var word, more := a[..n], a[n + 1..];
      assert a == word + [d] + more;
      var tail := more + [d] + b;
      Reassociate(a, word, more, b, d);
      TokensConcat(more, b, d);
      TokensConsConcat(word, more, tail, b, d);
    }
  }

  lemma Reassociate(a: string, word: string, more: string, b: string, d: char)
    requires a == word + [d] + more
    ensures a + [d] + b == word + [d] + (more + [d] + b)
  {
  }

  /** `TokensCons` with the word's tokens named. */
  lemma TokensFront(word: string, b: string, d: char) returns (first: seq<string>)
    requires d !in word
    ensures first == if word == "" then [] else [word]
    ensures Tokens(word + [d] + b, d) == first + Tokens(b, d)
  {
    first := if word == "" then [] else [word];
    TokensCons(word, b, d);
  }

  lemma TokensConsConcat(word: string, more: string, tail: string, b: string, d: char)
    requires d !in word && Tokens(tail, d) == Tokens(more, d) + Tokens(b, d)
    ensures Tokens(word + [d] + tail, d) == Tokens(word + [d] + more, d) + Tokens(b, d)
  {
    hide Tokens;
    var first := TokensFront(word, more, d);
    var same := TokensFront(word, tail, d);
    Associative(first, Tokens(more, d), Tokens(b, d));
  }

  lemma {:induction false} SpanClean(s: string, d: char)
    ensures d !in s[..Span(s, d)]
  {
    var n := Span(s, d);
    if n > 0 {
      SpanClean(s[1..], d);
      assert s[..n] == [s[0]] + s[1..][..n - 1];
    }
  }

  /** Tokens are non-empty and free of the delimiter. */
  lemma TokenClean(s: string, d: char)
    ensures d !in Token(s, d)
    ensures HasToken(s, d) <==> Token(s, d) != ""
  {
    SpanClean(s[Skip(s, d)..], d);
    assert Token(s, d) == s[Skip(s, d)..][..Span(s[Skip(s, d)..], d)];
  }

  lemma TokensWord(a: string, d: char)
    requires d !in a
    ensures Tokens(a, d) == if a == "" then [] else [a]
  {
    if a != "" {
      TokenAt(a, "", d);
      assert a + "" == a;
    }
  }

  /** strtok is the reference split with the empty pieces dropped. */
  lemma {:induction false} TokensAreNonEmptyPieces(s: string, d: char)
    ensures Tokens(s, d) == NonEmpty(Split(s, d))
    decreases |s|
  {
    var n := Span(s, d);
    SpanClean(s, d);
    if n == |s| {
      assert s[..n] == s;
      TokensWord(s, d);
    } else {
      var b := s[n + 1..];
      assert s == s[..n] + [d] + b;
      TokensCons(s[..n], b, d);
      TokensAreNonEmptyPieces(b, d);
      NonEmptyConcat([s[..n]], Split(b, d));
    }
  }

  /** Splitting a delimiter-free word off the front. */
  lemma SplitCons(a: string, b: string, d: char)
    requires d !in a
    ensures Split(a + [d] + b, d) == [a] + Split(b, d)
  {
    assert a + [d] + b == a + ([d] + b);
    SpanAt(a, [d] + b, d);
    assert (a + ([d] + b))[|a| + 1..] == b && (a + ([d] + b))[..|a|] == a;
  }

  lemma SplitWord(a: string, d: char)
    requires d !in a
    ensures Split(a, d) == [a]
  {
    assert a + "" == a;
    SpanAt(a, "", d);
  }

  /** The pieces of a text that is cut off: the same pieces up to the one that the cut falls into. */
  predicate CutOf(cut: seq<string>, pieces: seq<string>) {
    && 0 < |cut| <= |pieces| && cut[|cut| - 1] <= pieces[|cut| - 1]
    && forall i | 0 <= i < |cut| - 1 :: cut[i] == pieces[i]
  }

  /** The characters of the pieces, with a delimiter behind each. */
  function Length(pieces: seq<string>): nat {
    if pieces == [] then 0 else |pieces[0]| + 1 + Length(pieces[1..])
  }

  lemma {:induction false} SplitLength(s: string, d: char)
    ensures Length(Split(s, d)) == |s| + 1
    decreases |s|
  {
    if Span(s, d) < |s| { SplitLength(s[Span(s, d) + 1..], d); }
  }

  lemma {:induction false} SpanFree(s: string, d: char)
    ensures d !in s[..Span(s, d)]
  {
    if s != "" && s[0] != d {
      SpanFree(s[1..], d);
      assert s[..Span(s, d)] == [s[0]] + s[1..][..Span(s[1..], d)];
    }
  }

  /** Splitting the first n characters of a text cuts its pieces off. */
  lemma {:induction false} SplitCut(s: string, n: nat, d: char)
    requires n <= |s|
    ensures CutOf(Split(s[..n], d), Split(s, d))
    decreases |s|
  {
    var k := Span(s, d);
    SpanFree(s, d);
    assert Split(s, d)[0] == s[..k];
    assert k < |s| ==> Split(s, d) == [s[..k]] + Split(s[k + 1..], d);
    hide Split, Span;
    if n <= k {
      assert s[..n] == s[..k][..n];
      SplitWord(s[..n], d);
    } else {
      var t, m := s[k + 1..], n - k - 1;
      SplitCut(t, m, d);
      assert s[..n] == s[..k] + [d] + t[..m];
      SplitCons(s[..k], t[..m], d);
      CutCons(s[..k], Split(t[..m], d), Split(t, d));
    }
  }

  lemma CutCons(p: string, cut: seq<string>, pieces: seq<string>)
    requires CutOf(cut, pieces)
    ensures CutOf([p] + cut, [p] + pieces)
  {
    forall i | 0 <= i < |cut| ensures ([p] + cut)[i + 1] == cut[i] && ([p] + pieces)[i + 1] == pieces[i] {}
  }

  // ----- in place -----

  /** strspn: the first address at or behind `p` whose character is not `d`. */
  method Strspn(mem: array<char>, p: nat, d: char, ghost s: string) returns (q: nat)
    requires d != NUL && Holds(mem[..], p, s)
    ensures q == p + Skip(s, d) < mem.Length && Holds(mem[..], q, s[q - p..])
  {
    q := p;
    ghost var t := s;
    while mem[q] == d
      invariant q + |t| == p + |s| && Holds(mem[..], q, t) && t == s[q - p..]
      invariant Skip(s, d) == q - p + Skip(t, d)
      decreases |t|
    {
      q, t := q + 1, t[1..];
    }
  }

  /** strcspn: the first address at or behind `p` that holds `d` or the terminator. */
  method Strcspn(mem: array<char>, p: nat, d: char, ghost s: string) returns (q: nat)
    requires d != NUL && Holds(mem[..], p, s)
    ensures q == p + Span(s, d) < mem.Length && (mem[q] == NUL <==> Span(s, d) == |s|)
  {
    q := p;
    ghost var t := s;
    while mem[q] != NUL && mem[q] != d
      invariant q + |t| == p + |s| && Holds(mem[..], q, t)
      invariant Span(s, d) == q - p + Span(t, d)
      decreases |t|
    {
      q, t := q + 1, t[1..];
    }
  }

  /** The memory after one call of strtok_r: the token is ended by a NUL, nothing else is written. */
  ghost function Cut(mem: seq<char>, start: nat, d: char, s: string): seq<char>
    requires Holds(mem, start, s)
  {
    HoldsSuffix(mem, start, s, |s|);
    if HasToken(s, d) then mem[start + TokenEnd(s, d) := NUL] else mem
  }

  lemma CutAt(mem: seq<char>, start: nat, s: string, k: nat, e: nat)
    requires Holds(mem, start, s) && k <= e <= |s|
    ensures start + |s| < |mem|
    ensures Holds(mem[start + e := NUL], start + k, s[k..e])
    ensures Holds(mem[start + e := NUL], start + |s| - |TailAfter(s, e)|, TailAfter(s, e))
  {
    HoldsSuffix(mem, start, s, k);
    HoldsCut(mem, start + k, s[k..], e - k);
    assert s[k..][..e - k] == s[k..e];
    if e < |s| {
      assert s[k..][e - k + 1..] == s[e + 1..];
    } else {
      HoldsSuffix(mem[start + e := NUL], start + k, s[k..e], e - k);
    }
  }

  /** After the call the token and the tail behind the saved cursor are C strings. */
  lemma CutHolds(mem: seq<char>, start: nat, d: char, s: string)
    requires Holds(mem, start, s)
    ensures Holds(Cut(mem, start, d, s), start + Skip(s, d), Token(s, d))
    ensures Holds(Cut(mem, start, d, s), start + |s| - |Rest(s, d)|, Rest(s, d))
  {
    if HasToken(s, d) {
      CutAt(mem, start, s, Skip(s, d), TokenEnd(s, d));
    } else {
      HoldsSuffix(mem, start, s, |s|);
    }
  }

  /** The call does not disturb a string that starts behind the terminator. */
  lemma CutFrame(mem: seq<char>, start: nat, d: char, s: string, p: nat, t: string)
    requires Holds(mem, start, s) && Holds(mem, p, t) && start + |s| < p
    ensures Holds(Cut(mem, start, d, s), p, t)
  {
    HoldsSuffix(mem, start, s, |s|);
    if HasToken(s, d) {
      HoldsFrame(mem, p, t, start + TokenEnd(s, d), NUL);
    }
  }

  /** The call leaves the terminator in place. */
  lemma CutEnd(mem: seq<char>, start: nat, d: char, s: string)
    requires Holds(mem, start, s)
    ensures Holds(Cut(mem, start, d, s), start + |s|, "")
  {
    CutHolds(mem, start, d, s);
    HoldsSuffix(Cut(mem, start, d, s), start + |s| - |Rest(s, d)|, Rest(s, d), |Rest(s, d)|);
  }

  /** One call of strtok_r with a one-character delimiter set, started at address `start`, where the
      memory holds `s`. Returns the address of the token, if there is one, and the saved cursor. */
  method StrtokR(mem: array<char>, start: nat, d: char, ghost s: string) returns (tok: Option<nat>, save: nat)
    requires d != NUL && Holds(mem[..], start, s)
    modifies mem
    ensures tok == if HasToken(s, d) then Some(start + Skip(s, d)) else None
    ensures save == start + |s| - |Rest(s, d)|
    ensures mem[..] == Cut(old(mem[..]), start, d, s)
  {
    var p := Strspn(mem, start, d, s);
    if mem[p] == NUL {
      return None, p;
    }
    var e := Strcspn(mem, p, d, s[p - start..]);
    tok, save := Some(p), e;
    if mem[e] != NUL {
      mem[e] := NUL;
      save := e + 1;
    }
  }

  /** `StrtokR` with its consequence for the strings behind the returned pointers. */
  method NextToken(mem: array<char>, start: nat, d: char, ghost s: string) returns (tok: Option<nat>, save: nat)
    requires d != NUL && Holds(mem[..], start, s)
    modifies mem
    ensures tok == if HasToken(s, d) then Some(start + Skip(s, d)) else None
    ensures save == start + |s| - |Rest(s, d)|
    ensures mem[..] == Cut(old(mem[..]), start, d, s)
    ensures Holds(mem[..], start + Skip(s, d), Token(s, d)) && Holds(mem[..], save, Rest(s, d))
  {
    CutHolds(mem[..], start, d, s);
    tok, save := StrtokR(mem, start, d, s);
  }
}
