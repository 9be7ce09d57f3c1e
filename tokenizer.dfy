/** The tokenizer shared by the file-based and the database-backed search:
    every maximal run of `[A-Za-z0-9]` becomes one lower-cased token. */
module Tokenizer {
  import opened Strings

  /** A well-formed index term: non-empty, lower-case ASCII letters and digits. */
  predicate IsToken(t: string) {
    |t| > 0 && forall i :: 0 <= i < |t| ==> IsLowerAlnum(t[i])
  }

  /** Length of the leading run of token characters (the regex's greedy match). */
  function AlnumRun(s: string): (n: nat)
    ensures n <= |s|
    ensures forall i :: 0 <= i < n ==> IsAlnum(s[i])
    ensures n == |s| || !IsAlnum(s[n])
  {
    if s == [] || !IsAlnum(s[0]) then 0 else 1 + AlnumRun(s[1..])
  }

  /** `[t.lower() for t in TOKEN_RE.findall(s)]`: skip a non-token character,
      or take the maximal run of token characters and lower-case it. */
  function Tokenize(s: string): (toks: seq<string>)
    ensures forall k :: 0 <= k < |toks| ==> IsToken(toks[k])
    decreases |s|
  {
    if s == [] then []
    else if !IsAlnum(s[0]) then Tokenize(s[1..])
    else
      var n := AlnumRun(s);
      [Lower(s[..n])] + Tokenize(s[n..])
  }

  /** A run of token characters is not lengthened by what follows a
      non-token character. */
  lemma RunStops(a: string, r: string)
    requires AlnumRun(a) < |a| || r == [] || !IsAlnum(r[0])
    ensures AlnumRun(a + r) == AlnumRun(a)
  {
    var m := AlnumRun(a);
    assert forall i :: 0 <= i < |a| ==> (a + r)[i] == a[i];
    assert m < |a + r| ==> (a + r)[m] == if m < |a| then a[m] else r[0];
  }

  /** A non-token character separates: the tokens of `a + [c] + b` are those
      of `a` followed by those of `b`. */
  lemma {:induction false} TokenizeSeparated(a: string, c: char, b: string)
    requires !IsAlnum(c)
    ensures Tokenize(a + [c] + b) == Tokenize(a) + Tokenize(b)
    decreases |a|
  {
    var s := a + [c] + b;
    if a == [] {
      assert s[1..] == b;
    } else if !IsAlnum(a[0]) {
      assert s[1..] == a[1..] + [c] + b;
      TokenizeSeparated(a[1..], c, b);
    } else {
      var m := AlnumRun(a);
      RunStops(a, [c] + b);
      assert s == a + ([c] + b);
      assert s[..m] == a[..m];
      assert s[m..] == a[m..] + [c] + b;
      TokenizeSeparated(a[m..], c, b);
    }
  }

  /** A well-formed token tokenizes to itself. */
  lemma TokenizeToken(t: string)
    requires IsToken(t)
    ensures Tokenize(t) == [t]
  {
    var n := AlnumRun(t);
    assert forall i :: 0 <= i < |t| ==> IsAlnum(t[i]);
    assert t[..n] == t;
    assert Lower(t) == t;
    assert t[n..] == [];
  }

  /** Joining well-formed tokens with single spaces and tokenizing again gives
      the same tokens back. */
  lemma {:induction false} TokenizeJoin(toks: seq<string>)
    requires forall k :: 0 <= k < |toks| ==> IsToken(toks[k])
    ensures Tokenize(Join(toks, " ")) == toks
    decreases |toks|
  {
    if |toks| == 1 {
      TokenizeToken(toks[0]);
    } else if |toks| > 1 {
      TokenizeToken(toks[0]);
      TokenizeJoin(toks[1..]);
      assert Join(toks, " ") == toks[0] + [' '] + Join(toks[1..], " ");
      TokenizeSeparated(toks[0], ' ', Join(toks[1..], " "));
      assert toks == [toks[0]] + toks[1..];
    }
  }

  /** Lower-casing the input first yields the same tokens. */
  lemma {:induction false} TokenizeLower(s: string)
    ensures Tokenize(Lower(s)) == Tokenize(s)
    decreases |s|
  {
    var l := Lower(s);
    if s != [] {
      assert l[1..] == Lower(s[1..]);
      if !IsAlnum(s[0]) {
        TokenizeLower(s[1..]);
      } else {
        var n := AlnumRun(s);
        assert forall i :: 0 <= i < |s| ==> (IsAlnum(l[i]) <==> IsAlnum(s[i]));
        assert AlnumRun(l) == n;
        assert l[..n] == Lower(s[..n]);
        assert Lower(Lower(s[..n])) == Lower(s[..n]) by { LowerIdempotent(s[..n]); }
        assert l[n..] == Lower(s[n..]);
        TokenizeLower(s[n..]);
      }
    }
  }
}
