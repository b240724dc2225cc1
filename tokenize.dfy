/**
 * Rust's `str::split_ascii_whitespace`: the maximal runs of characters that
 * are not ASCII whitespace, in order, with empty pieces skipped. `Tokens` is
 * the whole split; `NextToken` is one step of the lazy iterator the dispatch
 * loop advances.
 */
module Tokenize {
  import opened Wrappers
  import opened Ascii

  predicate NoWhitespace(w: string) {
    forall i :: 0 <= i < |w| ==> !IsAsciiWhitespace(w[i])
  }

  /** Length of the leading run of non-whitespace characters. */
  function WordLen(s: string): (k: nat)
    ensures k <= |s|
    ensures NoWhitespace(s[..k])
    ensures k < |s| ==> IsAsciiWhitespace(s[k])
  {
    if s == [] || IsAsciiWhitespace(s[0]) then 0
    else
      var k := 1 + WordLen(s[1..]);
      assert forall i :: 1 <= i < k ==> s[..k][i] == s[1..][..k - 1][i - 1];
      k
  }

  function Tokens(s: string): (ts: seq<string>)
    ensures forall i :: 0 <= i < |ts| ==> |ts[i]| > 0 && NoWhitespace(ts[i])
    decreases |s|
  {
    if s == [] then []
    else if IsAsciiWhitespace(s[0]) then Tokens(s[1..])
    else
      var k := WordLen(s);
      [s[..k]] + Tokens(s[k..])
  }

  /** The run length is determined by where the first whitespace is. */
  lemma {:induction false} WordLenIs(s: string, k: nat)
    requires k <= |s| && NoWhitespace(s[..k])
    requires k < |s| ==> IsAsciiWhitespace(s[k])
    ensures WordLen(s) == k
  {
    if k > 0 {
      assert s[0] == s[..k][0];
      assert s[1..][..k - 1] == s[..k][1..];
      WordLenIs(s[1..], k - 1);
    }
  }

  /** A leading whitespace character contributes no token. */
  lemma TokensSkip(s: string, i: nat)
    requires i < |s| && IsAsciiWhitespace(s[i])
    ensures Tokens(s[i..]) == Tokens(s[i + 1..])
  {
    assert s[i..][1..] == s[i + 1..];
  }

  /** A run `s[i..j]` that starts a word and ends at whitespace or the end is the next token. */
  lemma TokensTake(s: string, i: nat, j: nat)
    requires i < j <= |s| && !IsAsciiWhitespace(s[i])
    requires forall k :: i <= k < j ==> !IsAsciiWhitespace(s[k])
    requires j < |s| ==> IsAsciiWhitespace(s[j])
    ensures Tokens(s[i..]) == [s[i..j]] + Tokens(s[j..])
  {
    var r := s[i..];
    assert r[..j - i] == s[i..j];
    assert r[j - i..] == s[j..];
    assert NoWhitespace(r[..j - i]);
    WordLenIs(r, j - i);
  }

  /**
   * One `next()` of the iterator over `s[start..]`: skips whitespace, then
   * takes the run that follows. The tokens of the rest are the returned
   * token followed by the tokens after `next`.
   */
  method NextToken(s: string, start: nat) returns (token: Option<string>, next: nat)
    requires start <= |s|
    ensures start <= next <= |s|
    ensures Tokens(s[start..]) == if token.None? then [] else [token.value] + Tokens(s[next..])
  {
    var i := start;
    while i < |s| && IsAsciiWhitespace(s[i])
      invariant start <= i <= |s|
      invariant Tokens(s[start..]) == Tokens(s[i..])
    {
      TokensSkip(s, i);
      i := i + 1;
    }
    if i == |s| {
      return None, i;
    }
    var j := i + 1;
    while j < |s| && !IsAsciiWhitespace(s[j])
      invariant i < j <= |s|
      invariant forall k :: i <= k < j ==> !IsAsciiWhitespace(s[k])
    {
      j := j + 1;
    }
    TokensTake(s, i, j);
    token, next := Some(s[i..j]), j;
  }

  /** A single run without whitespace is one token. */
  lemma TokensOfWord(w: string)
    requires |w| > 0 && NoWhitespace(w)
    ensures Tokens(w) == [w]
  {
    WordLenIs(w, |w|);
    assert w[..|w|] == w;
    assert w[|w|..] == [];
  }

  /** A whitespace character separates: the tokens of `a c b` are those of `a` then those of `b`. */
  lemma {:induction false} TokensAppend(a: string, c: char, b: string)
    requires IsAsciiWhitespace(c)
    ensures Tokens(a + [c] + b) == Tokens(a) + Tokens(b)
    decreases |a|
  {
    var s := a + [c] + b;
    if a == [] {
      assert s[1..] == b;
    } else if IsAsciiWhitespace(a[0]) {
      assert s[1..] == a[1..] + [c] + b;
      TokensAppend(a[1..], c, b);
    } else {
      var k := WordLen(a);
      assert s[0] == a[0] && s[..k] == a[..k];
      WordLenIs(s, k);
      assert Tokens(s) == [s[..k]] + Tokens(s[k..]);
      assert Tokens(a) == [a[..k]] + Tokens(a[k..]);
      assert s[k..] == a[k..] + [c] + b;
      TokensAppend(a[k..], c, b);
    }
  }

  /** Leading whitespace contributes no token. */
  lemma {:induction false} TokensSkipPrefix(ws: string, x: string)
    requires forall i :: 0 <= i < |ws| ==> IsAsciiWhitespace(ws[i])
    ensures Tokens(ws + x) == Tokens(x)
    decreases |ws|
  {
    if ws != [] {
      var s := ws + x;
      assert s[0] == ws[0] && IsAsciiWhitespace(s[0]);
      assert s[1..] == ws[1..] + x;
      assert Tokens(s) == Tokens(s[1..]);
      TokensSkipPrefix(ws[1..], x);
    } else {
      assert ws + x == x;
    }
  }

  /** Words joined by single spaces, as a chat line is typed. */
  function Join(ws: seq<string>): string
  {
    if |ws| == 0 then "" else if |ws| == 1 then ws[0] else ws[0] + " " + Join(ws[1..])
  }

  /** Splitting a line of space-joined words gives back the words. */
  lemma {:induction false} TokensOfJoin(ws: seq<string>)
    requires forall i :: 0 <= i < |ws| ==> |ws[i]| > 0 && NoWhitespace(ws[i])
    ensures Tokens(Join(ws)) == ws
  {
    if |ws| == 1 {
      TokensOfWord(ws[0]);
    } else if |ws| > 1 {
      TokensAppend(ws[0], ' ', Join(ws[1..]));
      TokensOfWord(ws[0]);
      TokensOfJoin(ws[1..]);
    }
  }
}
