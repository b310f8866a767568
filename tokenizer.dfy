/**
 * `java.util.StringTokenizer` as the mapper uses it: delimiter set {','},
 * delimiters not returned as tokens. A token is a maximal non-empty run of
 * characters that are not commas; commas, including runs of them and
 * leading or trailing ones, only separate tokens.
 *
 * `Tokens` is the specification; `Fields`/`NonEmpty` is an independent
 * reference ("split at every comma, drop the empty fields"); the class
 * `StringTokenizer` is the cursor-based scanner the mapper's loop drives.
 */
module Tokenizer {
  import opened Wrappers
  import opened Seqs

  /** The only delimiter the mapper passes to StringTokenizer. */
  const Comma: char := ','

  /** The length of the longest comma-free prefix of `s`. */
  function TokenLength(s: seq<char>): (n: nat)
    ensures n <= |s|
    ensures forall k :: 0 <= k < n ==> s[k] != Comma
    ensures n < |s| ==> s[n] == Comma
  {
    if s == [] || s[0] == Comma then 0 else 1 + TokenLength(s[1..])
  }

  /** The tokens of `s`, in the order they occur in `s`. */
  function Tokens(s: seq<char>): (ts: seq<seq<char>>)
    ensures forall t :: t in ts ==> t != [] && Comma !in t
    decreases |s|
  {
    if s == [] then []
    else if s[0] == Comma then Tokens(s[1..])
    else
      var n := TokenLength(s);
      [s[..n]] + Tokens(s[n..])
  }

  // ----- reference definition: split at every comma -----

  /** The comma-separated fields of `s`, empty ones included (always at least one). */
  function Fields(s: seq<char>): (fs: seq<seq<char>>)
    ensures |fs| >= 1
    ensures forall f :: f in fs ==> Comma !in f
    decreases |s|
  {
    var n := TokenLength(s);
    if n == |s| then [s] else [s[..n]] + Fields(s[n + 1..])
  }

  /** Fields glued back together with one comma between neighbours. */
  function Join(fs: seq<seq<char>>): seq<char>
  {
    if fs == [] then []
    else if |fs| == 1 then fs[0]
    else fs[0] + [Comma] + Join(fs[1..])
  }

  /** The non-empty elements of `fs`, in order. */
  function NonEmpty(fs: seq<seq<char>>): seq<seq<char>>
  {
    if fs == [] then []
    else if fs[0] == [] then NonEmpty(fs[1..])
    else [fs[0]] + NonEmpty(fs[1..])
  }

  /** `s` with every comma removed. */
  function RemoveCommas(s: seq<char>): seq<char>
  {
    if s == [] then []
    else if s[0] == Comma then RemoveCommas(s[1..])
    else [s[0]] + RemoveCommas(s[1..])
  }

  /**
   * The number of maximal non-empty comma-free runs in `s`, counted one
   * character at a time: a run starts at a non-comma that follows a comma or
   * the start of the line (`atBoundary`).
   */
  function CountRuns(s: seq<char>, atBoundary: bool): nat
  {
    if s == [] then 0
    else if s[0] == Comma then CountRuns(s[1..], true)
    else (if atBoundary then 1 else 0) + CountRuns(s[1..], false)
  }

  function RunCount(s: seq<char>): nat
  {
    CountRuns(s, true)
  }

  // ----- properties of the tokenizer -----

  /** Splitting at every comma and joining with commas gives the line back. */
  lemma {:induction false} JoinFields(s: seq<char>)
    ensures Join(Fields(s)) == s
    decreases |s|
  {
    var n := TokenLength(s);
    if n < |s| {
      JoinFields(s[n + 1..]);
      assert s == s[..n] + [Comma] + s[n + 1..];
    }
  }

  /** Joining comma-free fields and splitting again gives the fields back. */
  lemma {:induction false} FieldsJoin(fs: seq<seq<char>>)
    requires |fs| >= 1
    requires forall f :: f in fs ==> Comma !in f
    ensures Fields(Join(fs)) == fs
  {
    var s := Join(fs);
    if |fs| == 1 {
      TokenLengthOfCommaFree(fs[0]);
    } else {
      var rest := Join(fs[1..]);
      assert s == fs[0] + ([Comma] + rest);
      TokenLengthStopsAtComma(fs[0], rest);
      assert s[..|fs[0]|] == fs[0];
      assert s[|fs[0]| + 1..] == rest;
      FieldsJoin(fs[1..]);
    }
  }

  lemma {:induction false} TokenLengthOfCommaFree(s: seq<char>)
    requires Comma !in s
    ensures TokenLength(s) == |s|
  {
    if s != [] {
      TokenLengthOfCommaFree(s[1..]);
    }
  }

  lemma TokenLengthStopsAtComma(t: seq<char>, rest: seq<char>)
    requires Comma !in t
    ensures TokenLength(t + [Comma] + rest) == |t|
  {
    var s := t + [Comma] + rest;
    assert s[|t|] == Comma;
    assert forall k :: 0 <= k < |t| ==> s[k] == t[k];
  }

  /** StringTokenizer's tokens are exactly the non-empty comma-separated fields. */
  lemma {:induction false} TokensAreNonEmptyFields(s: seq<char>)
    ensures Tokens(s) == NonEmpty(Fields(s))
    decreases |s|
  {
    var n := TokenLength(s);
    if s == [] {
    } else if s[0] == Comma {
      assert n == 0;
      assert Fields(s) == [[]] + Fields(s[1..]);
      TokensAreNonEmptyFields(s[1..]);
    } else if n == |s| {
      assert s[..n] == s;
      assert Tokens(s) == [s] + Tokens(s[n..]);
    } else {
      assert Fields(s) == [s[..n]] + Fields(s[n + 1..]);
      assert s[n..][1..] == s[n + 1..];
      TokensAreNonEmptyFields(s[n + 1..]);
    }
  }

  /** Laying the tokens end to end gives the line without its commas, so tokens keep their order. */
  lemma {:induction false} ConcatTokens(s: seq<char>)
    ensures Flatten(Tokens(s)) == RemoveCommas(s)
    decreases |s|
  {
    if s == [] {
    } else if s[0] == Comma {
      ConcatTokens(s[1..]);
    } else {
      var n := TokenLength(s);
      ConcatTokens(s[n..]);
      RemoveCommasSplit(s[..n], s[n..]);
      RemoveCommasOfCommaFree(s[..n]);
      assert s[..n] + s[n..] == s;
    }
  }

  lemma {:induction false} RemoveCommasSplit(a: seq<char>, b: seq<char>)
    ensures RemoveCommas(a + b) == RemoveCommas(a) + RemoveCommas(b)
  {
    if a != [] {
      assert (a + b)[1..] == a[1..] + b;
      RemoveCommasSplit(a[1..], b);
    } else {
      assert a + b == b;
    }
  }

  lemma {:induction false} RemoveCommasOfCommaFree(t: seq<char>)
    requires forall k :: 0 <= k < |t| ==> t[k] != Comma
    ensures RemoveCommas(t) == t
  {
    if t != [] {
      RemoveCommasOfCommaFree(t[1..]);
    }
  }

  /** The number of tokens is the number of maximal non-empty comma-free runs. */
  lemma {:induction false} TokenCount(s: seq<char>)
    ensures |Tokens(s)| == RunCount(s)
    decreases |s|
  {
    if s == [] {
    } else if s[0] == Comma {
      TokenCount(s[1..]);
    } else {
      var n := TokenLength(s);
      TokenCount(s[n..]);
      RunInside(s, 1, n);
      assert CountRuns(s, true) == 1 + CountRuns(s[1..], false);
      assert s[n..] == s[1..][n - 1..];
    }
  }

  /** Inside a comma-free run no new run starts; at its end the boundary flag no longer matters. */
  lemma {:induction false} RunInside(s: seq<char>, i: nat, n: nat)
    requires 1 <= i <= n <= |s|
    requires forall k :: 0 <= k < n ==> s[k] != Comma
    requires n < |s| ==> s[n] == Comma
    ensures CountRuns(s[i..], false) == CountRuns(s[n..], true)
    decreases n - i
  {
    if i < n {
      assert s[i..][1..] == s[i + 1..];
      RunInside(s, i + 1, n);
    }
  }

  /** A line gives no tokens exactly when it is empty or made only of commas. */
  lemma {:induction false} NoTokensIffOnlyCommas(s: seq<char>)
    ensures Tokens(s) == [] <==> forall k :: 0 <= k < |s| ==> s[k] == Comma
    decreases |s|
  {
    if s != [] && s[0] == Comma {
      NoTokensIffOnlyCommas(s[1..]);
      assert forall k :: 1 <= k < |s| ==> s[k] == s[1..][k - 1];
    }
  }

  /** A non-empty line without a comma is one token: the whole line, spaces included. */
  lemma SingleToken(s: seq<char>)
    requires s != [] && Comma !in s
    ensures Tokens(s) == [s]
  {
    TokenLengthOfCommaFree(s);
    assert s[..|s|] == s;
    assert Tokens(s) == [s] + Tokens(s[|s|..]);
  }

  /** Skipping a prefix of commas does not change the tokens. */
  lemma {:induction false} SkipCommas(s: seq<char>, i: nat)
    requires i <= |s|
    requires forall k :: 0 <= k < i ==> s[k] == Comma
    ensures Tokens(s[i..]) == Tokens(s)
  {
    if i > 0 {
      assert s[1..][i - 1..] == s[i..];
      SkipCommas(s[1..], i - 1);
    }
  }

  /** At a non-comma, the first token runs up to the next comma or the end. */
  lemma FirstToken(s: seq<char>, j: nat)
    requires 0 < j <= |s|
    requires forall k :: 0 <= k < j ==> s[k] != Comma
    requires j < |s| ==> s[j] == Comma
    ensures Tokens(s) == [s[..j]] + Tokens(s[j..])
  {
    assert TokenLength(s) == j;
  }

  // ----- the cursor-based scanner -----

  /** java.util.StringTokenizer constructed as `new StringTokenizer(str, ",")`. */
  class StringTokenizer {
    const str: seq<char>
    var currentPosition: nat

    ghost predicate Valid()
      reads this
    {
      currentPosition <= |str|
    }

    /** The tokens not yet returned by NextToken. */
    ghost function Remaining(): seq<seq<char>>
      reads this
      requires Valid()
    {
      Tokens(str[currentPosition..])
    }

    constructor (s: seq<char>)
      ensures Valid() && str == s && currentPosition == 0
      ensures Remaining() == Tokens(s)
    {
      str := s;
      currentPosition := 0;
      new;
      assert str[0..] == str;
    }

    /** The first position at or after `startPos` that is not a comma, or the end. */
    method SkipDelimiters(startPos: nat) returns (position: nat)
      requires startPos <= |str|
      ensures startPos <= position <= |str|
      ensures forall k :: startPos <= k < position ==> str[k] == Comma
      ensures position < |str| ==> str[position] != Comma
    {
      position := startPos;
      while position < |str| && str[position] == Comma
        invariant startPos <= position <= |str|
        invariant forall k :: startPos <= k < position ==> str[k] == Comma
      {
        position := position + 1;
      }
    }

    /** The first comma at or after `startPos`, or the end. */
    method ScanToken(startPos: nat) returns (position: nat)
      requires startPos <= |str|
      ensures startPos <= position <= |str|
      ensures forall k :: startPos <= k < position ==> str[k] != Comma
      ensures position < |str| ==> str[position] == Comma
    {
      position := startPos;
      while position < |str| && str[position] != Comma
        invariant startPos <= position <= |str|
        invariant forall k :: startPos <= k < position ==> str[k] != Comma
      {
        position := position + 1;
      }
    }

    /** True exactly when another token remains. */
    method HasMoreTokens() returns (b: bool)
      requires Valid()
      ensures b <==> Remaining() != []
    {
      var p := SkipDelimiters(currentPosition);
      b := p < |str|;
      SkipCommasAt(str, currentPosition, p);
      if b {
        FirstTokenExists(str[p..]);
      } else {
        assert str[p..] == [];
      }
    }

    /**
     * Returns the next token and moves past it; when none remains the Java
     * method throws NoSuchElementException, modelled as `None`.
     */
    method NextToken() returns (t: Option<seq<char>>)
      requires Valid()
      modifies this
      ensures Valid()
      ensures old(Remaining()) == [] ==> t == None && Remaining() == []
      ensures old(Remaining()) != [] ==>
                t == Some(old(Remaining())[0]) && Remaining() == old(Remaining())[1..]
    {
      var p := SkipDelimiters(currentPosition);
      SkipCommasAt(str, currentPosition, p);
      currentPosition := p;
      if currentPosition >= |str| {
        t := None;
      } else {
        var start := currentPosition;
        currentPosition := ScanToken(currentPosition);
        FirstTokenAt(str, start, currentPosition);
        t := Some(str[start..currentPosition]);
      }
    }
  }

  /** SkipCommas, stated on positions of the whole line. */
  lemma SkipCommasAt(s: seq<char>, from: nat, p: nat)
    requires from <= p <= |s|
    requires forall k :: from <= k < p ==> s[k] == Comma
    ensures Tokens(s[p..]) == Tokens(s[from..])
  {
    SkipCommas(s[from..], p - from);
    assert s[from..][p - from..] == s[p..];
  }

  /** FirstToken, stated on positions of the whole line. */
  lemma FirstTokenAt(s: seq<char>, start: nat, q: nat)
    requires start < q <= |s|
    requires forall k :: start <= k < q ==> s[k] != Comma
    requires q < |s| ==> s[q] == Comma
    ensures Tokens(s[start..]) == [s[start..q]] + Tokens(s[q..])
  {
    FirstToken(s[start..], q - start);
    assert s[start..][..q - start] == s[start..q];
    assert s[start..][q - start..] == s[q..];
  }

  /** A line that starts with a non-comma has at least one token. */
  lemma FirstTokenExists(s: seq<char>)
    requires s != [] && s[0] != Comma
    ensures Tokens(s) != []
  {
  }
}
