/**
 * `lsh_split_line`: split a line into an argument vector on runs of the
 * delimiters space, tab, carriage return and newline, as `strtok` with
 * `LSH_TOK_DELIM` does. Consecutive delimiters never produce an empty token.
 */
module Tokenizer {
  import opened Text

  /** The characters of `LSH_TOK_DELIM`. */
  predicate IsDelim(c: char)
  {
    c == ' ' || c == '\t' || c == '\r' || c == '\n'
  }

  /** A word as the tokenizer produces it: non-empty and free of delimiters. */
  predicate IsWord(t: string)
  {
    t != [] && forall k :: 0 <= k < |t| ==> !IsDelim(t[k])
  }

  /** The length of the delimiter-free prefix of `s`. */
  function WordLength(s: string): (n: nat)
    ensures n <= |s|
    ensures forall k :: 0 <= k < n ==> !IsDelim(s[k])
    ensures n < |s| ==> IsDelim(s[n])
  {
    if s == [] || IsDelim(s[0]) then 0 else 1 + WordLength(s[1..])
  }

  /** The maximal delimiter-free runs of `s`, in order. */
  function Tokens(s: string): seq<string>
    decreases |s|
  {
    if s == [] then []
    else if IsDelim(s[0]) then Tokens(s[1..])
    else
      var n := WordLength(s);
      [s[..n]] + Tokens(s[n..])
  }

  /** Every token is a word: no token is empty and none holds a delimiter. */
  lemma {:induction false} TokensAreWords(s: string)
    ensures forall i :: 0 <= i < |Tokens(s)| ==> IsWord(Tokens(s)[i])
    decreases |s|
  {
    if s != [] {
      if IsDelim(s[0]) {
        TokensAreWords(s[1..]);
      } else {
        var n := WordLength(s);
        TokensAreWords(s[n..]);
        assert Tokens(s) == [s[..n]] + Tokens(s[n..]);
      }
    }
  }

  /** A delimiter at `i` is skipped. */
  lemma TokensAtDelim(line: string, i: nat)
    requires i < |line| && IsDelim(line[i])
    ensures Tokens(line[i..]) == Tokens(line[i + 1..])
  {
    assert line[i..][1..] == line[i + 1..];
  }

  /** A run of `j - i` non-delimiters ending at a delimiter or at the end has exactly that length. */
  lemma WordLengthAt(s: string, i: nat, j: nat)
    requires i <= j <= |s|
    requires forall k :: i <= k < j ==> !IsDelim(s[k])
    requires j == |s| || IsDelim(s[j])
    ensures WordLength(s[i..]) == j - i
  {
  }

  /** A maximal word at `i..j` is the next token, and tokenizing continues after it. */
  lemma TokensAtWord(line: string, i: nat, j: nat)
    requires i < j <= |line|
    requires forall k :: i <= k < j ==> !IsDelim(line[k])
    requires j == |line| || IsDelim(line[j])
    ensures Tokens(line[i..]) == [line[i..j]] + Tokens(line[j..])
  {
    WordLengthAt(line, i, j);
    assert line[i..][..j - i] == line[i..j];
    assert line[i..][j - i..] == line[j..];
  }

  /**
   * The tokenizer loop: skip a delimiter, or collect a whole word and append
   * it to the vector at `position`.
   */
  method SplitLine(line: string) returns (tokens: seq<string>)
    ensures tokens == Tokens(line)
    ensures forall i :: 0 <= i < |tokens| ==> IsWord(tokens[i])
  {
    tokens := [];
    var i := 0;
    while i < |line|
      invariant i <= |line|
      invariant tokens + Tokens(line[i..]) == Tokens(line)
    {
      if IsDelim(line[i]) {
        TokensAtDelim(line, i);
        i := i + 1;
      } else {
        var j := i;
        while j < |line| && !IsDelim(line[j])
          invariant i <= j <= |line|
          invariant forall k :: i <= k < j ==> !IsDelim(line[k])
        {
          j := j + 1;
        }
        TokensAtWord(line, i, j);
        tokens := tokens + [line[i..j]];
        i := j;
      }
    }
    assert line[i..] == [];
    TokensAreWords(line);
  }

  /** An empty or all-delimiter line, and only such a line, yields the empty vector. */
  lemma {:induction false} TokensEmptyIff(s: string)
    ensures Tokens(s) == [] <==> forall k :: 0 <= k < |s| ==> IsDelim(s[k])
    decreases |s|
  {
    if s != [] && IsDelim(s[0]) {
      TokensEmptyIff(s[1..]);
      assert forall k :: 1 <= k < |s| ==> s[1..][k - 1] == s[k];
    }
  }

  /** The non-delimiter characters of `s`, in order. */
  function RemoveDelims(s: string): string
  {
    if s == [] then []
    else if IsDelim(s[0]) then RemoveDelims(s[1..])
    else [s[0]] + RemoveDelims(s[1..])
  }

  /** The tokens laid end to end. */
  function Concat(ts: seq<string>): string
  {
    if ts == [] then [] else ts[0] + Concat(ts[1..])
  }

  lemma {:induction false} RemoveDelimsOfWordPrefix(s: string, n: nat)
    requires n <= |s|
    requires forall k :: 0 <= k < n ==> !IsDelim(s[k])
    ensures RemoveDelims(s) == s[..n] + RemoveDelims(s[n..])
    decreases n
  {
    if n > 0 {
      RemoveDelimsOfWordPrefix(s[1..], n - 1);
      assert s[1..][n - 1..] == s[n..];
      assert s[..n] == [s[0]] + s[1..][..n - 1];
    }
  }

  /**
   * Tokens appear in input order and nothing but delimiters is lost: the
   * tokens laid end to end are exactly the line's non-delimiter characters.
   */
  lemma {:induction false} TokensInInputOrder(s: string)
    ensures Concat(Tokens(s)) == RemoveDelims(s)
    decreases |s|
  {
    if s != [] {
      if IsDelim(s[0]) {
        TokensInInputOrder(s[1..]);
      } else {
        var n := WordLength(s);
        TokensInInputOrder(s[n..]);
        RemoveDelimsOfWordPrefix(s, n);
        assert ([s[..n]] + Tokens(s[n..]))[1..] == Tokens(s[n..]);
      }
    }
  }

  /** A word followed by a space and more text tokenizes to that word and then the rest. */
  lemma TokensAfterWord(w: string, rest: string)
    requires IsWord(w)
    ensures Tokens(w + " " + rest) == [w] + Tokens(rest)
  {
    var s := w + " " + rest;
    WordLengthAt(s, 0, |w|);
    assert s[0..] == s;
    assert s[..|w|] == w;
    assert s[|w|..] == " " + rest;
    assert (" " + rest)[1..] == rest;
  }

  /** A single word tokenizes to itself. */
  lemma TokensOfWord(w: string)
    requires IsWord(w)
    ensures Tokens(w) == [w]
  {
    WordLengthAt(w, 0, |w|);
    assert w[0..] == w;
    assert w[..|w|] == w && w[|w|..] == [];
  }

  /**
   * Round trip: joining words with single spaces and tokenizing again gives
   * back the same vector.
   */
  lemma {:induction false} TokensOfJoin(words: seq<string>)
    requires forall i :: 0 <= i < |words| ==> IsWord(words[i])
    ensures Tokens(Join(words)) == words
    decreases |words|
  {
    if |words| == 1 {
      TokensOfWord(words[0]);
    } else if |words| >= 2 {
      var rest := words[1..];
      assert words == [words[0]] + rest;
      JoinCons(words[0], rest);
      TokensOfJoin(rest);
      TokensAfterWord(words[0], Join(rest));
    }
  }
}
