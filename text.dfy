/**
 * String helpers shared by the shell's components: joining words with single
 * spaces (the `strcat` loops), finding the first occurrence of a character
 * (`strchr`) and dropping leading spaces (the pointer-advancing loops of
 * `handle_pipeline`).
 */
module Text {
  import opened Wrappers

  /** The words joined with one space between consecutive words. */
  function Join(words: seq<string>): string
  {
    if |words| == 0 then ""
    else if |words| == 1 then words[0]
    else Join(words[..|words| - 1]) + " " + words[|words| - 1]
  }

  /** Joining one more word at the end adds one separator, unless nothing came before. */
  lemma JoinSnoc(words: seq<string>, w: string)
    ensures Join(words + [w]) == if words == [] then w else Join(words) + " " + w
  {
    if words != [] {
      assert (words + [w])[..|words|] == words;
    }
  }

  /** Joining, read from the front: the first word, a space, then the rest. */
  lemma {:induction false} JoinCons(w: string, rest: seq<string>)
    ensures Join([w] + rest) == if rest == [] then w else w + " " + Join(rest)
    decreases |rest|
  {
    if |rest| >= 2 {
      var init := rest[..|rest| - 1];
      var last := rest[|rest| - 1];
      assert rest == init + [last];
      assert [w] + rest == ([w] + init) + [last];
      JoinSnoc([w] + init, last);
      JoinCons(w, init);
      JoinSnoc(init, last);
    } else if |rest| == 1 {
      assert [w] + rest == [w] + [rest[0]];
      JoinSnoc([w], rest[0]);
    }
  }

  /** The index of the first `c` in `s`, if any, as `strchr` finds it. */
  function FirstIndex(s: string, c: char): (r: Option<nat>)
    ensures r.None? <==> c !in s
    ensures r.Some? ==> r.value < |s| && s[r.value] == c && c !in s[..r.value]
  {
    if s == [] then None
    else if s[0] == c then Some(0)
    else match FirstIndex(s[1..], c)
      case None => None
      case Some(i) =>
        assert s[..i + 1] == [s[0]] + s[1..][..i];
        Some(i + 1)
  }

  /** The first occurrence is determined by its position. */
  lemma FirstIndexAt(s: string, c: char, p: nat)
    requires p < |s| && s[p] == c && c !in s[..p]
    ensures FirstIndex(s, c) == Some(p)
  {
  }

  /** The number of spaces (only ' ', not tabs) that start `s`. */
  function LeadingSpaces(s: string): (n: nat)
    ensures n <= |s|
    ensures forall k :: 0 <= k < n ==> s[k] == ' '
    ensures n < |s| ==> s[n] != ' '
  {
    if s != [] && s[0] == ' ' then 1 + LeadingSpaces(s[1..]) else 0
  }

  /** `s` with its leading spaces removed; trailing spaces are kept. */
  function TrimLeadingSpaces(s: string): string
  {
    s[LeadingSpaces(s)..]
  }

  /**
   * The loop `while (*cmd == ' ') cmd++;`: advance past the leading spaces and
   * report how many were skipped.
   */
  method SkipSpaces(s: string) returns (k: nat)
    ensures k <= |s|
    ensures forall i :: 0 <= i < k ==> s[i] == ' '
    ensures k == |s| || s[k] != ' '
  {
    k := 0;
    while k < |s| && s[k] == ' '
      invariant k <= |s|
      invariant forall i :: 0 <= i < k ==> s[i] == ' '
    {
      k := k + 1;
    }
  }

  /**
   * Trimming keeps exactly the suffix that starts at the first non-space
   * character: only spaces are removed, and everything from there on,
   * trailing spaces included, is kept.
   */
  lemma TrimLeadingSpacesIsSuffix(s: string)
    ensures var t := TrimLeadingSpaces(s);
      |t| <= |s| && s[|s| - |t|..] == t &&
      (forall i :: 0 <= i < |s| - |t| ==> s[i] == ' ') &&
      (t == [] || t[0] != ' ')
  {
  }
}
