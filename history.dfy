/**
 * The history log of `add_to_history`: at most `MAX_HISTORY` lines in
 * insertion order; when full, the oldest line is dropped and the others shift
 * down by one (a shift, not a ring index).
 */
module History {
  const MAX_HISTORY: nat := 100

  /** The history after recording `line` into `h`. */
  function Record(h: seq<string>, line: string): (r: seq<string>)
    requires |h| <= MAX_HISTORY
    ensures |r| == if |h| < MAX_HISTORY then |h| + 1 else MAX_HISTORY
    ensures r[|r| - 1] == line
    ensures |h| < MAX_HISTORY ==> r[..|h|] == h
    ensures |h| == MAX_HISTORY ==> forall k :: 0 <= k < MAX_HISTORY - 1 ==> r[k] == h[k + 1]
  {
    if |h| < MAX_HISTORY then h + [line] else h[1..] + [line]
  }

  /** The last `n` elements of `s`, or all of `s` when it is shorter. */
  function Newest(s: seq<string>, n: nat): seq<string>
  {
    if |s| <= n then s else s[|s| - n..]
  }

  /** Recording the lines one by one, oldest first. */
  function RecordAll(h: seq<string>, lines: seq<string>): (r: seq<string>)
    requires |h| <= MAX_HISTORY
    ensures |r| <= MAX_HISTORY
    decreases |lines|
  {
    if lines == [] then h else RecordAll(Record(h, lines[0]), lines[1..])
  }

  lemma NewestOfNewest(a: seq<string>, b: seq<string>, n: nat)
    ensures Newest(Newest(a, n) + b, n) == Newest(a + b, n)
  {
    if |a| > n {
      var x := Newest(a, n) + b;
      assert |x| == n + |b|;
      assert forall k :: 0 <= k < |Newest(a + b, n)| ==> Newest(x, n)[k] == Newest(a + b, n)[k];
    }
  }

  /**
   * However many lines are recorded, the log holds exactly the newest
   * `MAX_HISTORY` of everything seen, oldest first.
   */
  lemma {:induction false} RecordAllKeepsNewest(h: seq<string>, lines: seq<string>)
    requires |h| <= MAX_HISTORY
    ensures RecordAll(h, lines) == Newest(h + lines, MAX_HISTORY)
    decreases |lines|
  {
    if lines == [] {
      assert h + lines == h;
    } else {
      var h' := Record(h, lines[0]);
      assert h' == Newest(h + [lines[0]], MAX_HISTORY);
      RecordAllKeepsNewest(h', lines[1..]);
      NewestOfNewest(h + [lines[0]], lines[1..], MAX_HISTORY);
      assert (h + [lines[0]]) + lines[1..] == h + lines;
    }
  }

  /** Up to capacity, recording keeps every line, in insertion order. */
  lemma RecordAllInOrder(h: seq<string>, lines: seq<string>)
    requires |h| + |lines| <= MAX_HISTORY
    ensures RecordAll(h, lines) == h + lines
  {
    RecordAllKeepsNewest(h, lines);
  }

  /**
   * One line past capacity: the length stays at capacity and the oldest
   * line is gone.
   */
  lemma RecordPastCapacity(lines: seq<string>)
    requires |lines| == MAX_HISTORY + 1
    ensures RecordAll([], lines) == lines[1..]
  {
    RecordAllKeepsNewest([], lines);
    assert [] + lines == lines;
  }
}
