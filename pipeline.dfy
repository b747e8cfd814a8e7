/**
 * The pipeline composer `handle_pipeline`: a raw line holding `|` is split at
 * its first `|` into two stages, each stripped of leading spaces only; the
 * first runs with its output redirected to a fixed temporary file, the
 * second with its input redirected from it, and the file is then removed.
 */
module Pipeline {
  import opened Wrappers
  import opened Text
  import opened Host

  const TEMP_PIPE: string := "temp_pipe.txt"

  /** The two stages of a line, or nothing when the line holds no `|`. */
  function Stages(line: string): (r: Option<(string, string)>)
    ensures r.None? <==> '|' !in line
    ensures r.Some? ==> '|' !in r.value.0
  {
    match FirstIndex(line, '|')
    case None => None
    case Some(p) => Some((TrimLeadingSpaces(line[..p]), TrimLeadingSpaces(line[p + 1..])))
  }

  /** The host calls of one `handle_pipeline` invocation, in order. */
  function PipelineEffects(line: string): (r: seq<Effect>)
    ensures r == [] <==> '|' !in line
    ensures r != [] ==> |r| == 3 && r[2] == Remove(TEMP_PIPE)
  {
    match Stages(line)
    case None => []
    case Some((first, second)) =>
      [System(first + " > " + TEMP_PIPE), System(second + " < " + TEMP_PIPE), Remove(TEMP_PIPE)]
  }

  /**
   * Without `|` nothing runs. With one, exactly two commands run around the
   * temporary file and the file is removed last, whatever the stages do:
   * the first stage is the text before the first `|` and never holds a `|`;
   * the second is all the text after it, later `|` characters included.
   */
  lemma PipelineShape(line: string)
    ensures PipelineEffects(line) == [] <==> '|' !in line
    ensures '|' in line ==>
      var p := FirstIndex(line, '|').value;
      var first := TrimLeadingSpaces(line[..p]);
      var second := TrimLeadingSpaces(line[p + 1..]);
      '|' !in first &&
      PipelineEffects(line) ==
        [System(first + " > " + TEMP_PIPE), System(second + " < " + TEMP_PIPE), Remove(TEMP_PIPE)]
  {
    if '|' in line {
      var p := FirstIndex(line, '|').value;
      var first := TrimLeadingSpaces(line[..p]);
      assert '|' !in first by {
        var n := LeadingSpaces(line[..p]);
        assert forall k :: 0 <= k < |first| ==> first[k] == line[n + k];
      }
    }
  }

  /**
   * `a | b`, with one space on each side of the bar: the first stage keeps
   * the space before the bar, so two spaces precede its redirection.
   */
  lemma TwoStagePipeline(first: string, second: string)
    requires first != [] && first[0] != ' ' && '|' !in first
    requires second == [] || second[0] != ' '
    ensures PipelineEffects(first + " | " + second) ==
      [System(first + "  > " + TEMP_PIPE), System(second + " < " + TEMP_PIPE), Remove(TEMP_PIPE)]
  {
    TwoStageSplit(first, second);
    assert (first + " ") + " > " + TEMP_PIPE == first + "  > " + TEMP_PIPE;
  }

  lemma TwoStageSplit(first: string, second: string)
    requires first != [] && first[0] != ' ' && '|' !in first
    requires second == [] || second[0] != ' '
    ensures Stages(first + " | " + second) == Some((first + " ", second))
  {
    var line := first + " | " + second;
    var p := |first| + 1;
    assert line == (first + " |") + (" " + second);
    assert line[..p] == first + " ";
    FirstIndexAt(line, '|', p);
    assert line[p + 1..] == " " + second;
    assert (" " + second)[1..] == second;
  }

  /** The line `cat file.txt | sort`. */
  lemma PipelineExample()
    ensures PipelineEffects("cat file.txt | sort") ==
      [System("cat file.txt  > temp_pipe.txt"), System("sort < temp_pipe.txt"), Remove("temp_pipe.txt")]
  {
    assert "cat file.txt" + " | " + "sort" == "cat file.txt | sort";
    assert "cat file.txt" + "  > " + TEMP_PIPE == "cat file.txt  > temp_pipe.txt";
    assert "sort" + " < " + TEMP_PIPE == "sort < temp_pipe.txt";
    TwoStagePipeline("cat file.txt", "sort");
  }
}
