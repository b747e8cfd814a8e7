/**
 * The shell's process-wide state and the operations that update it in
 * place: the history array and its count, the alias array and its count,
 * the last command, and the log of host effects. Each method is proved to
 * do to `Model()` what the corresponding function of `Dispatch`, `History`
 * or `Aliases` says.
 */
module Session {
  import opened Wrappers
  import opened Text
  import opened Tokenizer
  import opened History
  import opened Aliases
  import opened Builtins
  import opened Host
  import opened Launcher
  import opened Pipeline
  import opened Dispatch

  class Shell {
    const history: array<string>
    var historyCount: nat
    const aliases: array<Alias>
    var aliasCount: nat
    var lastCommand: Option<string>
    /** Every string given to `system()` and every other host call, in order. */
    var executed: seq<Effect>

    ghost predicate Valid()
      reads this
    {
      history.Length == MAX_HISTORY && aliases.Length == MAX_ALIASES &&
      historyCount <= MAX_HISTORY && aliasCount <= MAX_ALIASES
    }

    /** The abstract state: the used parts of the two arrays, and the rest as is. */
    ghost function Model(): (s: State)
      reads this, history, aliases
      requires Valid()
      ensures Bounded(s)
    {
      State(history[..historyCount], aliases[..aliasCount], lastCommand, executed)
    }

    /** The set-up of `main`: the screen is cleared and the aliases `ll` and `ls` are defined. */
    constructor ()
      ensures Valid() && fresh(history) && fresh(aliases)
      ensures Model() == INITIAL
    {
      history := new string[MAX_HISTORY](_ => "");
      aliases := new Alias[MAX_ALIASES](_ => Alias("", ""));
      historyCount := 0;
      aliasCount := 0;
      lastCommand := None;
      executed := [System("cls")];
      new;
      aliases[0] := Alias("ll", "dir");
      aliases[1] := Alias("ls", "dir");
      aliasCount := 2;
      assert aliases[..aliasCount] == DEFAULT_ALIASES;
    }

    /**
     * `add_to_history`: store the line at `historyCount` while there is room;
     * when full, shift every entry down by one and store it in the last slot.
     */
    method AddToHistory(line: string)
      requires Valid()
      modifies this`historyCount, history
      ensures Valid()
      ensures Model() == old(Model()).(history := Record(old(Model().history), line))
      ensures old(historyCount) < MAX_HISTORY ==>
        historyCount == old(historyCount) + 1 && history[old(historyCount)] == line
      ensures old(historyCount) == MAX_HISTORY ==>
        historyCount == MAX_HISTORY && history[MAX_HISTORY - 1] == line &&
        forall k :: 0 <= k < MAX_HISTORY - 1 ==> history[k] == old(history[k + 1])
    {
      if historyCount < MAX_HISTORY {
        history[historyCount] := line;
        historyCount := historyCount + 1;
      } else {
        ghost var before := history[..];
        assert old(Model()).history == before;
        var i := 0;
        while i < MAX_HISTORY - 1
          modifies history
          invariant i <= MAX_HISTORY - 1
          invariant forall k :: 0 <= k < i ==> history[k] == before[k + 1]
          invariant forall k :: i <= k < MAX_HISTORY ==> history[k] == before[k]
        {
          history[i] := history[i + 1];
          i := i + 1;
        }
        history[MAX_HISTORY - 1] := line;
        assert history[..] == before[1..] + [line];
        assert history[..historyCount] == history[..];
      }
    }

    /**
     * `expand_alias`: scan the entries in insertion order and return the
     * command of the first whose name is `command`; `hit` says whether the
     * returned string is an entry's command rather than the argument itself.
     */
    method ExpandAlias(command: string) returns (expanded: string, hit: bool)
      requires Valid()
      ensures hit <==> Lookup(Model().aliases, command).Some?
      ensures expanded == Expand(Model().aliases, command)
    {
      var i := 0;
      while i < aliasCount
        invariant i <= aliasCount
        invariant Lookup(aliases[..aliasCount], command) == Lookup(aliases[i..aliasCount], command)
      {
        assert aliases[i..aliasCount][1..] == aliases[i + 1..aliasCount];
        if aliases[i].name == command {
          return aliases[i].command, true;
        }
        i := i + 1;
      }
      return command, false;
    }

    /**
     * `lsh_alias`: list, print usage, or define, appending only while there
     * is room; it always returns 1.
     */
    method DefineAlias(args: seq<string>) returns (status: int)
      requires Valid()
      modifies this`aliasCount, aliases
      ensures Valid()
      ensures status == 1
      ensures Model() == old(Model()).(aliases := Define(old(Model().aliases), args))
    {
      status := 1;
      if |args| < 2 {
        return;
      }
      if |args| < 3 {
        return;
      }
      var name := args[1];
      var command: string;
      var eq := FirstIndex(args[1], '=');
      if eq.Some? {
        name := args[1][..eq.value];
        command := args[1][eq.value + 1..];
      } else {
        command := args[2];
      }
      if aliasCount < MAX_ALIASES {
        aliases[aliasCount] := Alias(name, command);
        aliasCount := aliasCount + 1;
        assert aliases[..aliasCount] == old(aliases[..aliasCount]) + [Alias(name, command)];
      }
    }

    /** `handle_redirection`: build the rewritten command and hand it to the host once. */
    method HandleRedirection(args: seq<string>) returns (status: int)
      modifies this`executed
      ensures status == 1
      ensures executed == old(executed) + [System(RedirectedCommand(args))]
    {
      var full := BuildRedirectedCommand(args);
      executed := executed + [System(full)];
      status := 1;
    }

    /**
     * `lsh_launch`: with a `>` or `<` token, delegate to the redirection
     * rewriter; otherwise hand the tokens joined by spaces to the host once.
     */
    method Launch(args: seq<string>) returns (status: int)
      modifies this`executed
      ensures status == 1
      ensures executed == old(executed) + [System(LaunchCommand(args))]
    {
      var redirect := FindRedirection(args);
      if redirect {
        status := HandleRedirection(args);
        return;
      }
      var command := JoinWords(args);
      executed := executed + [System(command)];
      status := 1;
    }

    /**
     * `handle_pipeline`: 0 and no effect without `|`; otherwise run both
     * stages around the temporary file, remove it, and return 1.
     */
    method HandlePipeline(line: string) returns (handled: int)
      modifies this`executed
      ensures handled == if '|' in line then 1 else 0
      ensures executed == old(executed) + PipelineEffects(line)
    {
      var pipePos := FirstIndex(line, '|');
      if pipePos.None? {
        return 0;
      }
      var p := pipePos.value;
      var cmd1 := line[..p];
      var cmd2 := line[p + 1..];
      var skip1 := SkipSpaces(cmd1);
      var skip2 := SkipSpaces(cmd2);
      assert skip1 == LeadingSpaces(cmd1) && skip2 == LeadingSpaces(cmd2);
      cmd1 := cmd1[skip1..];
      cmd2 := cmd2[skip2..];
      executed := executed + [System(cmd1 + " > " + TEMP_PIPE)];
      executed := executed + [System(cmd2 + " < " + TEMP_PIPE)];
      executed := executed + [Remove(TEMP_PIPE)];
      handled := 1;
    }

    /** One entry of `builtin_func`, run on the argument vector. */
    method CallBuiltin(b: Builtin, args: seq<string>) returns (status: int)
      requires Valid()
      modifies this`executed, this`aliasCount, aliases
      ensures Valid()
      ensures Model() == Dispatch.RunBuiltin(old(Model()), b, args).state
      ensures Done(status) == Dispatch.RunBuiltin(old(Model()), b, args).status
    {
      status := 1;
      match b
      case Cd =>
        if |args| >= 2 {
          executed := executed + [ChangeDir(args[1])];
        }
      case Help =>
      case Exit =>
        status := 0;
      case ShowHistory =>
      case Clear =>
        executed := executed + [System("cls")];
      case Color =>
        var outcome := ColorCommand(args);
        if outcome.ColorSet? {
          executed := executed + [SetTextAttribute(outcome.attribute)];
        }
      case AliasBuiltin =>
        status := DefineAlias(args);
    }

    /**
     * `lsh_execute`, with `fuel` bounding the re-dispatches of `!!` and of
     * alias hits.
     */
    method Execute(args: seq<string>, fuel: nat) returns (status: Status)
      requires Valid()
      modifies this`executed, this`aliasCount, aliases
      ensures Valid()
      ensures Model() == Dispatch.Execute(old(Model()), args, fuel).state
      ensures status == Dispatch.Execute(old(Model()), args, fuel).status
      decreases fuel, 1
    {
      if |args| == 0 {
        return Done(1);
      }
      if args[0] == "!!" {
        status := Replay(args, fuel);
        return;
      }
      var expanded, hit := ExpandAlias(args[0]);
      if hit {
        status := Rewrite(expanded, args, fuel);
        return;
      }
      var code := RunCommand(args);
      status := Done(code);
    }

    /** The `!!` branch of `lsh_execute`: re-dispatch the tokens of the last command, if any. */
    method Replay(args: seq<string>, fuel: nat) returns (status: Status)
      requires Valid() && |args| >= 1 && args[0] == "!!"
      modifies this`executed, this`aliasCount, aliases
      ensures Valid()
      ensures Model() == Dispatch.Execute(old(Model()), args, fuel).state
      ensures status == Dispatch.Execute(old(Model()), args, fuel).status
      decreases fuel, 0
    {
      if lastCommand.None? {
        return Done(1);
      }
      if fuel == 0 {
        return Exhausted;
      }
      var newArgs := SplitLine(lastCommand.value);
      status := Execute(newArgs, fuel - 1);
    }

    /** The alias branch of `lsh_execute`: rebuild the line around the replacement and re-dispatch it. */
    method Rewrite(replacement: string, args: seq<string>, fuel: nat) returns (status: Status)
      requires Valid() && |args| >= 1 && args[0] != "!!"
      requires Lookup(Model().aliases, args[0]) == Some(replacement)
      modifies this`executed, this`aliasCount, aliases
      ensures Valid()
      ensures Model() == Dispatch.Execute(old(Model()), args, fuel).state
      ensures status == Dispatch.Execute(old(Model()), args, fuel).status
      decreases fuel, 0
    {
      if fuel == 0 {
        return Exhausted;
      }
      var line := BuildExpansionLine(replacement, args);
      var newArgs := SplitLine(line);
      status := Execute(newArgs, fuel - 1);
    }

    /** The builtin scan of `lsh_execute`, then the handler found or an external launch. */
    method RunCommand(args: seq<string>) returns (code: int)
      requires Valid() && |args| >= 1
      modifies this`executed, this`aliasCount, aliases
      ensures Valid()
      ensures Model() == Dispatch.RunCommand(old(Model()), args).state
      ensures Done(code) == Dispatch.RunCommand(old(Model()), args).status
    {
      var builtin := FindBuiltin(args[0]);
      if builtin.Some? {
        code := CallBuiltin(builtin.value, args);
        return;
      }
      code := Launch(args);
    }

    /** One pass of `lsh_loop` on a line already read. */
    method Step(line: string, fuel: nat) returns (result: StepResult)
      requires Valid()
      modifies this, history, aliases
      ensures Valid()
      ensures Model() == Dispatch.Step(old(Model()), line, fuel).state
      ensures result == Dispatch.Step(old(Model()), line, fuel).result
    {
      if |line| == 0 {
        return Skipped;
      }
      var pipePos := FirstIndex(line, '|');
      if pipePos.Some? {
        var _ := HandlePipeline(line);
        var recorded := line[..pipePos.value];
        AddToHistory(recorded);
        lastCommand := Some(recorded);
        return Piped;
      }
      AddToHistory(line);
      lastCommand := Some(line);
      var args := SplitLine(line);
      var status := Execute(args, fuel);
      result := Dispatched(status);
    }
  }
}
