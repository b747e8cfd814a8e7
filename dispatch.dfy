/**
 * The dispatcher `lsh_execute` and one pass of the read loop `lsh_loop`, as
 * functions of the shell's state. Re-dispatch (for `!!` and for an alias) is
 * bounded by `fuel`, the number of rewrites allowed; when it runs out the
 * outcome is `Exhausted` instead of the unbounded recursion of the shell.
 */
module Dispatch {
  import opened Wrappers
  import opened Text
  import opened Tokenizer
  import opened History
  import opened Aliases
  import opened Builtins
  import opened Host
  import opened Launcher
  import opened Pipeline

  /** The process-wide tables and the log of host effects so far. */
  datatype State = State(
    history: seq<string>,
    aliases: seq<Alias>,
    lastCommand: Option<string>,
    log: seq<Effect>)

  predicate Bounded(s: State)
  {
    |s.history| <= MAX_HISTORY && |s.aliases| <= MAX_ALIASES
  }

  /** The state `main` sets up: the screen cleared and the two default aliases. */
  const INITIAL: State := State([], DEFAULT_ALIASES, None, [System("cls")])

  /** A dispatch returns the loop's continuation code, or runs out of fuel. */
  datatype Status = Done(code: int) | Exhausted

  datatype Outcome = Outcome(state: State, status: Status)

  /**
   * The builtin handlers: each returns 1 except `exit`, which returns 0.
   * `cd` with a directory and `clear` reach the host; `color` sets an
   * attribute only for a valid code; `alias` updates the alias table.
   */
  function RunBuiltin(s: State, b: Builtin, args: seq<string>): (o: Outcome)
    requires Bounded(s)
    ensures Bounded(o.state)
    ensures o.status == if b == Exit then Done(0) else Done(1)
    ensures o.state.history == s.history && o.state.lastCommand == s.lastCommand
    ensures o.state.aliases == if b == AliasBuiltin then Define(s.aliases, args) else s.aliases
    ensures b == Help || b == Exit || b == ShowHistory || b == AliasBuiltin ==> o.state.log == s.log
    ensures b == Cd ==> o.state.log == s.log + if |args| >= 2 then [ChangeDir(args[1])] else []
    ensures b == Clear ==> o.state.log == s.log + [System("cls")]
    ensures b == Color ==>
      o.state.log == s.log + match ColorCommand(args)
        case ColorSet(a) => [SetTextAttribute(a)]
        case _ => []
  {
    match b
    case Cd =>
      if |args| < 2 then Outcome(s, Done(1))
      else Outcome(s.(log := s.log + [ChangeDir(args[1])]), Done(1))
    case Help => Outcome(s, Done(1))
    case Exit => Outcome(s, Done(0))
    case ShowHistory => Outcome(s, Done(1))
    case Clear => Outcome(s.(log := s.log + [System("cls")]), Done(1))
    case Color =>
      (match ColorCommand(args)
       case ColorSet(a) => Outcome(s.(log := s.log + [SetTextAttribute(a)]), Done(1))
       case _ => Outcome(s, Done(1)))
    case AliasBuiltin => Outcome(s.(aliases := Define(s.aliases, args)), Done(1))
  }

  /** The line rebuilt after an alias hit: the replacement, then the other arguments. */
  function ExpansionLine(replacement: string, args: seq<string>): string
    requires |args| >= 1
  {
    Join([replacement] + args[1..])
  }

  /** The loop of `lsh_execute` that copies the replacement and appends each further argument. */
  method BuildExpansionLine(replacement: string, args: seq<string>) returns (line: string)
    requires |args| >= 1
    ensures line == ExpansionLine(replacement, args)
  {
    line := replacement;
    var i := 1;
    while i < |args|
      invariant 1 <= i <= |args|
      invariant line == Join([replacement] + args[1..i])
    {
      JoinSnoc([replacement] + args[1..i], args[i]);
      assert [replacement] + args[1..i + 1] == ([replacement] + args[1..i]) + [args[i]];
      line := line + " " + args[i];
      i := i + 1;
    }
    assert args[1..i] == args[1..];
  }

  /**
   * The end of `lsh_execute`, once neither `!!` nor an alias applies: the
   * handler of the first builtin with that name, or else an external launch.
   */
  function RunCommand(s: State, args: seq<string>): (o: Outcome)
    requires Bounded(s) && |args| >= 1
    ensures Bounded(o.state)
    ensures o.state.history == s.history && o.state.lastCommand == s.lastCommand
    ensures s.log <= o.state.log && s.aliases <= o.state.aliases
    ensures o.status == if args[0] == "exit" then Done(0) else Done(1)
  {
    match FindBuiltin(args[0])
    case Some(b) => RunBuiltin(s, b, args)
    case None => Outcome(s.(log := s.log + [System(LaunchCommand(args))]), Done(1))
  }

  /**
   * `lsh_execute`: an empty vector continues; `!!` re-dispatches the last
   * command; an alias hit re-dispatches the rebuilt line; a builtin runs its
   * handler; anything else is launched on the host.
   */
  function Execute(s: State, args: seq<string>, fuel: nat): (o: Outcome)
    requires Bounded(s)
    ensures Bounded(o.state)
    ensures o.state.history == s.history && o.state.lastCommand == s.lastCommand
    ensures s.log <= o.state.log && s.aliases <= o.state.aliases
    ensures o.status == Done(0) || o.status == Done(1) || o.status == Exhausted
    decreases fuel
  {
    if |args| == 0 then Outcome(s, Done(1))
    else if args[0] == "!!" then
      match s.lastCommand
      case None => Outcome(s, Done(1))
      case Some(line) =>
        if fuel == 0 then Outcome(s, Exhausted) else Execute(s, Tokens(line), fuel - 1)
    else match Lookup(s.aliases, args[0])
      case Some(replacement) =>
        if fuel == 0 then Outcome(s, Exhausted)
        else Execute(s, Tokens(ExpansionLine(replacement, args)), fuel - 1)
      case None => RunCommand(s, args)
  }

  /** What one pass of the read loop did with its line. */
  datatype StepResult = Skipped | Piped | Dispatched(status: Status)

  datatype StepOutcome = StepOutcome(state: State, result: StepResult)

  /**
   * One pass of `lsh_loop` on a line already read: an empty line is skipped;
   * a line holding `|` goes to the pipeline composer, which cuts the line at
   * the `|` before it is recorded; any other line is recorded in the history
   * and as the last command, then tokenized and dispatched.
   */
  function Step(s: State, line: string, fuel: nat): (o: StepOutcome)
    requires Bounded(s)
    ensures Bounded(o.state)
  {
    if |line| == 0 then StepOutcome(s, Skipped)
    else match FirstIndex(line, '|')
      case Some(p) =>
        var recorded := line[..p];
        StepOutcome(
          State(Record(s.history, recorded), s.aliases, Some(recorded), s.log + PipelineEffects(line)),
          Piped)
      case None =>
        var s1 := s.(history := Record(s.history, line), lastCommand := Some(line));
        var o := Execute(s1, Tokens(line), fuel);
        StepOutcome(o.state, Dispatched(o.status))
  }

  /** An empty vector continues with 1 and changes nothing. */
  lemma EmptyVectorContinues(s: State, fuel: nat)
    requires Bounded(s)
    ensures Execute(s, [], fuel) == Outcome(s, Done(1))
  {
  }

  /** `!!` with no previous command reports it and continues, changing nothing. */
  lemma NoPreviousCommand(s: State, rest: seq<string>, fuel: nat)
    requires Bounded(s) && s.lastCommand.None?
    ensures Execute(s, ["!!"] + rest, fuel) == Outcome(s, Done(1))
  {
  }

  /** `!!` dispatches the tokens of the last command, whatever else was typed after it. */
  lemma ReplayDispatchesLastCommand(s: State, c: string, rest: seq<string>, fuel: nat)
    requires Bounded(s) && s.lastCommand == Some(c)
    ensures Execute(s, ["!!"] + rest, fuel + 1) == Execute(s, Tokens(c), fuel)
    ensures Execute(s, ["!!"] + rest, 0) == Outcome(s, Exhausted)
  {
  }

  /** The rebuilt line is the replacement, a space, and the remaining arguments joined. */
  lemma ExpansionLineShape(replacement: string, args: seq<string>)
    requires |args| >= 1
    ensures ExpansionLine(replacement, args) ==
      if |args| == 1 then replacement else replacement + " " + Join(args[1..])
    ensures IsWord(replacement) && (forall i :: 1 <= i < |args| ==> IsWord(args[i])) ==>
      Tokens(ExpansionLine(replacement, args)) == [replacement] + args[1..]
  {
    JoinCons(replacement, args[1..]);
    if IsWord(replacement) && (forall i :: 1 <= i < |args| ==> IsWord(args[i])) {
      TokensOfJoin([replacement] + args[1..]);
    }
  }

  /**
   * Aliases are consulted before builtins: a name with an alias is rewritten
   * even when it is also a builtin's name, so an alias shadows the builtin.
   */
  lemma AliasShadowsBuiltin(s: State, args: seq<string>, replacement: string, fuel: nat)
    requires Bounded(s) && |args| >= 1 && args[0] != "!!"
    requires Lookup(s.aliases, args[0]) == Some(replacement)
    ensures Execute(s, args, fuel + 1) == Execute(s, Tokens(ExpansionLine(replacement, args)), fuel)
    ensures Execute(s, args, 0) == Outcome(s, Exhausted)
  {
  }

  /**
   * A vector that is neither `!!` nor an alias returns 0 exactly when its
   * command is `exit`; otherwise it continues with 1, never running out of fuel.
   */
  lemma OnlyExitStops(s: State, args: seq<string>, fuel: nat)
    requires Bounded(s) && |args| >= 1 && args[0] != "!!"
    requires Lookup(s.aliases, args[0]).None?
    ensures Execute(s, args, fuel).status == if args[0] == "exit" then Done(0) else Done(1)
  {
    FindBuiltinMatchesRegistry(args[0]);
    if args[0] == "exit" {
      assert BUILTIN_NAMES[2] == "exit";
    }
  }

  /**
   * A command that is neither `!!`, an alias nor a builtin is launched once:
   * exactly one string reaches the host and nothing else changes.
   */
  lemma ExternalLaunch(s: State, args: seq<string>, fuel: nat)
    requires Bounded(s) && |args| >= 1 && args[0] != "!!"
    requires Lookup(s.aliases, args[0]).None? && args[0] !in BUILTIN_NAMES
    ensures Execute(s, args, fuel) == Outcome(s.(log := s.log + [System(LaunchCommand(args))]), Done(1))
  {
    FindBuiltinMatchesRegistry(args[0]);
  }

  /** Neither a builtin nor a launch reads the history. */
  lemma RunCommandIgnoresHistory(s: State, h: seq<string>, args: seq<string>)
    requires Bounded(s) && |h| <= MAX_HISTORY && |args| >= 1
    ensures RunCommand(s.(history := h), args) ==
      var o := RunCommand(s, args); Outcome(o.state.(history := h), o.status)
  {
    var t := s.(history := h);
    match FindBuiltin(args[0])
    case Some(b) =>
      assert RunCommand(t, args) == RunBuiltin(t, b, args);
    case None =>
  }

  /** Dispatch never reads the history: a different history changes only that field. */
  lemma {:induction false} ExecuteIgnoresHistory(s: State, h: seq<string>, args: seq<string>, fuel: nat)
    requires Bounded(s) && |h| <= MAX_HISTORY
    ensures Execute(s.(history := h), args, fuel) == 
      var o := Execute(s, args, fuel); Outcome(o.state.(history := h), o.status)
    decreases fuel
  {
    if |args| == 0 || fuel == 0 {
    } else if args[0] == "!!" {
      if s.lastCommand.Some? {
        ExecuteIgnoresHistory(s, h, Tokens(s.lastCommand.value), fuel - 1);
      }
    } else if Lookup(s.aliases, args[0]).Some? {
      ExecuteIgnoresHistory(s, h, Tokens(ExpansionLine(Lookup(s.aliases, args[0]).value, args)), fuel - 1);
    } else {
      RunCommandIgnoresHistory(s, h, args);
    }
  }

  /**
   * Fuel only bounds re-dispatch: a dispatch that finishes with some fuel
   * finishes the same way, with the same state, given more.
   */
  lemma {:induction false} ExecuteFuelMonotone(s: State, args: seq<string>, f: nat, g: nat)
    requires Bounded(s) && f <= g
    requires Execute(s, args, f).status != Exhausted
    ensures Execute(s, args, g) == Execute(s, args, f)
    decreases f
  {
    if |args| == 0 {
    } else if args[0] == "!!" {
      if s.lastCommand.Some? {
        var next := Tokens(s.lastCommand.value);
        assert Execute(s, args, f) == Execute(s, next, f - 1);
        ExecuteFuelMonotone(s, next, f - 1, g - 1);
        assert Execute(s, args, g) == Execute(s, next, g - 1);
      }
    } else if Lookup(s.aliases, args[0]).Some? {
      var next := Tokens(ExpansionLine(Lookup(s.aliases, args[0]).value, args));
      assert Execute(s, args, f) == Execute(s, next, f - 1);
      ExecuteFuelMonotone(s, next, f - 1, g - 1);
      assert Execute(s, args, g) == Execute(s, next, g - 1);
    } else {
      assert Execute(s, args, f) == RunCommand(s, args) == Execute(s, args, g);
    }
  }

  /** The empty line changes nothing. */
  lemma EmptyLineSkipped(s: State, fuel: nat)
    requires Bounded(s)
    ensures Step(s, "", fuel) == StepOutcome(s, Skipped)
  {
  }

  /**
   * A non-empty line without `|` is recorded in the history and becomes the
   * last command before it is dispatched, and dispatch leaves both alone.
   */
  lemma StepRecordsLine(s: State, line: string, fuel: nat)
    requires Bounded(s) && line != [] && '|' !in line
    ensures Step(s, line, fuel).state.history == Record(s.history, line)
    ensures Step(s, line, fuel).state.lastCommand == Some(line)
    ensures Step(s, line, fuel).result.Dispatched?
    ensures var s1 := s.(history := Record(s.history, line), lastCommand := Some(line));
      var o := Execute(s1, Tokens(line), fuel);
      Step(s, line, fuel) == StepOutcome(o.state, Dispatched(o.status))
  {
  }

  /**
   * A line holding `|` runs the pipeline, but what is recorded, in the
   * history and as the last command, is only the text before the first `|`.
   */
  lemma PipelineRecordsPrefix(s: State, line: string, fuel: nat)
    requires Bounded(s) && '|' in line
    ensures var p := FirstIndex(line, '|').value;
      Step(s, line, fuel) == StepOutcome(
        State(Record(s.history, line[..p]), s.aliases, Some(line[..p]), s.log + PipelineEffects(line)),
        Piped) &&
      line[..p] != line
  {
  }

  /**
   * `!!` can never replay an earlier command: the loop makes `!!` itself the
   * last command before dispatching it, so every replay finds `!!` again and
   * any bound on re-dispatch is used up.
   */
  lemma {:induction false} BangBangReplaysItself(s: State, fuel: nat)
    requires Bounded(s) && s.lastCommand == Some("!!")
    ensures Execute(s, ["!!"], fuel) == Outcome(s, Exhausted)
    decreases fuel
  {
    TokensOfWord("!!");
    if fuel > 0 {
      BangBangReplaysItself(s, fuel - 1);
    }
  }

  /** Typing `!!` exhausts any bound, whatever was typed before. */
  lemma StepBangBangExhausts(s: State, fuel: nat)
    requires Bounded(s)
    ensures Step(s, "!!", fuel).result == Dispatched(Exhausted)
    ensures Step(s, "!!", fuel).state ==
      s.(history := Record(s.history, "!!"), lastCommand := Some("!!"))
  {
    var s1 := s.(history := Record(s.history, "!!"), lastCommand := Some("!!"));
    TokensOfWord("!!");
    BangBangReplaysItself(s1, fuel);
  }

  /**
   * An alias whose replacement is its own name is rewritten again and again
   * (the shell compares pointers, not text), so any bound is used up.
   */
  lemma {:induction false} SelfAliasExhausts(s: State, name: string, fuel: nat)
    requires Bounded(s) && IsWord(name) && name != "!!"
    requires Lookup(s.aliases, name) == Some(name)
    ensures Execute(s, [name], fuel) == Outcome(s, Exhausted)
    decreases fuel
  {
    ExpansionLineShape(name, [name]);
    TokensOfWord(name);
    if fuel > 0 {
      SelfAliasExhausts(s, name, fuel - 1);
    }
  }

  /**
   * The read-loop pass as evidently intended: the whole line is recorded,
   * and a line that starts with `!!` leaves the last command as it was, so
   * that it replays the command typed before it.
   */
  function IntendedStep(s: State, line: string, fuel: nat): (o: StepOutcome)
    requires Bounded(s)
    ensures Bounded(o.state)
  {
    if |line| == 0 then StepOutcome(s, Skipped)
    else
      var tokens := Tokens(line);
      var last := if |tokens| > 0 && tokens[0] == "!!" then s.lastCommand else Some(line);
      var s1 := s.(history := Record(s.history, line), lastCommand := last);
      if '|' in line then StepOutcome(s1.(log := s1.log + PipelineEffects(line)), Piped)
      else
        var o := Execute(s1, tokens, fuel);
        StepOutcome(o.state, Dispatched(o.status))
  }

  /**
   * With the intended step, `!!` after a command `c` dispatches exactly as
   * typing `c` again does: same result, same effects, same aliases; only
   * the recorded history line differs.
   */
  lemma IntendedReplay(s: State, c: string, fuel: nat)
    requires Bounded(s) && s.lastCommand == Some(c)
    requires c != [] && '|' !in c
    ensures var replay := IntendedStep(s, "!!", fuel + 1);
      var typed := Step(s, c, fuel);
      replay.result == typed.result &&
      replay.state.log == typed.state.log &&
      replay.state.aliases == typed.state.aliases &&
      replay.state.lastCommand == Some(c) &&
      replay.state.history == Record(s.history, "!!")
  {
    TokensOfWord("!!");
    var s1 := s.(history := Record(s.history, "!!"));
    var s2 := s.(history := Record(s.history, c), lastCommand := Some(c));
    assert s2 == s1.(history := Record(s.history, c));
    ExecuteIgnoresHistory(s1, Record(s.history, c), Tokens(c), fuel);
  }

  /** With the intended step, a pipeline line is recorded whole. */
  lemma IntendedPipelineRecordsLine(s: State, line: string, fuel: nat)
    requires Bounded(s) && '|' in line
    requires Tokens(line) == [] || Tokens(line)[0] != "!!"
    ensures IntendedStep(s, line, fuel) == StepOutcome(
      State(Record(s.history, line), s.aliases, Some(line), s.log + PipelineEffects(line)),
      Piped)
  {
  }
}
