/**
 * External launch (`lsh_launch`) and the redirection rewriter
 * (`handle_redirection`): both turn an argument vector into the one string
 * handed to the host's `system()`.
 */
module Launcher {
  import opened Wrappers
  import opened Text
  import opened Tokenizer

  /** The token `>`: `strcmp(t, ">") == 0`. */
  predicate IsOutputOp(t: string)
  {
    |t| == 1 && t[0] == '>'
  }

  /** The token `<`. */
  predicate IsInputOp(t: string)
  {
    |t| == 1 && t[0] == '<'
  }

  /** Either redirection operator, as a whole token. */
  predicate IsRedirectOp(t: string)
  {
    IsOutputOp(t) || IsInputOp(t)
  }

  predicate HasRedirection(args: seq<string>)
  {
    exists i :: 0 <= i < |args| && IsRedirectOp(args[i])
  }

  /** The first operator at or after `i` that has a token after it. */
  function ClauseFrom(args: seq<string>, i: nat): (r: Option<nat>)
    requires i <= |args|
    ensures r.Some? ==>
      i <= r.value && r.value + 1 < |args| && IsRedirectOp(args[r.value]) &&
      forall q :: i <= q < r.value ==> !IsRedirectOp(args[q])
    ensures r.None? ==> forall q :: i <= q < |args| - 1 ==> !IsRedirectOp(args[q])
    decreases |args| - i
  {
    if i + 1 >= |args| then None
    else if IsRedirectOp(args[i]) then Some(i)
    else ClauseFrom(args, i + 1)
  }

  /** The position of the one redirection clause that is honoured, if any. */
  function FirstClause(args: seq<string>): Option<nat>
  {
    ClauseFrom(args, 0)
  }

  /** The tokens that are not redirection operators, in order. */
  function Operands(args: seq<string>): seq<string>
  {
    if args == [] then []
    else
      var last := args[|args| - 1];
      Operands(args[..|args| - 1]) + (if IsRedirectOp(last) then [] else [last])
  }

  /** One more token extends the operands by that token, unless it is an operator. */
  lemma OperandsSnoc(args: seq<string>, j: nat)
    requires j < |args|
    ensures Operands(args[..j + 1]) == Operands(args[..j]) + (if IsRedirectOp(args[j]) then [] else [args[j]])
  {
    assert args[..j + 1][..j] == args[..j];
  }

  lemma {:induction false} OperandsOfPlain(args: seq<string>)
    requires forall q :: 0 <= q < |args| ==> !IsRedirectOp(args[q])
    ensures Operands(args) == args
    decreases |args|
  {
    if args != [] {
      OperandsOfPlain(args[..|args| - 1]);
    }
  }

  /**
   * The command `handle_redirection` runs: the operands before the first
   * operator that has a following token, then one clause ` > file` or
   * ` < file` for that operator. With no such operator, the operands alone.
   */
  function RedirectedCommand(args: seq<string>): (r: string)
    ensures FirstClause(args).Some? ==>
      var target := args[FirstClause(args).value + 1];
      |target| <= |r| && r[|r| - |target|..] == target
  {
    match FirstClause(args)
    case Some(p) => Join(args[..p]) + (if IsOutputOp(args[p]) then " > " else " < ") + args[p + 1]
    case None => Join(Operands(args))
  }

  /** The command `lsh_launch` runs for an argument vector. */
  function LaunchCommand(args: seq<string>): string
  {
    if HasRedirection(args) then RedirectedCommand(args) else Join(args)
  }

  /** The scan of `lsh_launch` for a token that is exactly `>` or `<`. */
  method FindRedirection(args: seq<string>) returns (found: bool)
    ensures found <==> HasRedirection(args)
  {
    found := false;
    var i := 0;
    while i < |args|
      invariant i <= |args|
      invariant forall q :: 0 <= q < i ==> !IsRedirectOp(args[q])
    {
      if IsOutputOp(args[i]) || IsInputOp(args[i]) {
        found := true;
        return;
      }
      i := i + 1;
    }
  }

  /** The `strcat` loop of `lsh_launch`: each token, then a space if another follows. */
  method JoinWords(args: seq<string>) returns (command: string)
    ensures command == Join(args)
  {
    command := "";
    var i := 0;
    while i < |args|
      invariant i <= |args|
      invariant command == Join(args[..i]) + (if 0 < i < |args| then " " else "")
    {
      JoinSnoc(args[..i], args[i]);
      assert args[..i + 1] == args[..i] + [args[i]];
      command := command + args[i];
      if i + 1 < |args| {
        command := command + " ";
      }
      i := i + 1;
    }
    assert args[..i] == args;
  }

  /** The step of that loop that appends an operand, seen through `Join`. */
  lemma AppendOperand(args: seq<string>, j: nat)
    requires j < |args| && !IsRedirectOp(args[j])
    requires forall q :: 0 <= q < j ==> !IsRedirectOp(args[q])
    ensures Join(Operands(args[..j + 1])) ==
      Join(Operands(args[..j])) + (if j > 0 then " " else "") + args[j]
  {
    OperandsSnoc(args, j);
    OperandsOfPlain(args[..j]);
    JoinSnoc(args[..j], args[j]);
  }

  lemma {:induction false} ClauseFromAt(args: seq<string>, i: nat, j: nat)
    requires i <= j && j + 1 < |args| && IsRedirectOp(args[j])
    requires forall q :: i <= q < j ==> !IsRedirectOp(args[q])
    ensures ClauseFrom(args, i) == Some(j)
    decreases j - i
  {
    if i < j {
      ClauseFromAt(args, i + 1, j);
    }
  }

  /** Where the loop breaks, the honoured clause sits. */
  lemma ClauseAt(args: seq<string>, j: nat)
    requires j + 1 < |args| && IsRedirectOp(args[j])
    requires forall q :: 0 <= q < j ==> !IsRedirectOp(args[q])
    ensures Join(Operands(args[..j])) == Join(args[..j])
    ensures RedirectedCommand(args) ==
      Join(args[..j]) + (if IsOutputOp(args[j]) then " > " else " < ") + args[j + 1]
  {
    OperandsOfPlain(args[..j]);
    ClauseFromAt(args, 0, j);
  }

  /** A loop that runs to the end has found no clause. */
  lemma NoClause(args: seq<string>)
    requires forall q :: 0 <= q < |args| && q + 1 < |args| ==> !IsRedirectOp(args[q])
    ensures RedirectedCommand(args) == Join(Operands(args))
  {
    assert FirstClause(args).None?;
  }

  /**
   * The loop of `handle_redirection`: accumulate the non-operator tokens,
   * stop at the first operator that has a following token, then append that
   * one clause.
   */
  method BuildRedirectedCommand(args: seq<string>) returns (full: string)
    ensures full == RedirectedCommand(args)
  {
    var outputFile: Option<string> := None;
    var inputFile: Option<string> := None;
    var command := "";
    var j := 0;
    while j < |args|
      invariant j <= |args|
      invariant outputFile.None? && inputFile.None?
      invariant forall q :: 0 <= q < j && q + 1 < |args| ==> !IsRedirectOp(args[q])
      invariant command == Join(Operands(args[..j]))
    {
      OperandsSnoc(args, j);
      if IsOutputOp(args[j]) {
        if j + 1 < |args| {
          outputFile := Some(args[j + 1]);
          break;
        }
        assert Operands(args[..j + 1]) == Operands(args[..j]);
      } else if IsInputOp(args[j]) {
        if j + 1 < |args| {
          inputFile := Some(args[j + 1]);
          break;
        }
        assert Operands(args[..j + 1]) == Operands(args[..j]);
      } else {
        AppendOperand(args, j);
        if j > 0 {
          command := command + " ";
        }
        command := command + args[j];
      }
      j := j + 1;
    }
    assert outputFile.Some? ==>
      j + 1 < |args| && IsOutputOp(args[j]) && outputFile.value == args[j + 1] && inputFile.None?;
    assert inputFile.Some? ==>
      j + 1 < |args| && IsInputOp(args[j]) && inputFile.value == args[j + 1] && outputFile.None?;
    assert outputFile.None? && inputFile.None? ==> j == |args|;
    if j < |args| {
      ClauseAt(args, j);
    } else {
      assert args[..j] == args;
      NoClause(args);
    }
    full := command;
    if outputFile.Some? {
      full := full + " > " + outputFile.value;
    }
    if inputFile.Some? {
      full := full + " < " + inputFile.value;
    }
  }

  /** The rewriting of `sort > out.txt`. */
  lemma RedirectionExample()
    ensures LaunchCommand(["sort", ">", "out.txt"]) == "sort > out.txt"
  {
    assert HasRedirection(["sort", ">", "out.txt"]) by {
      assert IsRedirectOp(["sort", ">", "out.txt"][1]);
    }
    assert FirstClause(["sort", ">", "out.txt"]) == Some(1);
    assert ["sort", ">", "out.txt"][..1] == ["sort"];
  }

  /**
   * At most one clause: once an operator with its target is found, nothing
   * after the target is looked at, so a second operator is silently lost.
   */
  lemma LaterTokensIgnored(args: seq<string>, rest: seq<string>)
    requires FirstClause(args).Some? && FirstClause(args).value + 2 == |args|
    ensures FirstClause(args + rest) == FirstClause(args)
    ensures RedirectedCommand(args + rest) == RedirectedCommand(args)
  {
    var p := FirstClause(args).value;
    var r := FirstClause(args + rest);
    assert (args + rest)[p] == args[p];
    assert r.Some?;
    assert r.value == p;
    assert (args + rest)[..p] == args[..p];
  }

  /** An operator with nothing after it is dropped from the command. */
  lemma DanglingOperatorDropped(args: seq<string>, op: string)
    requires forall q :: 0 <= q < |args| ==> !IsRedirectOp(args[q])
    requires IsRedirectOp(op)
    ensures LaunchCommand(args + [op]) == Join(args)
  {
    var s := args + [op];
    assert IsRedirectOp(s[|args|]);
    assert HasRedirection(s);
    assert forall q :: 0 <= q < |args| ==> s[q] == args[q];
    assert FirstClause(s).None?;
    assert s[..|s| - 1] == args;
    assert Operands(s) == Operands(args);
    OperandsOfPlain(args);
  }

  /**
   * Without an operator, the host receives the tokens joined by single
   * spaces, and splitting that string again gives back the same tokens.
   */
  lemma PlainLaunchRoundTrip(args: seq<string>)
    requires forall i :: 0 <= i < |args| ==> IsWord(args[i])
    requires !HasRedirection(args)
    ensures LaunchCommand(args) == Join(args)
    ensures Tokens(LaunchCommand(args)) == args
  {
    TokensOfJoin(args);
  }
}
