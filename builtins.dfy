/**
 * The builtin registry (`builtin_str` / `builtin_func`) and the argument
 * handling of the `color` builtin (`atoi` followed by the switch over 1..7).
 */
module Builtins {
  import opened Wrappers

  /** The handlers of `builtin_func`, one per entry of `BUILTIN_NAMES`. */
  datatype Builtin = Cd | Help | Exit | ShowHistory | Clear | Color | AliasBuiltin

  const BUILTIN_NAMES: seq<string> := ["cd", "help", "exit", "history", "clear", "color", "alias"]
  const BUILTIN_HANDLERS: seq<Builtin> := [Cd, Help, Exit, ShowHistory, Clear, Color, AliasBuiltin]

  /** The first index at or after `i` whose name is `name`. */
  function IndexFrom(name: string, i: nat): (r: Option<nat>)
    requires i <= |BUILTIN_NAMES|
    ensures r.Some? ==>
      i <= r.value < |BUILTIN_NAMES| && BUILTIN_NAMES[r.value] == name &&
      forall j :: i <= j < r.value ==> BUILTIN_NAMES[j] != name
    ensures r.None? ==> forall j :: i <= j < |BUILTIN_NAMES| ==> BUILTIN_NAMES[j] != name
    decreases |BUILTIN_NAMES| - i
  {
    if i == |BUILTIN_NAMES| then None
    else if BUILTIN_NAMES[i] == name then Some(i)
    else IndexFrom(name, i + 1)
  }

  /** The handler of the first registry entry named exactly `name`. */
  function FindBuiltin(name: string): (r: Option<Builtin>)
    ensures r == Some(Exit) <==> name == "exit"
  {
    match IndexFrom(name, 0)
    case Some(i) => Some(BUILTIN_HANDLERS[i])
    case None => None
  }

  /**
   * A name is a builtin exactly when it is one of the seven registered
   * names, and each name selects the handler registered beside it.
   */
  lemma FindBuiltinMatchesRegistry(name: string)
    ensures FindBuiltin(name).Some? <==> name in BUILTIN_NAMES
    ensures forall i :: 0 <= i < |BUILTIN_NAMES| && BUILTIN_NAMES[i] == name ==>
      FindBuiltin(name) == Some(BUILTIN_HANDLERS[i])
  {
    var r := IndexFrom(name, 0);
    if r.Some? {
      forall i | 0 <= i < |BUILTIN_NAMES| && BUILTIN_NAMES[i] == name
        ensures FindBuiltin(name) == Some(BUILTIN_HANDLERS[i])
      {
        assert i == r.value;
      }
    }
  }

  /** A console text attribute: the colour bits of `SetConsoleTextAttribute`. */
  datatype Attribute = Attribute(blue: bool, green: bool, red: bool, intensity: bool)

  /** The default attribute: red, green and blue without intensity. */
  const WHITE: Attribute := Attribute(true, true, true, false)

  /**
   * The colour switch of the `color` builtin. Codes 1 to 6 name the bright
   * colours whose binary digits are, from the lowest, blue, green and red;
   * 7 is plain white; every other code is rejected.
   */
  function ColorAttribute(code: int): (r: Option<Attribute>)
    ensures r.Some? <==> 1 <= code <= 7
    ensures 1 <= code <= 6 ==>
      r == Some(Attribute(code % 2 == 1, code / 2 % 2 == 1, code / 4 % 2 == 1, true))
    ensures code == 7 ==> r == Some(WHITE)
  {
    match code
    case 1 => Some(Attribute(true, false, false, true))
    case 2 => Some(Attribute(false, true, false, true))
    case 3 => Some(Attribute(true, true, false, true))
    case 4 => Some(Attribute(false, false, true, true))
    case 5 => Some(Attribute(true, false, true, true))
    case 6 => Some(Attribute(false, true, true, true))
    case 7 => Some(WHITE)
    case _ => None
  }

  /** The white-space characters of C's `isspace`. */
  predicate IsCSpace(c: char)
  {
    c == ' ' || ('\t' <= c <= '\r')
  }

  predicate IsDigit(c: char)
  {
    '0' <= c <= '9'
  }

  /** `acc` extended by the leading decimal digits of `s`. */
  function DigitsValue(s: string, acc: int): int
  {
    if s != [] && IsDigit(s[0]) then DigitsValue(s[1..], acc * 10 + (s[0] as int - '0' as int))
    else acc
  }

  /**
   * C's `atoi`: optional white space, an optional sign, then the longest run
   * of decimal digits; text that does not start that way yields 0.
   */
  function Atoi(s: string): (n: int)
    ensures s == [] || !(IsCSpace(s[0]) || IsDigit(s[0]) || s[0] == '+' || s[0] == '-') ==> n == 0
  {
    if s != [] && IsCSpace(s[0]) then Atoi(s[1..])
    else if s != [] && s[0] == '-' then -DigitsValue(s[1..], 0)
    else if s != [] && s[0] == '+' then DigitsValue(s[1..], 0)
    else DigitsValue(s, 0)
  }

  /** What `color` does with its arguments. */
  datatype ColorOutcome = ColorUsage | InvalidColor | ColorSet(attribute: Attribute)

  /** `color` with no argument prints usage; otherwise the argument is read by `atoi`. */
  function ColorCommand(args: seq<string>): (r: ColorOutcome)
    ensures r == ColorUsage <==> |args| < 2
    ensures r.ColorSet? <==> |args| >= 2 && 1 <= Atoi(args[1]) <= 7
  {
    if |args| < 2 then ColorUsage
    else match ColorAttribute(Atoi(args[1]))
      case Some(a) => ColorSet(a)
      case None => InvalidColor
  }

  /**
   * A single digit from 1 to 7 sets that colour; any argument that does not
   * start like a number reads as 0 and is rejected.
   */
  lemma ColorArgument(arg: string)
    ensures |arg| == 1 && '1' <= arg[0] <= '7' ==>
      ColorCommand(["color", arg]) == ColorSet(ColorAttribute(arg[0] as int - '0' as int).value)
    ensures arg == [] || !(IsCSpace(arg[0]) || IsDigit(arg[0]) || arg[0] == '+' || arg[0] == '-') ==>
      ColorCommand(["color", arg]) == InvalidColor
  {
    if |arg| == 1 && '1' <= arg[0] <= '7' {
      assert arg[1..] == [];
      assert Atoi(arg) == DigitsValue(arg, 0) == arg[0] as int - '0' as int;
    }
  }
}
