/**
 * The alias table: at most `MAX_ALIASES` (name, command) entries in insertion
 * order. Lookup (`expand_alias`) returns the command of the first entry with
 * that exact name; defining (`lsh_alias`) appends, and is refused once the
 * table is full. Names are not required to be unique.
 */
module Aliases {
  import opened Wrappers
  import opened Text

  const MAX_ALIASES: nat := 50

  datatype Alias = Alias(name: string, command: string)

  /** The two entries the shell starts with. */
  const DEFAULT_ALIASES: seq<Alias> := [Alias("ll", "dir"), Alias("ls", "dir")]

  /** The command of the first entry named `name`, if there is one. */
  function Lookup(table: seq<Alias>, name: string): (r: Option<string>)
    ensures r.Some? ==> Alias(name, r.value) in table
  {
    if table == [] then None
    else if table[0].name == name then Some(table[0].command)
    else Lookup(table[1..], name)
  }

  /** `expand_alias`: the command of the first match, or `name` itself. */
  function Expand(table: seq<Alias>, name: string): (r: string)
    ensures r != name ==> Alias(name, r) in table
  {
    match Lookup(table, name)
    case Some(command) => command
    case None => name
  }

  /**
   * Lookup finds an entry exactly when some entry has that name, and what it
   * finds is the command of the earliest such entry.
   */
  lemma {:induction false} LookupIsFirstMatch(table: seq<Alias>, name: string)
    ensures Lookup(table, name).None? <==> forall i :: 0 <= i < |table| ==> table[i].name != name
    ensures Lookup(table, name).Some? ==>
      exists i :: 0 <= i < |table| && table[i].name == name &&
        Lookup(table, name).value == table[i].command &&
        forall j :: 0 <= j < i ==> table[j].name != name
    decreases |table|
  {
    if table != [] && table[0].name != name {
      LookupIsFirstMatch(table[1..], name);
      assert forall i :: 1 <= i < |table| ==> table[1..][i - 1] == table[i];
      if Lookup(table[1..], name).Some? {
        var i :| 0 <= i < |table[1..]| && table[1..][i].name == name &&
          Lookup(table[1..], name).value == table[1..][i].command &&
          forall j :: 0 <= j < i ==> table[1..][j].name != name;
        assert table[i + 1].name == name;
        assert forall j :: 1 <= j < i + 1 ==> table[j].name != name;
      }
    } else if table != [] {
      assert table[0].name == name;
    }
  }

  /** Entries added after the first entry named `name` do not change its lookup. */
  lemma {:induction false} LookupIgnoresLaterEntries(table: seq<Alias>, more: seq<Alias>, name: string)
    requires Lookup(table, name).Some?
    ensures Lookup(table + more, name) == Lookup(table, name)
    decreases |table|
  {
    if table[0].name != name {
      assert (table + more)[1..] == table[1..] + more;
      LookupIgnoresLaterEntries(table[1..], more, name);
    }
  }

  /** Later entries are consulted only when no earlier entry has the name. */
  lemma {:induction false} LookupFallsThrough(table: seq<Alias>, more: seq<Alias>, name: string)
    requires Lookup(table, name).None?
    ensures Lookup(table + more, name) == Lookup(more, name)
    decreases |table|
  {
    if table == [] {
      assert table + more == more;
    } else {
      assert (table + more)[1..] == table[1..] + more;
      LookupFallsThrough(table[1..], more, name);
    }
  }

  /** What an `alias` invocation asks for, decided by its arguments. */
  datatype Request = List | Usage | Create(entry: Alias)

  /**
   * `alias` alone lists; `alias x` (one argument, even `x=y`) prints usage;
   * otherwise a `name=command` first argument is split at its first `=` and
   * the second argument ignored, and any other first argument is the name
   * with the second argument as the command.
   */
  function ParseAlias(args: seq<string>): (r: Request)
    ensures r == List <==> |args| < 2
    ensures r.Create? <==> |args| >= 3
    ensures r.Create? ==> '=' !in r.entry.name
    ensures r.Create? && '=' in args[1] ==> r.entry.name + "=" + r.entry.command == args[1]
    ensures r.Create? && '=' !in args[1] ==> r.entry == Alias(args[1], args[2])
  {
    if |args| < 2 then List
    else if |args| < 3 then Usage
    else match FirstIndex(args[1], '=')
      case Some(eq) => Create(Alias(args[1][..eq], args[1][eq + 1..]))
      case None => Create(Alias(args[1], args[2]))
  }

  /** The table after an `alias` invocation: one entry appended, if there is room. */
  function Define(table: seq<Alias>, args: seq<string>): (r: seq<Alias>)
    requires |table| <= MAX_ALIASES
    ensures |r| <= MAX_ALIASES
    ensures table <= r && |r| <= |table| + 1
    ensures |r| == |table| + 1 <==> ParseAlias(args).Create? && |table| < MAX_ALIASES
    ensures |r| == |table| + 1 ==> r[|table|] == ParseAlias(args).entry
  {
    match ParseAlias(args)
    case Create(entry) => if |table| < MAX_ALIASES then table + [entry] else table
    case _ => table
  }

  /**
   * `alias name=command x` splits exactly as `alias name command` does when
   * the name holds no `=`; the trailing argument of the first form is ignored.
   */
  lemma EqualsFormMatchesTwoTokenForm(name: string, command: string, ignored: string)
    requires '=' !in name
    ensures ParseAlias(["alias", name + "=" + command, ignored]) == ParseAlias(["alias", name, command])
    ensures ParseAlias(["alias", name, command]) == Create(Alias(name, command))
  {
    var t := name + "=" + command;
    assert t[..|name|] == name && t[|name|] == '=';
    assert FirstIndex(t, '=') == Some(|name|);
    assert t[|name| + 1..] == command;
  }

  /** With only one argument, even in `name=command` form, nothing is defined. */
  lemma OneArgumentIsUsage(arg: string, table: seq<Alias>)
    requires |table| <= MAX_ALIASES
    ensures ParseAlias(["alias", arg]) == Usage
    ensures Define(table, ["alias", arg]) == table && Define(table, ["alias"]) == table
  {
  }

  /**
   * Defining a fresh name while there is room makes it resolve to its
   * command; a name that already resolves keeps resolving to its first
   * command, so redefining an alias has no effect on lookup.
   */
  lemma DefineThenLookup(table: seq<Alias>, args: seq<string>)
    requires |table| <= MAX_ALIASES
    requires ParseAlias(args).Create?
    ensures var e := ParseAlias(args).entry;
      Lookup(Define(table, args), e.name) ==
        if Lookup(table, e.name).Some? then Lookup(table, e.name)
        else if |table| < MAX_ALIASES then Some(e.command)
        else None
  {
    var e := ParseAlias(args).entry;
    if |table| < MAX_ALIASES {
      if Lookup(table, e.name).Some? {
        LookupIgnoresLaterEntries(table, [e], e.name);
      } else {
        LookupFallsThrough(table, [e], e.name);
      }
    }
  }
}
