/**
 * The filter-clause tree and the parts of clause compilation that the two
 * ClauseHelper versions (net.frju.androidquery and com.memtrip.sqlking) share
 * line for line: the leaf renderings and the argument list.
 */
module Clauses {
  import opened Text
  import opened Wrappers

  /**
   * A node of the filter tree. Values are held as their `String.valueOf`
   * text and operator tokens as the text of `Operator.toString()`.
   * `Unknown` stands for a null entry or any other Clause implementation,
   * which both compilers skip.
   */
  datatype Clause =
    | Where(column: string, op: string, value: string)
    | In(column: string, values: seq<string>)
    | And(children: seq<Clause>)
    | Or(children: seq<Clause>)
    | On(left: string, right: string)
    | Unknown

  /** Every And/Or group has at least one child (otherwise the trailing-separator truncation throws). */
  predicate WellFormed(c: Clause)
  {
    match c
    case And(cs) => |cs| >= 1 && forall i :: 0 <= i < |cs| ==> WellFormed(cs[i])
    case Or(cs) => |cs| >= 1 && forall i :: 0 <= i < |cs| ==> WellFormed(cs[i])
    case _ => true
  }

  predicate AllWellFormed(cs: seq<Clause>)
  {
    forall i :: 0 <= i < |cs| ==> WellFormed(cs[i])
  }

  /** No column name or operator token contains the placeholder character. */
  predicate NoMarks(c: Clause)
  {
    match c
    case Where(column, op, _) => Count(column) == 0 && Count(op) == 0
    case In(column, _) => Count(column) == 0
    case And(cs) => forall i :: 0 <= i < |cs| ==> NoMarks(cs[i])
    case Or(cs) => forall i :: 0 <= i < |cs| ==> NoMarks(cs[i])
    case On(left, right) => Count(left) == 0 && Count(right) == 0
    case Unknown => true
  }

  /** Text of a `Where` condition: column, operator token and one placeholder. */
  function WhereText(column: string, op: string): string
  {
    column + " " + op + " ?"
  }

  /** Text of an `In` condition: one placeholder per value, comma separated, in brackets. */
  function InText(column: string, n: nat): string
  {
    column + " IN (" + JoinWith(Repeat("?", n), ",") + ")"
  }

  /** Text of an `On` join condition; it holds no placeholder. */
  function OnText(left: string, right: string): string
  {
    "ON " + left + " = " + right
  }

  /** The bound argument of a `Where`: booleans become SQLite's 1 and 0, anything else is kept. */
  function WhereArg(value: string): (r: string)
    ensures r != "true" && r != "false"
    ensures r == value || (value == "true" && r == "1") || (value == "false" && r == "0")
  {
    if value == "true" then "1" else if value == "false" then "0" else value
  }

  /**
   * buildInCondition: appends `?,` once per value and deletes the last
   * character when there was at least one value.
   */
  method BuildInCondition(column: string, n: nat) returns (s: string)
    ensures s == InText(column, n)
    ensures n == 0 ==> s == column + " IN ()"
  {
    s := column + " " + "IN" + " " + "(";
    var prefix := s;
    if n > 0 {
      var i := 0;
      while i < n
        invariant 0 <= i <= n
        invariant s == prefix + Terminated(Repeat("?", i), ",")
      {
        assert Repeat("?", i + 1)[..i] == Repeat("?", i);
        s := s + "?" + ",";
        i := i + 1;
      }
      TerminatedIsJoinedPlusSep(Repeat("?", n), ",");
      s := DeleteFrom(s, |s| - 1);
    }
    s := s + ")";
  }

  /** The arguments one clause contributes, in placeholder order. */
  function Args(c: Clause): seq<string>
    decreases c
  {
    match c
    case Where(_, _, value) => [WhereArg(value)]
    case In(_, values) => values
    case And(cs) => Flatten(ArgsList(cs))
    case Or(cs) => Flatten(ArgsList(cs))
    case _ => []
  }

  function ArgsList(cs: seq<Clause>): (r: seq<seq<string>>)
    decreases cs
  {
    seq(|cs|, i requires 0 <= i < |cs| => Args(cs[i]))
  }

  /** The arguments of a forest: each clause's arguments in turn; a null forest has none. */
  function ForestArgs(forest: Option<seq<Clause>>): seq<string>
  {
    match forest
    case None => []
    case Some(cs) => Flatten(ArgsList(cs))
  }

  /** buildInArgs: one argument per value, in order. */
  method BuildInArgs(values: seq<string>) returns (args: seq<string>)
    ensures |args| == |values|
    ensures forall i :: 0 <= i < |values| ==> args[i] == values[i]
  {
    args := [];
    var i := 0;
    while i < |values|
      invariant 0 <= i <= |values|
      invariant args == values[..i]
    {
      args := args + [values[i]];
      i := i + 1;
    }
  }

  /** getClauseArgs(Clause): Where and In contribute arguments, And and Or recurse, the rest adds nothing. */
  method GetClauseArgsItem(c: Clause) returns (args: seq<string>)
    ensures args == Args(c)
    decreases c, 1
  {
    match c {
      case In(_, values) =>
        args := BuildInArgs(values);
      case Where(_, _, value) =>
        args := [WhereArg(value)];
      case And(cs) =>
        args := GetGroupArgs(cs);
      case Or(cs) =>
        args := GetGroupArgs(cs);
      case _ =>
        args := [];
    }
  }

  /** The loop over an And/Or group's children, appending each child's arguments. */
  method GetGroupArgs(cs: seq<Clause>) returns (args: seq<string>)
    ensures args == Flatten(ArgsList(cs))
    decreases cs, 0
  {
    args := [];
    var i := 0;
    while i < |cs|
      invariant 0 <= i <= |cs|
      invariant args == Flatten(ArgsList(cs)[..i])
    {
      var more := GetClauseArgsItem(cs[i]);
      assert ArgsList(cs)[..i + 1] == ArgsList(cs)[..i] + [more];
      FlattenSnoc(ArgsList(cs)[..i], more);
      args := args + more;
      i := i + 1;
    }
    assert ArgsList(cs)[..|cs|] == ArgsList(cs);
  }

  /** getClauseArgs(Clause[]): the arguments of every top-level clause, concatenated; null gives none. */
  method GetClauseArgs(forest: Option<seq<Clause>>) returns (args: seq<string>)
    ensures args == ForestArgs(forest)
  {
    args := [];
    if forest.Some? {
      args := GetGroupArgs(forest.value);
    }
  }
}
