/**
 * Clause rendering of net.frju.androidquery's ClauseHelper: the reference
 * rendering (children joined by the connective, wrapped in brackets), the
 * append-then-truncate compiler proved equal to it, and the lock-step
 * between placeholders and arguments.
 */
module ClauseHelper {
  import opened Text
  import opened Wrappers
  import opened Clauses

  /** Reference rendering of one clause. */
  function Render(c: Clause): string
    decreases c
  {
    match c
    case Where(column, op, _) => WhereText(column, op)
    case In(column, values) => InText(column, |values|)
    case And(cs) => "(" + JoinWith(RenderList(cs), " AND ") + ")"
    case Or(cs) => "(" + JoinWith(RenderList(cs), " OR ") + ")"
    case On(left, right) => OnText(left, right)
    case Unknown => ""
  }

  function RenderList(cs: seq<Clause>): seq<string>
    decreases cs
  {
    seq(|cs|, i requires 0 <= i < |cs| => Render(cs[i]))
  }

  /** A forest is its clauses concatenated without separator; null renders as "". */
  function RenderForest(forest: Option<seq<Clause>>): string
  {
    match forest
    case None => ""
    case Some(cs) => Flatten(RenderList(cs))
  }

  /** The clause as the engine sees it once its arguments are bound: each value in place of its `?`. */
  function Inline(c: Clause): string
    decreases c
  {
    match c
    case Where(column, op, value) => column + " " + op + " " + WhereArg(value)
    case In(column, values) => column + " IN (" + JoinWith(values, ",") + ")"
    case And(cs) => "(" + JoinWith(InlineList(cs), " AND ") + ")"
    case Or(cs) => "(" + JoinWith(InlineList(cs), " OR ") + ")"
    case On(left, right) => OnText(left, right)
    case Unknown => ""
  }

  function InlineList(cs: seq<Clause>): seq<string>
    decreases cs
  {
    seq(|cs|, i requires 0 <= i < |cs| => Inline(cs[i]))
  }

  function InlineForest(forest: Option<seq<Clause>>): string
  {
    match forest
    case None => ""
    case Some(cs) => Flatten(InlineList(cs))
  }

  /** What the group's StringBuilder holds before the truncation: `(` then every child followed by the separator. */
  function GroupBuffer(cs: seq<Clause>, sep: string): string
  {
    "(" + Terminated(RenderList(cs), sep)
  }

  /**
   * The truncation `delete(length() - |sep|, length())` stays in bounds exactly
   * when the group has a child: an empty And/Or leaves only "(" and throws.
   */
  lemma {:induction false} TruncationInBoundsIffNonEmpty(cs: seq<Clause>, sep: string)
    requires |sep| >= 2
    ensures |GroupBuffer(cs, sep)| >= |sep| <==> |cs| >= 1
    ensures |cs| == 0 ==> GroupBuffer(cs, sep) == "("
  {
    if |cs| >= 1 {
      TerminatedIsJoinedPlusSep(RenderList(cs), sep);
    }
  }

  /** getClause(Clause): leaves by their builders, And/Or by append-then-truncate. */
  method GetClauseItem(c: Clause) returns (s: string)
    requires WellFormed(c)
    ensures s == Render(c)
    decreases c, 1
  {
    match c {
      case In(column, values) =>
        s := BuildInCondition(column, |values|);
      case Where(column, op, _) =>
        s := WhereText(column, op);
      case On(left, right) =>
        s := OnText(left, right);
      case And(cs) =>
        s := GetGroup(cs, " AND ");
      case Or(cs) =>
        s := GetGroup(cs, " OR ");
      case Unknown =>
        s := "";
    }
  }

  /**
   * The And/Or loop: `(`, then each child followed by the separator, then the
   * last separator deleted (5 characters for ` AND `, 4 for ` OR `) and `)`.
   */
  method GetGroup(cs: seq<Clause>, sep: string) returns (s: string)
    requires |cs| >= 1 && AllWellFormed(cs)
    requires |sep| >= 2
    ensures s == "(" + JoinWith(RenderList(cs), sep) + ")"
    decreases cs, 0
  {
    ghost var items := RenderList(cs);
    s := "(";
    var i := 0;
    while i < |cs|
      invariant 0 <= i <= |cs|
      invariant s == "(" + Terminated(items[..i], sep)
    {
      var item := GetClauseItem(cs[i]);
      assert s + item + sep == "(" + Terminated(items[..i + 1], sep) by {
        assert items[..i + 1] == items[..i] + [item];
        TerminatedSnoc("(", items[..i], item, sep);
      }
      s := s + item + sep;
      i := i + 1;
    }
    assert items[..i] == items;
    TruncationInBoundsIffNonEmpty(cs, sep);
    assert DeleteFrom(s, |s| - |sep|) == "(" + JoinWith(items, sep) by {
      TerminatedIsJoinedPlusSep(items, sep);
      assert s == ("(" + JoinWith(items, sep)) + sep;
    }
    s := DeleteFrom(s, |s| - |sep|);
    s := s + ")";
  }

  /** getClause(Clause[]): every top-level clause rendered and concatenated; null gives "". */
  method GetClause(forest: Option<seq<Clause>>) returns (s: string)
    requires forest.Some? ==> AllWellFormed(forest.value)
    ensures s == RenderForest(forest)
  {
    s := "";
    if forest.Some? {
      var cs := forest.value;
      var i := 0;
      while i < |cs|
        invariant 0 <= i <= |cs|
        invariant s == Flatten(RenderList(cs)[..i])
      {
        var item := GetClauseItem(cs[i]);
        assert RenderList(cs)[..i + 1] == RenderList(cs)[..i] + [item];
        FlattenSnoc(RenderList(cs)[..i], item);
        s := s + item;
        i := i + 1;
      }
      assert RenderList(cs)[..|cs|] == RenderList(cs);
    }
  }

  /**
   * Lock-step: a clause holds as many placeholders as it has arguments, and
   * binding the arguments in order puts every value in its own place.
   */
  lemma {:induction false} LockStep(c: Clause)
    requires NoMarks(c)
    ensures Count(Render(c)) == |Args(c)|
    ensures Bind(Render(c), Args(c)) == Inline(c)
    decreases c, 1
  {
    match c {
      case Where(column, op, value) =>
        WhereLockStep(column, op, WhereArg(value));
      case In(column, values) =>
        InLockStep(column, values);
      case And(cs) =>
        LockStepList(cs, " AND ");
        BindWrap("(", JoinWith(RenderList(cs), " AND "), ")", Args(c));
      case Or(cs) =>
        LockStepList(cs, " OR ");
        BindWrap("(", JoinWith(RenderList(cs), " OR "), ")", Args(c));
      case On(left, right) =>
        OnLockStep(left, right);
      case Unknown =>
    }
  }

  /** A Where leaf: its one placeholder takes its one argument. */
  lemma WhereLockStep(column: string, op: string, arg: string)
    requires Count(column) == 0 && Count(op) == 0
    ensures Count(WhereText(column, op)) == 1
    ensures Bind(WhereText(column, op), [arg]) == column + " " + op + " " + arg
  {
    CountAppend(column, " ");
    CountAppend(column + " ", op);
    CountAppend(column + " " + op, " ");
    BindWrap(column + " " + op + " ", "?", "", [arg]);
    assert column + " " + op + " " + "?" + "" == WhereText(column, op);
  }

  /** An In leaf: its placeholders take the values, in order, comma separated. */
  lemma InLockStep(column: string, values: seq<string>)
    requires Count(column) == 0
    ensures Count(InText(column, |values|)) == |values|
    ensures Bind(InText(column, |values|), values) == column + " IN (" + JoinWith(values, ",") + ")"
  {
    Placeholders(values, ",");
    CountAppend(column, " IN (");
    BindWrap(column + " IN (", JoinWith(Repeat("?", |values|), ","), ")", values);
  }

  /** An On leaf has no placeholder and binds to itself. */
  lemma OnLockStep(left: string, right: string)
    requires Count(left) == 0 && Count(right) == 0
    ensures Count(OnText(left, right)) == 0
    ensures Bind(OnText(left, right), []) == OnText(left, right)
  {
    CountAppend("ON ", left);
    CountAppend("ON " + left, " = ");
    CountAppend("ON " + left + " = ", right);
    BindPlain(OnText(left, right));
  }

  /** Lock-step through a list of siblings joined by a separator without placeholders. */
  lemma {:induction false} LockStepList(cs: seq<Clause>, sep: string)
    requires forall i :: 0 <= i < |cs| ==> NoMarks(cs[i])
    requires Count(sep) == 0
    ensures Count(JoinWith(RenderList(cs), sep)) == |Flatten(ArgsList(cs))|
    ensures Bind(JoinWith(RenderList(cs), sep), Flatten(ArgsList(cs))) == JoinWith(InlineList(cs), sep)
    decreases cs, 0
  {
    forall i | 0 <= i < |cs|
      ensures Count(RenderList(cs)[i]) == |ArgsList(cs)[i]|
      ensures Bind(RenderList(cs)[i], ArgsList(cs)[i]) == InlineList(cs)[i]
    {
      LockStep(cs[i]);
    }
    BindJoin(RenderList(cs), ArgsList(cs), InlineList(cs), sep);
  }

  /** Lock-step for the forest that getClause and getClauseArgs both receive. */
  lemma ForestLockStep(forest: Option<seq<Clause>>)
    requires forest.Some? ==> forall i :: 0 <= i < |forest.value| ==> NoMarks(forest.value[i])
    ensures Count(RenderForest(forest)) == |ForestArgs(forest)|
    ensures Bind(RenderForest(forest), ForestArgs(forest)) == InlineForest(forest)
  {
    if forest.Some? {
      var cs := forest.value;
      LockStepList(cs, "");
      FlattenIsJoinWithoutSeparator(RenderList(cs));
      FlattenIsJoinWithoutSeparator(InlineList(cs));
    }
  }
}
