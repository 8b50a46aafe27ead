/**
 * The join and statement part of net.frju.androidquery's ClauseHelper:
 * getJoinType, getJoinStatement, getJoinColumns and buildJoinQuery, over a
 * resolver that maps an entity to its real table name and its
 * table-prefixed column names.
 */
module JoinQuery {
  import opened Text
  import opened Wrappers
  import opened Clauses
  import opened Keywords
  import ClauseHelper

  /** The Join subclasses; `OtherKind` is any other subclass. */
  datatype JoinKind = Inner | CrossInner | LeftOuter | NaturalInner | NaturalLeftOuter | OtherKind

  /** One join step: kind, target entity, its ON clauses and the join chained after it. */
  datatype Join = Join(kind: JoinKind, table: string, clauses: Option<seq<Clause>>, next: Option<Join>)

  /** What the resolver tells about an entity. */
  datatype TableDescription = TableDescription(realName: string, prefixedColumns: seq<string>)

  /** Resolver.getTableDescription: entity id to table description, total and pure. */
  type Resolver = string -> TableDescription

  /** getJoinType: the keyword of each join kind; any other kind falls back to INNER JOIN. */
  function JoinType(kind: JoinKind): (r: string)
    ensures r == "INNER JOIN" <==> kind == Inner || kind == OtherKind
    ensures |r| >= 10 && r[|r| - 4..] == "JOIN"
  {
    match kind
    case Inner => "INNER JOIN"
    case CrossInner => "CROSS INNER JOIN"
    case LeftOuter => "LEFT OUTER JOIN"
    case NaturalInner => "NATURAL INNER JOIN"
    case NaturalLeftOuter => "NATURAL LEFT OUTER JOIN"
    case OtherKind => "INNER JOIN"
  }

  /** The five recognised kinds have five different keywords. */
  lemma JoinTypeDistinguishesKinds(a: JoinKind, b: JoinKind)
    requires a != OtherKind && b != OtherKind
    ensures JoinType(a) == JoinType(b) <==> a == b
  {
  }

  /** The joins of a chain, the head first, then the chained joins in order. */
  function Chain(j: Join): (r: seq<Join>)
    ensures |r| >= 1 && r[0] == j
    decreases j
  {
    [j] + (if j.next.Some? then Chain(j.next.value) else [])
  }

  function ChainLength(j: Join): nat
    decreases j
  {
    1 + (if j.next.Some? then ChainLength(j.next.value) else 0)
  }

  /** The longest chain among the joins. */
  function Height(joins: seq<Join>): nat
    decreases |joins|
  {
    if |joins| == 0 then 0
    else
      var h := Height(joins[..|joins| - 1]);
      var l := ChainLength(joins[|joins| - 1]);
      if h < l then l else h
  }

  lemma HeightOfOne(j: Join)
    ensures Height([j]) == ChainLength(j)
  {
    assert [j][..0] == [];
  }

  lemma {:induction false} HeightBound(joins: seq<Join>, i: nat)
    requires i < |joins|
    ensures ChainLength(joins[i]) <= Height(joins)
    decreases |joins|
  {
    if i < |joins| - 1 {
      HeightBound(joins[..|joins| - 1], i);
    }
  }

  /** Every ON clause list of the chain is well formed. */
  predicate ChainWellFormed(j: Join)
    decreases j
  {
    (j.clauses.Some? ==> AllWellFormed(j.clauses.value))
    && (j.next.Some? ==> ChainWellFormed(j.next.value))
  }

  predicate JoinsWellFormed(joins: seq<Join>)
  {
    forall i :: 0 <= i < |joins| ==> ChainWellFormed(joins[i])
  }

  /** The text of one join step: ` TYPE table clause`. */
  function Segment(j: Join, r: Resolver): string
  {
    " " + JoinType(j.kind) + " " + r(j.table).realName + " " + ClauseHelper.RenderForest(j.clauses)
  }

  /** The text of a join and, after a space, the text of the join chained to it. */
  function ChainText(j: Join, r: Resolver): string
    decreases j
  {
    if j.next.Some? then Segment(j, r) + " " + ChainText(j.next.value, r) else Segment(j, r)
  }

  function ChainTextOf(r: Resolver): Join -> string
  {
    (j: Join) => ChainText(j, r)
  }

  function ChainTexts(joins: seq<Join>, r: Resolver): seq<string>
  {
    MapSeq(joins, ChainTextOf(r))
  }

  /** getJoinStatement: the chains' texts one after the other. */
  function JoinText(joins: seq<Join>, r: Resolver): string
  {
    Flatten(ChainTexts(joins, r))
  }

  function SegmentOf(r: Resolver): Join -> string
  {
    (j: Join) => Segment(j, r)
  }

  function Segments(js: seq<Join>, r: Resolver): seq<string>
  {
    MapSeq(js, SegmentOf(r))
  }

  /** A chain's text is the segments of its joins, head first and depth first, separated by spaces. */
  lemma {:induction false} ChainTextIsJoinedSegments(j: Join, r: Resolver)
    ensures ChainText(j, r) == JoinWith(Segments(Chain(j), r), " ")
    decreases j
  {
    assert Segments([j], r) == [Segment(j, r)];
    if j.next.None? {
      assert Chain(j) == [j];
    } else {
      var n := j.next.value;
      ChainTextIsJoinedSegments(n, r);
      assert Chain(j) == [j] + Chain(n);
      SegmentsAppend([j], Chain(n), r);
      JoinCons(Segment(j, r), Segments(Chain(n), r), " ");
    }
  }

  lemma SegmentsAppend(a: seq<Join>, b: seq<Join>, r: Resolver)
    ensures Segments(a + b, r) == Segments(a, r) + Segments(b, r)
  {
    MapSeqAppend(a, b, SegmentOf(r));
  }

  /** Every join statement is, per top-level join, the space-separated segments of its chain in declaration order. */
  lemma JoinTextDepthFirst(joins: seq<Join>, r: Resolver)
    ensures JoinText(joins, r)
         == Flatten(seq(|joins|, i requires 0 <= i < |joins| => JoinWith(Segments(Chain(joins[i]), r), " ")))
  {
    var chained := seq(|joins|, i requires 0 <= i < |joins| => JoinWith(Segments(Chain(joins[i]), r), " "));
    forall i | 0 <= i < |joins| ensures ChainTexts(joins, r)[i] == chained[i] {
      ChainTextIsJoinedSegments(joins[i], r);
    }
    assert ChainTexts(joins, r) == chained;
  }

  /** The statement of a single join is the text of its chain. */
  lemma JoinTextOfOne(j: Join, r: Resolver)
    ensures JoinText([j], r) == ChainText(j, r)
  {
    assert ChainTexts([j], r) == [ChainText(j, r)];
    FlattenSnoc([], ChainText(j, r));
  }

  /**
   * getJoinStatement: for each join, ` TYPE table clause`, then the chained
   * join's statement after a space.
   */
  method GetJoinStatement(joins: seq<Join>, r: Resolver) returns (s: string)
    requires JoinsWellFormed(joins)
    ensures s == JoinText(joins, r)
    decreases Height(joins)
  {
    ghost var texts := ChainTexts(joins, r);
    s := "";
    var i := 0;
    while i < |joins|
      invariant 0 <= i <= |joins|
      invariant s == Flatten(texts[..i])
    {
      var join := joins[i];
      var tableRealName := r(join.table).realName;
      var clauseText := ClauseHelper.GetClause(join.clauses);
      var piece := " " + JoinType(join.kind) + " " + tableRealName + " " + clauseText;
      assert piece == Segment(join, r);
      if join.next.Some? {
        assert Height([join.next.value]) < Height(joins) by {
          HeightBound(joins, i);
          HeightOfOne(join.next.value);
        }
        var inner := GetJoinStatement([join.next.value], r);
        assert inner == ChainText(join.next.value, r) by {
          JoinTextOfOne(join.next.value, r);
        }
        piece := piece + " " + inner;
      }
      assert piece == texts[i];
      assert Flatten(texts[..i + 1]) == s + piece by {
        FlattenPrefixStep(texts, i);
      }
      s := s + piece;
      i := i + 1;
    }
    assert texts[..|joins|] == texts;
  }

  /** The prefixed columns of a join's table, then those of the chained join. */
  function ChainColumns(j: Join, r: Resolver): seq<string>
    decreases j
  {
    r(j.table).prefixedColumns + (if j.next.Some? then ChainColumns(j.next.value, r) else [])
  }

  function ChainColumnsOf(r: Resolver): Join -> seq<string>
  {
    (j: Join) => ChainColumns(j, r)
  }

  function ChainColumnLists(joins: seq<Join>, r: Resolver): seq<seq<string>>
  {
    MapSeq(joins, ChainColumnsOf(r))
  }

  /** getJoinColumns: the chains' columns one after the other. */
  function JoinColumns(joins: seq<Join>, r: Resolver): seq<string>
  {
    Flatten(ChainColumnLists(joins, r))
  }

  /** All joins reached from the given ones, each chain in order, chains in declaration order. */
  function AllJoins(joins: seq<Join>): seq<Join>
  {
    Flatten(MapSeq(joins, Chain))
  }

  /** The prefixed column list of each join, in the given order. */
  function ColumnsOf(r: Resolver): Join -> seq<string>
  {
    (j: Join) => r(j.table).prefixedColumns
  }

  function TableColumns(js: seq<Join>, r: Resolver): seq<seq<string>>
  {
    MapSeq(js, ColumnsOf(r))
  }

  lemma {:induction false} ChainColumnsInOrder(j: Join, r: Resolver)
    ensures ChainColumns(j, r) == Flatten(TableColumns(Chain(j), r))
    decreases j
  {
    var rest := if j.next.Some? then Chain(j.next.value) else [];
    assert Chain(j) == [j] + rest;
    TableColumnsAppend([j], rest, r);
    assert TableColumns([j], r) == [r(j.table).prefixedColumns];
    FlattenAppend([r(j.table).prefixedColumns], TableColumns(rest, r));
    assert Flatten([r(j.table).prefixedColumns]) == r(j.table).prefixedColumns;
    if j.next.Some? {
      ChainColumnsInOrder(j.next.value, r);
    }
  }

  /**
   * The join columns are the prefixed columns of every joined table, in
   * declaration order and depth first through chained joins.
   */
  lemma {:induction false} JoinColumnsDepthFirst(joins: seq<Join>, r: Resolver)
    ensures JoinColumns(joins, r) == Flatten(TableColumns(AllJoins(joins), r))
    decreases |joins|
  {
    if |joins| > 0 {
      var n := |joins| - 1;
      var init := joins[..n];
      var last := Chain(joins[n]);
      JoinColumnsDepthFirst(init, r);
      assert joins == init + [joins[n]];
      MapSeqAppend(init, [joins[n]], Chain);
      assert MapSeq([joins[n]], Chain) == [last];
      FlattenSnoc(MapSeq(init, Chain), last);
      TableColumnsAppend(AllJoins(init), last, r);
      FlattenAppend(TableColumns(AllJoins(init), r), TableColumns(last, r));
      ChainColumnsInOrder(joins[n], r);
      MapSeqAppend(init, [joins[n]], ChainColumnsOf(r));
      assert ChainColumnLists([joins[n]], r) == [ChainColumns(joins[n], r)];
      FlattenSnoc(ChainColumnLists(init, r), ChainColumns(joins[n], r));
    }
  }

  lemma TableColumnsAppend(a: seq<Join>, b: seq<Join>, r: Resolver)
    ensures TableColumns(a + b, r) == TableColumns(a, r) + TableColumns(b, r)
  {
    MapSeqAppend(a, b, ColumnsOf(r));
  }

  /** The columns of a single join are those of its chain. */
  lemma JoinColumnsOfOne(j: Join, r: Resolver)
    ensures JoinColumns([j], r) == ChainColumns(j, r)
  {
    assert ChainColumnLists([j], r) == [ChainColumns(j, r)];
    FlattenSnoc([], ChainColumns(j, r));
  }

  /** getJoinColumns: each join's prefixed columns, then the chained join's columns. */
  method GetJoinColumns(joins: seq<Join>, r: Resolver) returns (columns: seq<string>)
    ensures columns == JoinColumns(joins, r)
    decreases Height(joins)
  {
    ghost var lists := ChainColumnLists(joins, r);
    columns := [];
    var i := 0;
    while i < |joins|
      invariant 0 <= i <= |joins|
      invariant columns == Flatten(lists[..i])
    {
      var join := joins[i];
      var piece := r(join.table).prefixedColumns;
      if join.next.Some? {
        assert Height([join.next.value]) < Height(joins) by {
          HeightBound(joins, i);
          HeightOfOne(join.next.value);
        }
        var inner := GetJoinColumns([join.next.value], r);
        assert inner == ChainColumns(join.next.value, r) by {
          JoinColumnsOfOne(join.next.value, r);
        }
        piece := piece + inner;
      }
      assert piece == lists[i];
      assert Flatten(lists[..i + 1]) == columns + piece by {
        FlattenPrefixStep(lists, i);
      }
      columns := columns + piece;
      i := i + 1;
    }
    assert lists[..|joins|] == lists;
  }

  /** A joined column as selected: `col as col_with_underscores`. */
  function Aliased(column: string): string
  {
    column + " as " + Replace(column, '.', '_')
  }

  function AliasedList(columns: seq<string>): seq<string>
  {
    MapSeq(columns, Aliased)
  }

  /** `SELECT ` and the comma-separated columns; with no column at all the trailing-comma deletion eats `T `. */
  function SelectHead(columns: seq<string>): string
  {
    if |columns| == 0 then "SELEC" else "SELECT " + JoinWith(columns, ", ")
  }

  /** A keyword and its part, or nothing when the part is empty. */
  function Keyworded(keyword: string, part: string): string
  {
    if |part| > 0 then keyword + part else ""
  }

  /** The statement buildJoinQuery assembles. */
  function SelectText(tableColumns: seq<string>, joins: seq<Join>, tableName: string, clause: Option<seq<Clause>>,
                      orderBy: Option<seq<OrderBy>>, limit: Option<Limit>, r: Resolver): string
  {
    SelectHead(tableColumns + AliasedList(JoinColumns(joins, r)))
    + " FROM " + tableName + " " + JoinText(joins, r)
    + " " + Keyworded("WHERE ", ClauseHelper.RenderForest(clause))
    + " " + Keyworded("ORDER BY ", OrderByText(orderBy))
    + " " + Keyworded("LIMIT ", LimitText(limit))
  }

  /**
   * The optional parts of the statement: ORDER BY appears exactly when there
   * is an ordering entry, LIMIT exactly when there is a limit, and then as
   * `LIMIT start,end`.
   */
  lemma OptionalKeywords(orderBy: Option<seq<OrderBy>>, limit: Option<Limit>)
    ensures Keyworded("ORDER BY ", OrderByText(orderBy)) == "" <==> orderBy.None? || |orderBy.value| == 0
    ensures Keyworded("LIMIT ", LimitText(limit))
         == if limit.None? then "" else "LIMIT " + IntText(limit.value.start) + "," + IntText(limit.value.end)
  {
    OrderByTextEmptyIff(orderBy);
    LimitRoundTrip(limit);
  }

  /** Deleting the last two characters of the column buffer leaves the column head. */
  lemma ColumnListTrailingComma(columns: seq<string>)
    ensures |"SELECT " + Terminated(columns, ", ")| >= 2
    ensures DeleteFrom("SELECT " + Terminated(columns, ", "), |"SELECT " + Terminated(columns, ", ")| - 2)
         == SelectHead(columns)
  {
    if |columns| > 0 {
      TerminatedIsJoinedPlusSep(columns, ", ");
      var head := "SELECT " + JoinWith(columns, ", ");
      assert "SELECT " + Terminated(columns, ", ") == head + ", ";
      assert (head + ", ")[..|head|] == head;
    }
  }

  /**
   * The column part of buildJoinQuery: `SELECT `, every column followed by
   * `, `, every joined column aliased and followed by `, `, then the last two
   * characters deleted.
   */
  method BuildColumnList(tableColumns: seq<string>, joinColumns: seq<string>) returns (sb: string)
    ensures sb == SelectHead(tableColumns + AliasedList(joinColumns))
  {
    sb := "SELECT ";
    var i := 0;
    while i < |tableColumns|
      invariant 0 <= i <= |tableColumns|
      invariant sb == "SELECT " + Terminated(tableColumns[..i], ", ")
    {
      assert sb + tableColumns[i] + ", " == "SELECT " + Terminated(tableColumns[..i + 1], ", ") by {
        assert tableColumns[..i + 1] == tableColumns[..i] + [tableColumns[i]];
        TerminatedSnoc("SELECT ", tableColumns[..i], tableColumns[i], ", ");
      }
      sb := sb + tableColumns[i] + ", ";
      i := i + 1;
    }
    assert tableColumns[..i] == tableColumns;
    ghost var plain := sb;
    ghost var aliased := AliasedList(joinColumns);
    var k := 0;
    while k < |joinColumns|
      invariant 0 <= k <= |joinColumns|
      invariant sb == plain + Terminated(aliased[..k], ", ")
    {
      var column := joinColumns[k];
      var columnAlias := Replace(column, '.', '_');
      var entry := column + " as " + columnAlias;
      assert sb + entry + ", " == plain + Terminated(aliased[..k + 1], ", ") by {
        assert entry == Aliased(column);
        assert aliased[k] == entry;
        assert aliased[..k + 1] == aliased[..k] + [entry];
        TerminatedSnoc(plain, aliased[..k], entry, ", ");
      }
      sb := sb + entry + ", ";
      k := k + 1;
    }
    assert aliased[..k] == aliased;
    TerminatedAppend("SELECT ", tableColumns, aliased, ", ");
    ColumnListTrailingComma(tableColumns + aliased);
    sb := DeleteFrom(sb, |sb| - 2);
  }

  /**
   * buildJoinQuery: the column list, then FROM, the table, the joins and the
   * WHERE, ORDER BY and LIMIT parts, each keyword only before a non-empty part.
   */
  method BuildJoinQuery(tableColumns: seq<string>, joins: seq<Join>, tableName: string, clause: Option<seq<Clause>>,
                        orderBy: Option<seq<OrderBy>>, limit: Option<Limit>, r: Resolver) returns (sql: string)
    requires JoinsWellFormed(joins)
    requires clause.Some? ==> AllWellFormed(clause.value)
    ensures sql == SelectText(tableColumns, joins, tableName, clause, orderBy, limit, r)
  {
    var joinColumns := GetJoinColumns(joins, r);
    var sb := BuildColumnList(tableColumns, joinColumns);
    var clauseString := ClauseHelper.GetClause(clause);
    if |clauseString| > 0 {
      clauseString := "WHERE " + clauseString;
    }
    var orderByString := GetOrderBy(orderBy);
    if |orderByString| > 0 {
      orderByString := "ORDER BY " + orderByString;
    }
    var limitString := LimitText(limit);
    if |limitString| > 0 {
      limitString := "LIMIT " + limitString;
    }
    var joinText := GetJoinStatement(joins, r);
    sql := sb + " FROM " + tableName + " " + joinText + " " + clauseString + " " + orderByString + " " + limitString;
  }
}
