/**
 * The CREATE TABLE statement the preprocessor writes into generated code
 * (AssembleCreateTableMethod.buildCreateTableStatement): the column
 * definitions that have SQL, then the foreign keys, comma separated, inside
 * a Java string literal. The SQL of a column comes from a function the model
 * does not open up.
 */
module CreateTable {
  import opened Text
  import opened Wrappers

  datatype ForeignKey = ForeignKey(thisColumn: string, table: string, foreignColumn: string)

  /** A table with columns of some type `C` that only the column-to-SQL function looks into. */
  datatype Table<C> = Table(realName: string, columns: seq<C>, foreignKeys: seq<ForeignKey>)

  /** `FOREIGN KEY(this) REFERENCES table(foreign)`. */
  function ForeignKeyText(fk: ForeignKey): string
  {
    "FOREIGN KEY(" + fk.thisColumn + ") REFERENCES " + fk.table + "(" + fk.foreignColumn + ")"
  }

  function ForeignKeyTexts(fks: seq<ForeignKey>): seq<string>
  {
    MapSeq(fks, ForeignKeyText)
  }

  /** The SQL of the columns that have one, in column order. */
  function ColumnTexts<C>(columns: seq<C>, columnToSql: C -> Option<string>): seq<string>
    decreases |columns|
  {
    if |columns| == 0 then []
    else
      var init := ColumnTexts(columns[..|columns| - 1], columnToSql);
      match columnToSql(columns[|columns| - 1])
      case None => init
      case Some(sql) => init + [sql]
  }

  /** Every entry between the brackets: column definitions, then foreign keys. */
  function Entries<C>(t: Table<C>, columnToSql: C -> Option<string>): seq<string>
  {
    ColumnTexts(t.columns, columnToSql) + ForeignKeyTexts(t.foreignKeys)
  }

  /** The generated Java literal: `"CREATE TABLE name (e1,e2,...);";`. */
  function CreateTableText<C>(t: Table<C>, columnToSql: C -> Option<string>): string
  {
    "\"" + ("CREATE TABLE " + t.realName + " (" + JoinWith(Entries(t, columnToSql), ",") + ");") + "\";"
  }

  /**
   * The columns kept are exactly those with SQL: column i contributes its SQL
   * at the place given by the number of earlier columns with SQL, and the
   * list is as long as the number of such columns.
   */
  lemma {:induction false} ColumnTextsKeepOrder<C>(columns: seq<C>, columnToSql: C -> Option<string>, i: nat)
    requires i < |columns| && columnToSql(columns[i]).Some?
    ensures |ColumnTexts(columns[..i], columnToSql)| < |ColumnTexts(columns, columnToSql)|
    ensures ColumnTexts(columns, columnToSql)[|ColumnTexts(columns[..i], columnToSql)|] == columnToSql(columns[i]).value
    decreases |columns|
  {
    var n := |columns| - 1;
    var init := columns[..n];
    if i == n {
      assert columns[..i] == init;
    } else {
      ColumnTextsKeepOrder(init, columnToSql, i);
      assert init[..i] == columns[..i];
    }
  }

  /** A column without SQL adds nothing. */
  lemma ColumnTextsSkipNone<C>(columns: seq<C>, columnToSql: C -> Option<string>, c: C)
    requires columnToSql(c).None?
    ensures ColumnTexts(columns + [c], columnToSql) == ColumnTexts(columns, columnToSql)
  {
    assert (columns + [c])[..|columns|] == columns;
  }

  /** The statement starts with the opening quote and the table's name and ends with `);";`. */
  lemma StatementFrame<C>(t: Table<C>, columnToSql: C -> Option<string>)
    ensures var s := CreateTableText(t, columnToSql);
            var head := "\"CREATE TABLE " + t.realName + " (";
            |s| >= |head| + 4 && s[..|head|] == head && s[|s| - 4..] == ");\";"
  {
  }

  /** No comma is left in front of `)` unless the last entry itself ends in one. */
  lemma NoTrailingSeparator<C>(t: Table<C>, columnToSql: C -> Option<string>)
    requires var es := Entries(t, columnToSql);
             |es| > 0 && |es[|es| - 1]| > 0 && es[|es| - 1][|es[|es| - 1]| - 1] != ','
    ensures var s := CreateTableText(t, columnToSql);
            |s| >= 5 && s[|s| - 5] != ','
  {
    var es := Entries(t, columnToSql);
    var body := JoinWith(es, ",");
    var last := es[|es| - 1];
    if |es| > 1 {
      assert body == JoinWith(es[..|es| - 1], ",") + "," + last;
    }
    assert body[|body| - 1] == last[|last| - 1];
  }

  /**
   * Deleting the buffer's last character when it is a comma leaves the
   * entries joined by commas: a non-empty buffer ends with the separator
   * appended last, an empty one ends with the `(` of the head.
   */
  lemma TrailingCommaDeleted(head: string, entries: seq<string>, sb: string)
    requires |head| > 0 && head[|head| - 1] == '('
    requires sb == head + Terminated(entries, ",")
    ensures |sb| > 0
    ensures sb[|sb| - 1] == ',' ==> DeleteFrom(sb, |sb| - 1) == head + JoinWith(entries, ",")
    ensures sb[|sb| - 1] != ',' ==> sb == head + JoinWith(entries, ",")
  {
    if |entries| > 0 {
      TerminatedIsJoinedPlusSep(entries, ",");
      var kept := head + JoinWith(entries, ",");
      assert sb == kept + ",";
      assert sb[..|sb| - 1] == kept;
    }
  }

  /**
   * buildCreateTableStatement: each column with SQL followed by a comma, each
   * foreign key followed by a comma, then the last character deleted when it
   * is a comma, `);` appended and the whole quoted as a Java string.
   */
  method BuildCreateTableStatement<C>(t: Table<C>, columnToSql: C -> Option<string>) returns (statement: string)
    ensures statement == CreateTableText(t, columnToSql)
  {
    var head := "CREATE TABLE " + t.realName + " (";
    var sb := head;
    var i := 0;
    while i < |t.columns|
      invariant 0 <= i <= |t.columns|
      invariant sb == head + Terminated(ColumnTexts(t.columns[..i], columnToSql), ",")
    {
      var column := t.columns[i];
      var columnSql := columnToSql(column);
      assert t.columns[..i + 1][..i] == t.columns[..i];
      if columnSql.Some? {
        assert sb + columnSql.value + "," == head + Terminated(ColumnTexts(t.columns[..i + 1], columnToSql), ",") by {
          TerminatedSnoc(head, ColumnTexts(t.columns[..i], columnToSql), columnSql.value, ",");
        }
        sb := sb + columnSql.value + ",";
      }
      i := i + 1;
    }
    assert t.columns[..|t.columns|] == t.columns;
    var columnTexts := ColumnTexts(t.columns, columnToSql);
    var k := 0;
    assert columnTexts + ForeignKeyTexts(t.foreignKeys[..0]) == columnTexts;
    while k < |t.foreignKeys|
      invariant 0 <= k <= |t.foreignKeys|
      invariant sb == head + Terminated(columnTexts + ForeignKeyTexts(t.foreignKeys[..k]), ",")
    {
      var fk := t.foreignKeys[k];
      var entry := "FOREIGN KEY(" + fk.thisColumn + ") REFERENCES " + fk.table + "(" + fk.foreignColumn + ")";
      assert sb + entry + "," == head + Terminated(columnTexts + ForeignKeyTexts(t.foreignKeys[..k + 1]), ",") by {
        MapSeqPrefixStep(t.foreignKeys, k, ForeignKeyText);
        assert columnTexts + ForeignKeyTexts(t.foreignKeys[..k + 1])
            == (columnTexts + ForeignKeyTexts(t.foreignKeys[..k])) + [entry];
        TerminatedSnoc(head, columnTexts + ForeignKeyTexts(t.foreignKeys[..k]), entry, ",");
      }
      sb := sb + entry + ",";
      k := k + 1;
    }
    assert t.foreignKeys[..|t.foreignKeys|] == t.foreignKeys;
    var entries := Entries(t, columnToSql);
    assert sb == head + Terminated(entries, ",");
    TrailingCommaDeleted(head, entries, sb);
    if sb[|sb| - 1] == ',' {
      sb := DeleteFrom(sb, |sb| - 1);
    }
    sb := sb + ");";
    statement := "\"" + sb + "\";";
  }
}
