/**
 * Select.Builder of net.frju.androidquery: a mutable record of the filter,
 * the joins, the ordering and the limit of a SELECT. Running the query is
 * not modelled; `Query` and `QuerySingle` return the descriptor they would
 * hand to the database provider.
 */
module SelectBuilder {
  import opened Text
  import opened Wrappers
  import opened Clauses
  import opened Keywords
  import opened JoinQuery

  /** The immutable Select a builder produces. */
  datatype Select = Select(condition: Option<seq<Clause>>, joins: Option<seq<Join>>,
                           orderBy: Option<seq<OrderBy>>, limit: Option<Limit>)

  /** The entries of an ordering; a null one has none. */
  function Entries(orderBy: Option<seq<OrderBy>>): seq<OrderBy>
  {
    if orderBy.Some? then orderBy.value else []
  }

  class Builder {
    var condition: Option<seq<Clause>>
    var joins: Option<seq<Join>>
    var orderBy: array?<OrderBy>
    var limit: Option<Limit>

    /** A new builder: every field null. */
    constructor ()
      ensures condition.None? && joins.None? && orderBy == null && limit.None?
    {
      condition := None;
      joins := None;
      orderBy := null;
      limit := None;
    }

    /** The ordering the builder holds, read through the array it refers to. */
    function OrderByView(): Option<seq<OrderBy>>
      reads this, orderBy
    {
      if orderBy == null then None else Some(orderBy[..])
    }

    /** where(condition...): replaces the filter. */
    method Where(cs: Option<seq<Clause>>)
      modifies this
      ensures condition == cs
      ensures joins == old(joins) && orderBy == old(orderBy) && limit == old(limit)
    {
      condition := cs;
    }

    /** join(joins...): replaces the joins. */
    method SetJoin(js: Option<seq<Join>>)
      modifies this
      ensures joins == js
      ensures condition == old(condition) && orderBy == old(orderBy) && limit == old(limit)
    {
      joins := js;
    }

    /**
     * orderBy(column, order): a one-entry array when there was none, otherwise
     * a copy one longer with the new entry last. The old array is not changed.
     */
    method OrderByColumn(column: string, order: Order)
      modifies this
      ensures orderBy != null && fresh(orderBy)
      ensures orderBy[..] == Entries(old(OrderByView())) + [OrderBy(column, order)]
      ensures condition == old(condition) && joins == old(joins) && limit == old(limit)
    {
      var entry := OrderBy(column, order);
      if orderBy == null {
        orderBy := new OrderBy[1](_ => entry);
      } else {
        var previous := orderBy;
        var grown := new OrderBy[previous.Length + 1](_ => entry);
        var i := 0;
        while i < previous.Length
          invariant 0 <= i <= previous.Length
          invariant grown[..i] == previous[..i]
          modifies grown
        {
          grown[i] := previous[i];
          i := i + 1;
        }
        grown[grown.Length - 1] := entry;
        assert grown[..previous.Length] == previous[..];
        orderBy := grown;
      }
    }

    /** orderBy(entries...): the builder now refers to the caller's array itself. */
    method OrderByAll(entries: array?<OrderBy>)
      modifies this
      ensures orderBy == entries
      ensures condition == old(condition) && joins == old(joins) && limit == old(limit)
    {
      orderBy := entries;
    }

    /** limit(n): the first n rows, `Limit(0, n)`. */
    method LimitCount(n: int)
      modifies this
      ensures limit == Some(Limit(0, n))
      ensures condition == old(condition) && joins == old(joins) && orderBy == old(orderBy)
    {
      limit := Some(Limit(0, n));
    }

    /** limit(start, end). */
    method LimitRange(start: int, end: int)
      modifies this
      ensures limit == Some(Limit(start, end))
      ensures condition == old(condition) && joins == old(joins) && orderBy == old(orderBy)
    {
      limit := Some(Limit(start, end));
    }

    /** query(): the descriptor of exactly the builder's fields. */
    method Query() returns (s: Select)
      ensures s.condition == condition && s.joins == joins && s.limit == limit
      ensures s.orderBy == OrderByView()
    {
      var entries := if orderBy == null then None else Some(orderBy[..]);
      s := Select(condition, joins, entries, limit);
    }

    /**
     * querySingle(): the builder's fields with the limit forced to `Limit(0, 1)`,
     * whatever the builder holds; the builder itself keeps its limit.
     */
    method QuerySingle() returns (s: Select)
      ensures s.condition == condition && s.joins == joins && s.orderBy == OrderByView()
      ensures s.limit == Some(Limit(0, 1))
      ensures LimitText(s.limit) == "0,1"
    {
      var entries := if orderBy == null then None else Some(orderBy[..]);
      s := Select(condition, joins, entries, Some(Limit(0, 1)));
      assert NatText(0) == "0" && NatText(1) == "1";
    }
  }

  /**
   * Appending an ordering entry appends its text to the ORDER BY part, after
   * a comma when there was already an entry.
   */
  lemma OrderByTextAppend(previous: Option<seq<OrderBy>>, entry: OrderBy)
    ensures OrderByText(Some(Entries(previous) + [entry]))
         == if |Entries(previous)| == 0 then EntryText(entry)
            else OrderByText(previous) + "," + EntryText(entry)
  {
    var es := Entries(previous);
    assert EntryTexts(es + [entry]) == EntryTexts(es) + [EntryText(entry)];
    JoinSnoc(EntryTexts(es), EntryText(entry), ",");
  }
}
