/**
 * The ORDER BY and LIMIT parts of a statement, as net.frju.androidquery's
 * ClauseHelper renders them (getOrderBy, getLimit).
 */
module Keywords {
  import opened Text
  import opened Wrappers

  /** OrderBy.Order; its tokens are the enum constants' names. */
  datatype Order = Asc | Desc | Random

  function OrderToken(order: Order): string
  {
    match order
    case Asc => "ASC"
    case Desc => "DESC"
    case Random => "RANDOM"
  }

  datatype OrderBy = OrderBy(field: string, order: Order)

  /** A row window: the two ints written as `start,end`. */
  datatype Limit = Limit(start: int, end: int)

  /** One ordering entry: `RANDOM()` for a random order, whatever the field; `field order` otherwise. */
  function EntryText(entry: OrderBy): (r: string)
    ensures |r| > 0
  {
    if entry.order == Random then OrderToken(Random) + "()"
    else entry.field + " " + OrderToken(entry.order)
  }

  function EntryTexts(entries: seq<OrderBy>): seq<string>
  {
    seq(|entries|, i requires 0 <= i < |entries| => EntryText(entries[i]))
  }

  /** The ordering entries joined by commas; a null or empty array gives "". */
  function OrderByText(entries: Option<seq<OrderBy>>): string
  {
    match entries
    case None => ""
    case Some(es) => JoinWith(EntryTexts(es), ",")
  }

  lemma {:induction false} JoinNonEmpty(xs: seq<string>, sep: string)
    requires |xs| > 0 && forall i :: 0 <= i < |xs| ==> |xs[i]| > 0
    ensures |JoinWith(xs, sep)| > 0
  {
    assert |xs[|xs| - 1]| > 0;
  }

  /** The ORDER BY part is empty exactly when there is no ordering entry. */
  lemma OrderByTextEmptyIff(entries: Option<seq<OrderBy>>)
    ensures OrderByText(entries) == "" <==> entries.None? || |entries.value| == 0
  {
    if entries.Some? && |entries.value| > 0 {
      JoinNonEmpty(EntryTexts(entries.value), ",");
    }
  }

  /**
   * getOrderBy: appends a comma before an entry whenever the builder already
   * holds text, then the entry.
   */
  method GetOrderBy(entries: Option<seq<OrderBy>>) returns (s: string)
    ensures s == OrderByText(entries)
  {
    s := "";
    if entries.Some? && |entries.value| > 0 {
      var es := entries.value;
      ghost var texts := EntryTexts(es);
      var i := 0;
      while i < |es|
        invariant 0 <= i <= |es|
        invariant s == JoinWith(texts[..i], ",")
        invariant |s| > 0 <==> i > 0
      {
        var text := EntryText(es[i]);
        assert texts[i] == text;
        assert texts[..i + 1] == texts[..i] + [text];
        JoinSnoc(texts[..i], text, ",");
        if |s| > 0 {
          s := s + ",";
        }
        s := s + text;
        i := i + 1;
      }
      assert texts[..|es|] == texts;
    }
  }

  /** getLimit: `start,end`, or "" without a limit. */
  function LimitText(limit: Option<Limit>): string
  {
    match limit
    case None => ""
    case Some(l) => IntText(l.start) + "," + IntText(l.end)
  }

  /** Reads a LIMIT part back: the two ints either side of the first comma. */
  function ParseLimit(s: string): Option<Limit>
  {
    if s == "" then None
    else
      var k := IndexOf(s, ',');
      Some(Limit(ParseInt(s[..k]), ParseInt(if k < |s| then s[k + 1..] else "")))
  }

  /** The LIMIT text determines the limit: reading it back gives the limit, or none for "". */
  lemma LimitRoundTrip(limit: Option<Limit>)
    ensures ParseLimit(LimitText(limit)) == limit
    ensures LimitText(limit) == "" <==> limit.None?
  {
    if limit.Some? {
      var a, b := IntText(limit.value.start), IntText(limit.value.end);
      IntTextRoundTrip(limit.value.start);
      IntTextRoundTrip(limit.value.end);
      var s := a + "," + b;
      var k := IndexOf(s, ',');
      assert s[|a|] == ',';
      assert k == |a|;
      assert s[..k] == a;
      assert s[k + 1..] == b;
    }
  }
}
