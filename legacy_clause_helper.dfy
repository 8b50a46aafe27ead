/**
 * The older ClauseHelper of com.memtrip.sqlking. It knows Where, In, And and
 * Or only: any other clause (an On among them) renders as "" and adds no
 * argument. Its argument side is the shared `Clauses.GetClauseArgs`. It
 * orders by a single entry.
 */
module LegacyClauseHelper {
  import opened Text
  import opened Wrappers
  import opened Clauses
  import opened Keywords
  import ClauseHelper

  /** Reference rendering: as the current compiler's, with every unknown kind rendered as "". */
  function Render(c: Clause): string
    decreases c
  {
    match c
    case Where(column, op, _) => WhereText(column, op)
    case In(column, values) => InText(column, |values|)
    case And(cs) => "(" + JoinWith(RenderList(cs), " AND ") + ")"
    case Or(cs) => "(" + JoinWith(RenderList(cs), " OR ") + ")"
    case _ => ""
  }

  function RenderList(cs: seq<Clause>): seq<string>
    decreases cs
  {
    seq(|cs|, i requires 0 <= i < |cs| => Render(cs[i]))
  }

  function RenderForest(forest: Option<seq<Clause>>): string
  {
    match forest
    case None => ""
    case Some(cs) => Flatten(RenderList(cs))
  }

  /** getClause(Clause) of the client: leaves by their builders, And/Or by append-then-truncate. */
  method GetClauseItem(c: Clause) returns (s: string)
    requires WellFormed(c)
    ensures s == Render(c)
    decreases c, 1
  {
    match c {
      case In(column, values) =>
        s := BuildInCondition(column, |values|);
      case Where(column, op, _) =>
        s := WhereText(column, op);
      case And(cs) =>
        s := GetGroup(cs, " AND ");
      case Or(cs) =>
        s := GetGroup(cs, " OR ");
      case _ =>
        s := "";
    }
  }

  /** The client's And/Or loop; the last separator is deleted before `)`. */
  method GetGroup(cs: seq<Clause>, sep: string) returns (s: string)
    requires |cs| >= 1 && AllWellFormed(cs)
    requires |sep| >= 2
    ensures s == "(" + JoinWith(RenderList(cs), sep) + ")"
    decreases cs, 0
  {
    ghost var items := RenderList(cs);
    s := "(";
    var i := 0;
    while i < |cs|
      invariant 0 <= i <= |cs|
      invariant s == "(" + Terminated(items[..i], sep)
    {
      var item := GetClauseItem(cs[i]);
      assert s + item + sep == "(" + Terminated(items[..i + 1], sep) by {
        assert items[..i + 1] == items[..i] + [item];
        TerminatedSnoc("(", items[..i], item, sep);
      }
      s := s + item + sep;
      i := i + 1;
    }
    assert items[..i] == items;
    assert DeleteFrom(s, |s| - |sep|) == "(" + JoinWith(items, sep) by {
      TerminatedIsJoinedPlusSep(items, sep);
      assert s == ("(" + JoinWith(items, sep)) + sep;
    }
    s := DeleteFrom(s, |s| - |sep|);
    s := s + ")";
  }

  /**
   * getClause(Clause[]) of the client: concatenation of the top-level clauses;
   * null gives "". It is the current compiler's text for the forest with its
   * On nodes erased.
   */
  method GetClause(forest: Option<seq<Clause>>) returns (s: string)
    requires forest.Some? ==> AllWellFormed(forest.value)
    ensures s == RenderForest(forest)
    ensures forest.Some? ==> s == ClauseHelper.RenderForest(Some(EraseOnList(forest.value)))
  {
    if forest.Some? {
      RenderListAsCurrent(forest.value);
    }
    s := "";
    if forest.Some? {
      var cs := forest.value;
      var i := 0;
      while i < |cs|
        invariant 0 <= i <= |cs|
        invariant s == Flatten(RenderList(cs)[..i])
      {
        var item := GetClauseItem(cs[i]);
        assert RenderList(cs)[..i + 1] == RenderList(cs)[..i] + [item];
        FlattenSnoc(RenderList(cs)[..i], item);
        s := s + item;
        i := i + 1;
      }
      assert RenderList(cs)[..|cs|] == RenderList(cs);
    }
  }

  /** The clause with every On replaced by an unrecognised clause. */
  function EraseOn(c: Clause): Clause
    decreases c
  {
    match c
    case And(cs) => And(EraseOnList(cs))
    case Or(cs) => Or(EraseOnList(cs))
    case On(_, _) => Unknown
    case _ => c
  }

  function EraseOnList(cs: seq<Clause>): (r: seq<Clause>)
    decreases cs
  {
    seq(|cs|, i requires 0 <= i < |cs| => EraseOn(cs[i]))
  }

  predicate OnFree(c: Clause)
  {
    match c
    case And(cs) => forall i :: 0 <= i < |cs| ==> OnFree(cs[i])
    case Or(cs) => forall i :: 0 <= i < |cs| ==> OnFree(cs[i])
    case On(_, _) => false
    case _ => true
  }

  /** The client renders a clause exactly as the current compiler renders it with its On nodes erased. */
  lemma {:induction false} RendersAsCurrentWithOnErased(c: Clause)
    ensures Render(c) == ClauseHelper.Render(EraseOn(c))
    decreases c
  {
    match c {
      case And(cs) =>
        forall i | 0 <= i < |cs| ensures RenderList(cs)[i] == ClauseHelper.RenderList(EraseOnList(cs))[i] {
          RendersAsCurrentWithOnErased(cs[i]);
        }
        assert RenderList(cs) == ClauseHelper.RenderList(EraseOnList(cs));
      case Or(cs) =>
        forall i | 0 <= i < |cs| ensures RenderList(cs)[i] == ClauseHelper.RenderList(EraseOnList(cs))[i] {
          RendersAsCurrentWithOnErased(cs[i]);
        }
        assert RenderList(cs) == ClauseHelper.RenderList(EraseOnList(cs));
      case _ =>
    }
  }

  /** Erasing On nodes changes no argument (an On never contributed one). */
  lemma {:induction false} ArgsIgnoreOn(c: Clause)
    ensures Args(EraseOn(c)) == Args(c)
    ensures NoMarks(c) ==> NoMarks(EraseOn(c))
    decreases c
  {
    match c {
      case And(cs) =>
        forall i | 0 <= i < |cs|
          ensures ArgsList(EraseOnList(cs))[i] == ArgsList(cs)[i]
          ensures NoMarks(c) ==> NoMarks(EraseOnList(cs)[i])
        {
          ArgsIgnoreOn(cs[i]);
        }
        assert ArgsList(EraseOnList(cs)) == ArgsList(cs);
      case Or(cs) =>
        forall i | 0 <= i < |cs|
          ensures ArgsList(EraseOnList(cs))[i] == ArgsList(cs)[i]
          ensures NoMarks(c) ==> NoMarks(EraseOnList(cs)[i])
        {
          ArgsIgnoreOn(cs[i]);
        }
        assert ArgsList(EraseOnList(cs)) == ArgsList(cs);
      case _ =>
    }
  }

  /** Erasing leaves a clause without On nodes as it is. */
  lemma {:induction false} EraseOnKeepsOnFree(c: Clause)
    requires OnFree(c)
    ensures EraseOn(c) == c
    decreases c
  {
    match c {
      case And(cs) =>
        forall i | 0 <= i < |cs| ensures EraseOnList(cs)[i] == cs[i] {
          EraseOnKeepsOnFree(cs[i]);
        }
        assert EraseOnList(cs) == cs;
      case Or(cs) =>
        forall i | 0 <= i < |cs| ensures EraseOnList(cs)[i] == cs[i] {
          EraseOnKeepsOnFree(cs[i]);
        }
        assert EraseOnList(cs) == cs;
      case _ =>
    }
  }

  /** The client renders a list of clauses as the current compiler renders it with On nodes erased. */
  lemma RenderListAsCurrent(cs: seq<Clause>)
    ensures RenderList(cs) == ClauseHelper.RenderList(EraseOnList(cs))
  {
    forall i | 0 <= i < |cs| ensures RenderList(cs)[i] == ClauseHelper.RenderList(EraseOnList(cs))[i] {
      RendersAsCurrentWithOnErased(cs[i]);
    }
  }

  /** On clauses without On nodes the two compilers produce the same text. */
  lemma AgreesWithCurrentWithoutOn(c: Clause)
    requires OnFree(c)
    ensures Render(c) == ClauseHelper.Render(c)
  {
    RendersAsCurrentWithOnErased(c);
    EraseOnKeepsOnFree(c);
  }

  /**
   * Lock-step holds for the client too, even with clauses it does not know:
   * as many placeholders as arguments, each value bound in its own place.
   */
  lemma LockStep(c: Clause)
    requires NoMarks(c)
    ensures Count(Render(c)) == |Args(c)|
    ensures Bind(Render(c), Args(c)) == ClauseHelper.Inline(EraseOn(c))
  {
    RendersAsCurrentWithOnErased(c);
    ArgsIgnoreOn(c);
    ClauseHelper.LockStep(EraseOn(c));
  }

  /** getOrderBy of the client: `field order` for its single entry, "" when there is none. */
  function SingleOrderByText(orderBy: Option<OrderBy>): string
  {
    match orderBy
    case None => ""
    case Some(e) => e.field + " " + OrderToken(e.order)
  }

  /**
   * The single-entry ordering renders as a one-entry list does in the current
   * compiler, except for a random order, which the client writes as `field RANDOM`.
   */
  lemma OrderByAgreesExceptRandom(e: OrderBy)
    ensures SingleOrderByText(Some(e)) == Keywords.OrderByText(Some([e])) <==> e.order != Random
  {
    var legacy := SingleOrderByText(Some(e));
    if e.order == Random {
      assert legacy[|legacy| - 1] == 'M';
      assert Keywords.OrderByText(Some([e])) == "RANDOM()";
    }
  }
}
