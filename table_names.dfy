/**
 * The preprocessor check that no two @Table classes share a name
 * (TableNamesMustBeUniqueValidator): counting a name's occurrences with an
 * early return, and the scan for the first duplicated name.
 */
module TableNames {
  import opened Wrappers

  /** The source element an error points at: the annotated class. */
  type Element = string

  datatype Table = Table(name: string, element: Element)

  /** A ValidatorException: the element at fault and the message. */
  datatype ValidatorError = ValidatorError(element: Element, message: string)

  /** How many tables carry the name. */
  function Occurrences(name: string, ts: seq<Table>): nat
    decreases |ts|
  {
    if |ts| == 0 then 0
    else Occurrences(name, ts[..|ts| - 1]) + (if ts[|ts| - 1].name == name then 1 else 0)
  }

  /** No two tables share a name. */
  predicate NamesDistinct(ts: seq<Table>)
  {
    forall i, j :: 0 <= i < j < |ts| ==> ts[i].name != ts[j].name
  }

  /** The message of the exception for a duplicated name. */
  function DuplicateMessage(name: string): (m: string)
    ensures |m| > 14 + |name| && m[14..14 + |name|] == name
  {
    "[The @Table: `" + name + "` is duplicated, table names must be unique]"
  }

  /** A name that no table carries occurs zero times. */
  lemma {:induction false} AbsentNoOccurrence(name: string, ts: seq<Table>)
    requires forall k :: 0 <= k < |ts| ==> ts[k].name != name
    ensures Occurrences(name, ts) == 0
    decreases |ts|
  {
    if |ts| > 0 {
      AbsentNoOccurrence(name, ts[..|ts| - 1]);
    }
  }

  /** A table carrying the name counts once. */
  lemma {:induction false} PresentOccurs(name: string, ts: seq<Table>, i: nat)
    requires i < |ts| && ts[i].name == name
    ensures Occurrences(name, ts) >= 1
    decreases |ts|
  {
    if i < |ts| - 1 {
      PresentOccurs(name, ts[..|ts| - 1], i);
    }
  }

  /** Two tables carrying the name count twice. */
  lemma {:induction false} TwoTablesTwoOccurrences(name: string, ts: seq<Table>, i: nat, j: nat)
    requires i < j < |ts| && ts[i].name == name && ts[j].name == name
    ensures Occurrences(name, ts) >= 2
    decreases |ts|
  {
    var init := ts[..|ts| - 1];
    if j == |ts| - 1 {
      PresentOccurs(name, init, i);
    } else {
      TwoTablesTwoOccurrences(name, init, i, j);
    }
  }

  /** With distinct names every name occurs at most once. */
  lemma {:induction false} DistinctAtMostOnce(name: string, ts: seq<Table>)
    requires NamesDistinct(ts)
    ensures Occurrences(name, ts) <= 1
    decreases |ts|
  {
    if |ts| > 0 {
      var init := ts[..|ts| - 1];
      if ts[|ts| - 1].name == name {
        AbsentNoOccurrence(name, init);
      } else {
        DistinctAtMostOnce(name, init);
      }
    }
  }

  /** Names are distinct exactly when no table's name occurs twice. */
  lemma DistinctIffNoneTwice(ts: seq<Table>)
    ensures NamesDistinct(ts) <==> forall k :: 0 <= k < |ts| ==> Occurrences(ts[k].name, ts) < 2
  {
    if NamesDistinct(ts) {
      forall k | 0 <= k < |ts| ensures Occurrences(ts[k].name, ts) < 2 {
        DistinctAtMostOnce(ts[k].name, ts);
      }
    } else {
      var i, j :| 0 <= i < j < |ts| && ts[i].name == ts[j].name;
      TwoTablesTwoOccurrences(ts[i].name, ts, i, j);
    }
  }

  /**
   * getDuplicateTable: counts the tables named like `check` and returns the
   * table at which the count passes one, the second such table; null when
   * the name occurs at most once.
   */
  method GetDuplicateTable(check: Table, ts: seq<Table>) returns (r: Option<Table>)
    ensures r.None? <==> Occurrences(check.name, ts) < 2
    ensures r.Some? ==> exists j :: 0 <= j < |ts| && ts[j] == r.value && ts[j].name == check.name
                                    && Occurrences(check.name, ts[..j]) == 1
  {
    var occurrences := 0;
    var i := 0;
    while i < |ts|
      invariant 0 <= i <= |ts|
      invariant occurrences == Occurrences(check.name, ts[..i])
      invariant occurrences <= 1
    {
      var table := ts[i];
      assert ts[..i + 1][..i] == ts[..i];
      if check.name == table.name {
        occurrences := occurrences + 1;
      }
      if occurrences > 1 {
        OccurrencesGrow(check.name, ts, i + 1);
        return Some(table);
      }
      i := i + 1;
    }
    assert ts[..|ts|] == ts;
    return None;
  }

  /** Counting over a longer prefix never gives less. */
  lemma {:induction false} OccurrencesGrow(name: string, ts: seq<Table>, n: nat)
    requires n <= |ts|
    ensures Occurrences(name, ts[..n]) <= Occurrences(name, ts)
    decreases |ts| - n
  {
    if n < |ts| {
      OccurrencesGrow(name, ts, n + 1);
      assert ts[..n + 1][..n] == ts[..n];
    } else {
      assert ts[..n] == ts;
    }
  }

  /**
   * Table `i` is the first, in list order, whose name occurs at least twice:
   * the table findDuplicateTable stops at.
   */
  predicate FirstTwice(ts: seq<Table>, i: int)
  {
    0 <= i < |ts| && Occurrences(ts[i].name, ts) >= 2
    && forall k :: 0 <= k < i ==> Occurrences(ts[k].name, ts) < 2
  }

  /**
   * Table `j` is the one the scan reports: the second table carrying the name
   * of the first table whose name occurs twice.
   */
  predicate Reported(ts: seq<Table>, j: int)
  {
    0 <= j < |ts| && Occurrences(ts[j].name, ts[..j]) == 1
    && exists i :: 0 <= i < |ts| && FirstTwice(ts, i) && ts[i].name == ts[j].name
  }

  /** At most one table is first to have its name occur twice. */
  lemma FirstTwiceUnique(ts: seq<Table>, i1: int, i2: int)
    requires FirstTwice(ts, i1) && FirstTwice(ts, i2)
    ensures i1 == i2
  {
  }

  /** Counting over a prefix: one more exactly where the next table carries the name. */
  lemma PrefixStep(name: string, ts: seq<Table>, n: nat)
    requires n < |ts|
    ensures Occurrences(name, ts[..n + 1])
         == Occurrences(name, ts[..n]) + (if ts[n].name == name then 1 else 0)
  {
    assert ts[..n + 1][..n] == ts[..n];
  }

  /** Occurrence counts over prefixes grow with the prefix. */
  lemma {:induction false} PrefixMonotone(name: string, ts: seq<Table>, m: nat, n: nat)
    requires m <= n <= |ts|
    ensures Occurrences(name, ts[..m]) <= Occurrences(name, ts[..n])
    decreases n - m
  {
    if m < n {
      PrefixMonotone(name, ts, m, n - 1);
      PrefixStep(name, ts, n - 1);
    }
  }

  /**
   * The reported table is determined by the list: two tables of the same name
   * each preceded by exactly one table of that name are the same table.
   */
  lemma SecondOccurrenceUnique(name: string, ts: seq<Table>, j1: nat, j2: nat)
    requires j1 < |ts| && j2 < |ts| && ts[j1].name == name && ts[j2].name == name
    requires Occurrences(name, ts[..j1]) == 1 && Occurrences(name, ts[..j2]) == 1
    ensures j1 == j2
  {
    if j1 < j2 {
      PrefixStep(name, ts, j1);
      PrefixMonotone(name, ts, j1 + 1, j2);
    } else if j2 < j1 {
      PrefixStep(name, ts, j2);
      PrefixMonotone(name, ts, j2 + 1, j1);
    }
  }

  /** At most one table is the reported one. */
  lemma ReportedUnique(ts: seq<Table>, j1: int, j2: int)
    requires Reported(ts, j1) && Reported(ts, j2)
    ensures j1 == j2
  {
    var i1 :| FirstTwice(ts, i1) && ts[i1].name == ts[j1].name;
    var i2 :| FirstTwice(ts, i2) && ts[i2].name == ts[j2].name;
    FirstTwiceUnique(ts, i1, i2);
    SecondOccurrenceUnique(ts[j1].name, ts, j1, j2);
  }

  /**
   * findDuplicateTable: the duplicate of the first table, in list order,
   * whose name occurs twice; null exactly when all names are distinct.
   */
  method FindDuplicateTable(ts: seq<Table>) returns (r: Option<Table>)
    ensures r.None? <==> NamesDistinct(ts)
    ensures r.Some? ==> exists j :: Reported(ts, j) && ts[j] == r.value
  {
    DistinctIffNoneTwice(ts);
    var i := 0;
    while i < |ts|
      invariant 0 <= i <= |ts|
      invariant forall k :: 0 <= k < i ==> Occurrences(ts[k].name, ts) < 2
    {
      var duplicate := GetDuplicateTable(ts[i], ts);
      if duplicate.Some? {
        assert FirstTwice(ts, i);
        return duplicate;
      }
      i := i + 1;
    }
    return None;
  }

  /**
   * validate: an error exactly when a name is duplicated, pointing at the
   * reported table, the second one carrying the first duplicated name.
   */
  method Validate(ts: seq<Table>) returns (error: Option<ValidatorError>)
    ensures error.None? <==> NamesDistinct(ts)
    ensures error.Some? ==> exists j :: Reported(ts, j)
                                        && error.value == ValidatorError(ts[j].element, DuplicateMessage(ts[j].name))
  {
    var table := FindDuplicateTable(ts);
    if table.Some? {
      var t := table.value;
      return Some(ValidatorError(t.element, DuplicateMessage(t.name)));
    }
    return None;
  }
}
