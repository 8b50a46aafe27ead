/**
 * Text helpers shared by the SQL compilers: joining with a separator, the
 * "append each item followed by a separator" buffer that the builders trim,
 * placeholder counting and binding, character replacement and the decimal
 * text of a Java int.
 */
module Text {

  /** The placeholder token of a parameterised SQLite statement. */
  const Placeholder: char := '?'

  /** The items separated by `sep`: `a sep b sep c`; the empty list gives "". */
  function JoinWith(xs: seq<string>, sep: string): string
    decreases |xs|
  {
    if |xs| == 0 then ""
    else if |xs| == 1 then xs[0]
    else JoinWith(xs[..|xs| - 1], sep) + sep + xs[|xs| - 1]
  }

  /**
   * What a StringBuilder holds after appending every item followed by the
   * separator: `a sep b sep c sep`.
   */
  function Terminated(xs: seq<string>, sep: string): string
    decreases |xs|
  {
    if |xs| == 0 then "" else Terminated(xs[..|xs| - 1], sep) + xs[|xs| - 1] + sep
  }

  /** Appending one more item and its separator to a buffer that starts with `prefix`. */
  lemma TerminatedSnoc(prefix: string, xs: seq<string>, x: string, sep: string)
    ensures prefix + Terminated(xs + [x], sep) == prefix + Terminated(xs, sep) + x + sep
  {
    assert (xs + [x])[..|xs|] == xs;
  }

  /** Two terminated lists written one after the other are the terminated concatenation. */
  lemma {:induction false} TerminatedAppend(prefix: string, a: seq<string>, b: seq<string>, sep: string)
    ensures prefix + Terminated(a, sep) + Terminated(b, sep) == prefix + Terminated(a + b, sep)
    decreases |b|
  {
    if |b| == 0 {
      assert a + b == a;
    } else {
      var init, x := b[..|b| - 1], b[|b| - 1];
      TerminatedAppend(prefix, a, init, sep);
      assert a + b == (a + init) + [x];
      TerminatedSnoc(prefix, a + init, x, sep);
    }
  }

  /** Removing the last separator of a non-empty terminated list leaves the joined list. */
  lemma {:induction false} TerminatedIsJoinedPlusSep(xs: seq<string>, sep: string)
    requires |xs| >= 1
    ensures Terminated(xs, sep) == JoinWith(xs, sep) + sep
    decreases |xs|
  {
    if |xs| > 1 {
      var init := xs[..|xs| - 1];
      assert init[..|init| - 1] == xs[..|xs| - 2];
      TerminatedIsJoinedPlusSep(init, sep);
    } else {
      assert xs[..0] == [];
    }
  }

  /** Joining one more item appends the separator and that item. */
  lemma JoinSnoc(xs: seq<string>, x: string, sep: string)
    ensures JoinWith(xs + [x], sep) == if |xs| == 0 then x else JoinWith(xs, sep) + sep + x
  {
    assert (xs + [x])[..|xs|] == xs;
  }

  /** Joining a list that starts with `x`. */
  lemma {:induction false} JoinCons(x: string, xs: seq<string>, sep: string)
    ensures JoinWith([x] + xs, sep) == if |xs| == 0 then x else x + sep + JoinWith(xs, sep)
    decreases |xs|
  {
    if |xs| > 0 {
      var n := |xs| - 1;
      assert ([x] + xs)[..|xs|] == [x] + xs[..n];
      JoinCons(x, xs[..n], sep);
      if n > 0 {
        assert xs[..n][..n - 1] == xs[..n - 1];
      }
    }
  }

  /** The lists one after the other, in order; on strings, their concatenation. */
  function Flatten<T>(ys: seq<seq<T>>): seq<T>
    decreases |ys|
  {
    if |ys| == 0 then [] else Flatten(ys[..|ys| - 1]) + ys[|ys| - 1]
  }

  /** Concatenation is joining with the empty separator. */
  lemma {:induction false} FlattenIsJoinWithoutSeparator(xs: seq<string>)
    ensures Flatten(xs) == JoinWith(xs, "")
    decreases |xs|
  {
    if |xs| == 1 {
      assert xs[..0] == [];
    } else if |xs| > 1 {
      FlattenIsJoinWithoutSeparator(xs[..|xs| - 1]);
    }
  }

  lemma {:induction false} FlattenAppend<T>(a: seq<seq<T>>, b: seq<seq<T>>)
    ensures Flatten(a + b) == Flatten(a) + Flatten(b)
    decreases |b|
  {
    if |b| == 0 {
      assert a + b == a;
    } else {
      var n := |b| - 1;
      assert (a + b)[..|a + b| - 1] == a + b[..n];
      FlattenAppend(a, b[..n]);
    }
  }

  /** StringBuilder.delete(start, length()): drops the tail from `start` on; a negative start throws. */
  function DeleteFrom(s: string, start: int): string
    requires 0 <= start <= |s|
  {
    s[..start]
  }

  /** The number of placeholders in `s`. */
  function Count(s: string): nat
    decreases |s|
  {
    if |s| == 0 then 0 else (if s[0] == Placeholder then 1 else 0) + Count(s[1..])
  }

  lemma {:induction false} CountAppend(a: string, b: string)
    ensures Count(a + b) == Count(a) + Count(b)
    decreases |a|
  {
    if |a| > 0 {
      assert (a + b)[1..] == a[1..] + b;
      CountAppend(a[1..], b);
    } else {
      assert a + b == b;
    }
  }

  /**
   * The statement text with the i-th placeholder replaced by the i-th
   * argument: what the engine evaluates when it binds `args` to `t`.
   */
  function Bind(t: string, args: seq<string>): string
    requires Count(t) == |args|
    decreases |t|
  {
    if |t| == 0 then ""
    else if t[0] == Placeholder then args[0] + Bind(t[1..], args[1..])
    else [t[0]] + Bind(t[1..], args)
  }

  /** Binding distributes over concatenation: each part takes its own run of arguments. */
  lemma {:induction false} BindAppend(a: string, b: string, args: seq<string>)
    requires Count(a) + Count(b) == |args|
    ensures Count(a + b) == |args|
    ensures Bind(a + b, args) == Bind(a, args[..Count(a)]) + Bind(b, args[Count(a)..])
    decreases |a|
  {
    CountAppend(a, b);
    if |a| == 0 {
      assert a + b == b;
      assert args[Count(a)..] == args;
    } else {
      var tail := a[1..];
      assert (a + b)[1..] == tail + b;
      CountAppend(tail, b);
      var right := Bind(b, args[Count(a)..]);
      if a[0] == Placeholder {
        var left := Bind(tail, args[..Count(a)][1..]);
        BindAppend(tail, b, args[1..]);
        assert args[1..][..Count(tail)] == args[..Count(a)][1..];
        assert args[1..][Count(tail)..] == args[Count(a)..];
        assert Bind(a + b, args) == args[0] + (left + right);
        assert Bind(a, args[..Count(a)]) == args[0] + left;
      } else {
        BindAppend(tail, b, args);
        assert Bind(a + b, args) == [a[0]] + (Bind(tail, args[..Count(a)]) + right);
      }
    }
  }

  /** Text without placeholders binds to itself. */
  lemma {:induction false} BindPlain(t: string)
    requires Count(t) == 0
    ensures Bind(t, []) == t
    decreases |t|
  {
    if |t| > 0 {
      BindPlain(t[1..]);
    }
  }

  /** `f` applied to every item, in order. */
  function MapSeq<A, B>(xs: seq<A>, f: A -> B): seq<B>
  {
    seq(|xs|, i requires 0 <= i < |xs| => f(xs[i]))
  }

  lemma MapSeqAppend<A, B>(a: seq<A>, b: seq<A>, f: A -> B)
    ensures MapSeq(a + b, f) == MapSeq(a, f) + MapSeq(b, f)
  {
    forall i | 0 <= i < |a| + |b| ensures MapSeq(a + b, f)[i] == (MapSeq(a, f) + MapSeq(b, f))[i] {
      if i < |a| {
        assert (a + b)[i] == a[i];
      } else {
        assert (a + b)[i] == b[i - |a|];
      }
    }
  }

  /** Mapping a prefix one longer appends the image of the next item. */
  lemma MapSeqPrefixStep<A, B>(xs: seq<A>, i: nat, f: A -> B)
    requires i < |xs|
    ensures MapSeq(xs[..i + 1], f) == MapSeq(xs[..i], f) + [f(xs[i])]
  {
    assert xs[..i + 1] == xs[..i] + [xs[i]];
    MapSeqAppend(xs[..i], [xs[i]], f);
  }

  /** Flattening a prefix one longer appends the next item. */
  lemma FlattenPrefixStep<T>(xs: seq<seq<T>>, i: nat)
    requires i < |xs|
    ensures Flatten(xs[..i + 1]) == Flatten(xs[..i]) + xs[i]
  {
    assert xs[..i + 1] == xs[..i] + [xs[i]];
    FlattenSnoc(xs[..i], xs[i]);
  }

  lemma {:induction false} FlattenSnoc<T>(ys: seq<seq<T>>, y: seq<T>)
    ensures Flatten(ys + [y]) == Flatten(ys) + y
  {
    assert (ys + [y])[..|ys|] == ys;
  }

  /**
   * Lock-step through a separated list: when every item binds its own
   * arguments to some text and the separator holds no placeholder, the joined
   * items bind the flattened arguments to the joined texts.
   */
  lemma {:induction false} BindJoin(xs: seq<string>, ys: seq<seq<string>>, zs: seq<string>, sep: string)
    requires |xs| == |ys| == |zs|
    requires Count(sep) == 0
    requires forall i :: 0 <= i < |xs| ==> Count(xs[i]) == |ys[i]|
    requires forall i :: 0 <= i < |xs| ==> Bind(xs[i], ys[i]) == zs[i]
    ensures Count(JoinWith(xs, sep)) == |Flatten(ys)|
    ensures Bind(JoinWith(xs, sep), Flatten(ys)) == JoinWith(zs, sep)
    decreases |xs|
  {
    if |xs| == 1 {
      assert ys[..0] == [];
      assert Flatten(ys) == ys[0];
    } else if |xs| > 1 {
      var n := |xs| - 1;
      BindJoin(xs[..n], ys[..n], zs[..n], sep);
      var head := JoinWith(xs[..n], sep);
      var flat := Flatten(ys[..n]);
      assert Flatten(ys) == flat + ys[n];
      CountAppend(head, sep);
      BindAppend(head, sep, flat);
      assert flat[..Count(head)] == flat;
      assert flat[Count(head)..] == [];
      BindPlain(sep);
      assert Bind(head + sep, flat) == JoinWith(zs[..n], sep) + sep;
      BindAppend(head + sep, xs[n], flat + ys[n]);
      assert (flat + ys[n])[..|flat|] == flat;
      assert (flat + ys[n])[|flat|..] == ys[n];
    }
  }

  /** Binding into text with no placeholder before and after the bound part. */
  lemma BindWrap(pre: string, t: string, post: string, args: seq<string>)
    requires Count(pre) == 0 && Count(post) == 0 && Count(t) == |args|
    ensures Count(pre + t + post) == |args|
    ensures Bind(pre + t + post, args) == pre + Bind(t, args) + post
  {
    BindAppend(pre, t, args);
    BindPlain(pre);
    assert args[..0] == [] && args[0..] == args;
    CountAppend(pre, t);
    BindAppend(pre + t, post, args);
    BindPlain(post);
    assert args[..|args|] == args && args[|args|..] == [];
  }

  /** `n` copies of `s`. */
  function Repeat(s: string, n: nat): seq<string>
  {
    seq(n, i => s)
  }

  /** Each item as a one-element list. */
  function Singletons(xs: seq<string>): seq<seq<string>>
  {
    seq(|xs|, i requires 0 <= i < |xs| => [xs[i]])
  }

  lemma {:induction false} FlattenSingletons(xs: seq<string>)
    ensures Flatten(Singletons(xs)) == xs
    decreases |xs|
  {
    if |xs| > 0 {
      var n := |xs| - 1;
      assert Singletons(xs)[..n] == Singletons(xs[..n]);
      FlattenSingletons(xs[..n]);
    }
  }

  /** `n` comma-separated placeholders bind `n` values to the comma-separated values. */
  lemma Placeholders(values: seq<string>, sep: string)
    requires Count(sep) == 0
    ensures Count(JoinWith(Repeat("?", |values|), sep)) == |values|
    ensures Bind(JoinWith(Repeat("?", |values|), sep), values) == JoinWith(values, sep)
  {
    FlattenSingletons(values);
    BindJoin(Repeat("?", |values|), Singletons(values), values, sep);
  }

  /** `s` with every occurrence of `from` replaced by `to`, as Java's String.replace does. */
  function Replace(s: string, from: char, to: char): (r: string)
    ensures |r| == |s|
    ensures from != to ==> from !in r
    ensures forall i :: 0 <= i < |s| && s[i] != from ==> r[i] == s[i]
  {
    seq(|s|, i requires 0 <= i < |s| => if s[i] == from then to else s[i])
  }

  /** The decimal digit `d`. */
  function DigitChar(d: nat): char
    requires d < 10
  {
    "0123456789"[d]
  }

  /** The value of a decimal digit character. */
  function DigitValue(c: char): nat
  {
    if '0' <= c <= '9' then (c as int) - ('0' as int) else 0
  }

  /** Decimal text of a natural number, without leading zeros. */
  function NatText(n: nat): string
    decreases n
  {
    if n < 10 then [DigitChar(n)] else NatText(n / 10) + [DigitChar(n % 10)]
  }

  /** Decimal text of an int, as StringBuilder.append(int) writes it. */
  function IntText(n: int): string
  {
    if n < 0 then "-" + NatText(-n) else NatText(n)
  }

  function ParseNat(s: string): nat
    decreases |s|
  {
    if |s| == 0 then 0 else ParseNat(s[..|s| - 1]) * 10 + DigitValue(s[|s| - 1])
  }

  function ParseInt(s: string): int
  {
    if |s| > 0 && s[0] == '-' then -(ParseNat(s[1..]) as int) else ParseNat(s)
  }

  predicate IsDigit(c: char)
  {
    '0' <= c <= '9'
  }

  /** Every digit character is a digit and reads back as its value. */
  lemma DigitRoundTrip(d: nat)
    requires d < 10
    ensures IsDigit(DigitChar(d)) && DigitValue(DigitChar(d)) == d
  {
  }

  lemma {:induction false} NatTextRoundTrip(n: nat)
    ensures |NatText(n)| > 0
    ensures forall i :: 0 <= i < |NatText(n)| ==> IsDigit(NatText(n)[i])
    ensures ParseNat(NatText(n)) == n
    decreases n
  {
    if n < 10 {
      DigitRoundTrip(n);
    } else {
      DigitRoundTrip(n % 10);
      NatTextRoundTrip(n / 10);
      var s := NatText(n);
      assert s[..|s| - 1] == NatText(n / 10);
    }
  }

  /** Reading back the decimal text of an int gives the int; the text is never empty and has no comma. */
  lemma IntTextRoundTrip(n: int)
    ensures |IntText(n)| > 0
    ensures ',' !in IntText(n)
    ensures ParseInt(IntText(n)) == n
  {
    NatTextRoundTrip(if n < 0 then -n else n);
    if n < 0 {
      assert IntText(n)[1..] == NatText(-n);
    }
  }

  /** Index of the first `ch` in `s`, or |s| when there is none. */
  function IndexOf(s: string, ch: char): (k: nat)
    ensures k <= |s|
    ensures forall i :: 0 <= i < k ==> s[i] != ch
    ensures k < |s| ==> s[k] == ch
    decreases |s|
  {
    if |s| == 0 then 0 else if s[0] == ch then 0 else 1 + IndexOf(s[1..], ch)
  }
}
