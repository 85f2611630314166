/** Splitting at a separator, joining, and filtering. */
module Splitting {

  /** The pieces between separators; always at least one, possibly empty ones. */
  function Split<T(==)>(s: seq<T>, sep: T): (r: seq<seq<T>>)
    ensures |r| >= 1
  {
    if s == [] then [[]]
    else
      var tail := Split(s[1..], sep);
      if s[0] == sep then [[]] + tail else [[s[0]] + tail[0]] + tail[1..]
  }

  function Join<T>(parts: seq<seq<T>>, sep: seq<T>): seq<T> {
    if parts == [] then []
    else if |parts| == 1 then parts[0]
    else parts[0] + sep + Join(parts[1..], sep)
  }

  function Filter<T>(keep: T -> bool, s: seq<T>): seq<T> {
    if s == [] then []
    else (if keep(s[0]) then [s[0]] else []) + Filter(keep, s[1..])
  }

  lemma {:induction false} SplitConcat<T>(a: seq<T>, b: seq<T>, sep: T)
    ensures Split(a + [sep] + b, sep) == Split(a, sep) + Split(b, sep)
  {
    var s := a + [sep] + b;
    if a == [] {
      assert s[1..] == b;
    } else {
      var x, y := Split(a[1..], sep), Split(b, sep);
      assert s[0] == a[0] && s[1..] == a[1..] + [sep] + b;
      SplitConcat(a[1..], b, sep);
      SplitHead(a, sep, x, y);
    }
  }

  lemma SplitHead<T>(a: seq<T>, sep: T, x: seq<seq<T>>, y: seq<seq<T>>)
    requires a != [] && x == Split(a[1..], sep)
    ensures Split(a, sep) + y ==
            if a[0] == sep then [[]] + (x + y) else [[a[0]] + (x + y)[0]] + (x + y)[1..]
  {
    assert (x + y)[1..] == x[1..] + y;
  }

  lemma {:induction false} SplitSingle<T>(a: seq<T>, sep: T)
    requires sep !in a
    ensures Split(a, sep) == [a]
  {
    if a != [] {
      SplitSingle(a[1..], sep);
      assert [a[0]] + a[1..] == a;
    }
  }

  /** No piece contains the separator, or anything that was not there. */
  lemma {:induction false} SplitPieces<T>(s: seq<T>, sep: T)
    ensures forall p <- Split(s, sep) :: sep !in p && forall x <- p :: x in s
  {
    if s != [] {
      SplitPieces(s[1..], sep);
      var tail := Split(s[1..], sep);
      assert tail[0] in tail;
      assert forall p <- tail[1..] :: p in tail;
      assert forall x <- s[1..] :: x in s;
    }
  }

  /** Splitting undoes joining when no part contains the separator. */
  lemma {:induction false} SplitJoin<T>(parts: seq<seq<T>>, sep: T)
    requires parts != [] && forall p <- parts :: sep !in p
    ensures Split(Join(parts, [sep]), sep) == parts
  {
    SplitSingle(parts[0], sep);
    if |parts| > 1 {
      SplitJoin(parts[1..], sep);
      SplitConcat(parts[0], Join(parts[1..], [sep]), sep);
    }
  }

  lemma FilterFirst<T>(keep: T -> bool, x: T, s: seq<T>)
    ensures Filter(keep, [x] + s) == (if keep(x) then [x] else []) + Filter(keep, s)
  {
    assert ([x] + s)[1..] == s;
  }

  lemma {:induction false} FilterConcat<T>(keep: T -> bool, a: seq<T>, b: seq<T>)
    ensures Filter(keep, a + b) == Filter(keep, a) + Filter(keep, b)
  {
    if a == [] {
      assert a + b == b;
    } else {
      hide Filter;
      assert a + b == [a[0]] + (a[1..] + b);
      FilterFirst(keep, a[0], a[1..] + b);
      FilterFirst(keep, a[0], a[1..]);
      assert a == [a[0]] + a[1..];
      FilterConcat(keep, a[1..], b);
    }
  }

  lemma {:induction false} FilterSubset<T>(keep: T -> bool, s: seq<T>)
    ensures forall x <- Filter(keep, s) :: x in s && keep(x)
  {
    if s != [] {
      FilterSubset(keep, s[1..]);
    }
  }

  lemma FilterOneMore<T>(keep: T -> bool, s: seq<T>, x: T)
    ensures Filter(keep, s + [x]) == if keep(x) then Filter(keep, s) + [x] else Filter(keep, s)
  {
    FilterConcat(keep, s, [x]);
    assert [x][1..] == [];
  }
}
