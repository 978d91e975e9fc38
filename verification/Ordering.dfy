/** Go's string order and the sorts the service makes with it. The sort itself is a library call: what matters is
    that it returns an ascending rearrangement, and that without ties there is only one. */
module Ordering {
  import opened Basics

  /** Go's `<` on strings and PostgreSQL's `collate "C"`: the first differing byte decides, a proper prefix is
      smaller. */
  predicate Less(a: Bytes, b: Bytes) {
    b != [] && (a == [] || a[0] < b[0] || (a[0] == b[0] && Less(a[1..], b[1..])))
  }

  lemma {:induction false} LessIrreflexive(a: Bytes)
    ensures !Less(a, a)
  {
    if a != [] {
      LessIrreflexive(a[1..]);
    }
  }

  lemma {:induction false} LessTransitive(a: Bytes, b: Bytes, c: Bytes)
    requires Less(a, b) && Less(b, c)
    ensures Less(a, c)
  {
    if a != [] && a[0] == b[0] && b[0] == c[0] {
      LessTransitive(a[1..], b[1..], c[1..]);
    }
  }

  lemma {:induction false} LessTotal(a: Bytes, b: Bytes)
    ensures a == b || Less(a, b) || Less(b, a)
  {
    if a != [] && b != [] && a[0] == b[0] {
      LessTotal(a[1..], b[1..]);
      assert a == [a[0]] + a[1..] && b == [b[0]] + b[1..];
    }
  }

  /** The same order without recursion. */
  ghost predicate Earlier(a: Bytes, b: Bytes) {
    (|a| < |b| && b[..|a|] == a) || DiffersBelow(a, b)
  }

  /** The first bytes that differ, and the one of a is smaller. */
  ghost predicate DiffersBelow(a: Bytes, b: Bytes) {
    exists n :: 0 <= n < |a| && n < |b| && a[..n] == b[..n] && a[n] < b[n]
  }

  lemma {:induction false} LessIffEarlier(a: Bytes, b: Bytes)
    ensures Less(a, b) <==> Earlier(a, b)
  {
    if a != [] && b != [] {
      LessIffEarlier(a[1..], b[1..]);
      EarlierTails(a, b);
    }
  }

  lemma EarlierTails(a: Bytes, b: Bytes)
    requires a != [] && b != []
    ensures Earlier(a, b) <==> a[0] < b[0] || (a[0] == b[0] && Earlier(a[1..], b[1..]))
  {
    EarlierHeads(a, b);
    if a[0] < b[0] {
      assert a[..0] == b[..0];
    }
    if a[0] == b[0] {
      PrefixTails(a, b);
      DifferenceTails(a, b);
    }
  }

  lemma EarlierHeads(a: Bytes, b: Bytes)
    requires a != [] && b != []
    ensures Earlier(a, b) ==> a[0] <= b[0]
  {
    if |a| < |b| && b[..|a|] == a {
      assert b[..|a|][0] == a[0];
    }
    if DiffersBelow(a, b) {
      var n :| 0 <= n < |a| && n < |b| && a[..n] == b[..n] && a[n] < b[n];
      if n > 0 {
        assert a[..n][0] == a[0] && b[..n][0] == b[0];
      }
    }
  }

  lemma PrefixTails(a: Bytes, b: Bytes)
    requires a != [] && b != [] && a[0] == b[0]
    ensures |a| < |b| && b[..|a|] == a <==> |a[1..]| < |b[1..]| && b[1..][..|a[1..]|] == a[1..]
  {
    if |a| < |b| {
      assert b[..|a|] == [b[0]] + b[1..][..|a[1..]|];
      assert b[1..][..|a[1..]|] == b[..|a|][1..];
    }
  }

  lemma DifferenceTails(a: Bytes, b: Bytes)
    requires a != [] && b != [] && a[0] == b[0]
    ensures DiffersBelow(a, b) <==> DiffersBelow(a[1..], b[1..])
  {
    if DiffersBelow(a, b) {
      var n :| 0 <= n < |a| && n < |b| && a[..n] == b[..n] && a[n] < b[n];
      assert a[1..][..n - 1] == a[..n][1..] && b[1..][..n - 1] == b[..n][1..];
      assert a[1..][n - 1] < b[1..][n - 1];
    }
    if DiffersBelow(a[1..], b[1..]) {
      var n :| 0 <= n < |a[1..]| && n < |b[1..]| && a[1..][..n] == b[1..][..n] && a[1..][n] < b[1..][n];
      assert a[..n + 1] == [a[0]] + a[1..][..n] && b[..n + 1] == [b[0]] + b[1..][..n];
      assert a[n + 1] < b[n + 1];
    }
  }

  /** The first byte that differs decides, whatever comes before and after. */
  lemma FirstDifference(p: Bytes, x: byte, s: Bytes, y: byte, t: Bytes)
    requires x < y
    ensures Less(p + [x] + s, p + [y] + t) && !Less(p + [y] + t, p + [x] + s)
  {
    var a, b := p + [x] + s, p + [y] + t;
    assert a[..|p|] == p == b[..|p|] && a[|p|] == x && b[|p|] == y;
    LessIffEarlier(a, b);
    if Less(b, a) {
      LessTransitive(a, b, a);
      LessIrreflexive(a);
    }
  }

  lemma PrefixFirst(p: Bytes, s: Bytes)
    requires s != []
    ensures Less(p, p + s) && !Less(p + s, p)
  {
    assert (p + s)[..|p|] == p;
    LessIffEarlier(p, p + s);
    if Less(p + s, p) {
      LessTransitive(p, p + s, p);
      LessIrreflexive(p);
    }
  }

  ghost predicate StrictOrder<T(!new)>(less: (T, T) -> bool) {
    && (forall a :: !less(a, a))
    && (forall a, b, c :: less(a, b) && less(b, c) ==> less(a, c))
  }

  predicate Ascending<T>(s: seq<T>, less: (T, T) -> bool) {
    forall i, j :: 0 <= i < j < |s| ==> less(s[i], s[j])
  }

  predicate NoTies<T>(s: seq<T>, less: (T, T) -> bool) {
    forall i, j :: 0 <= i < j < |s| ==> less(s[i], s[j]) || less(s[j], s[i])
  }

  function Insert<T>(x: T, s: seq<T>, less: (T, T) -> bool): seq<T> {
    if s == [] || less(x, s[0]) then [x] + s else [s[0]] + Insert(x, s[1..], less)
  }

  function Sort<T>(s: seq<T>, less: (T, T) -> bool): seq<T> {
    if s == [] then [] else Insert(s[0], Sort(s[1..], less), less)
  }

  lemma {:induction false} InsertContents<T>(x: T, s: seq<T>, less: (T, T) -> bool)
    ensures multiset(Insert(x, s, less)) == multiset{x} + multiset(s)
  {
    if s != [] {
      assert s == [s[0]] + s[1..];
      InsertContents(x, s[1..], less);
    }
  }

  lemma {:induction false} SortContents<T>(s: seq<T>, less: (T, T) -> bool)
    ensures multiset(Sort(s, less)) == multiset(s)
    ensures |Sort(s, less)| == |s|
  {
    if s != [] {
      assert s == [s[0]] + s[1..];
      SortContents(s[1..], less);
      InsertContents(s[0], Sort(s[1..], less), less);
    }
    assert |multiset(Sort(s, less))| == |multiset(s)|;
  }

  lemma SortElements<T>(s: seq<T>, less: (T, T) -> bool)
    ensures forall x :: x in Sort(s, less) <==> x in s
  {
    SortContents(s, less);
    forall x ensures x in Sort(s, less) <==> x in s {
      assert x in Sort(s, less) <==> x in multiset(Sort(s, less));
      assert x in s <==> x in multiset(s);
    }
  }

  lemma {:induction false} InsertAscending<T(!new)>(x: T, s: seq<T>, less: (T, T) -> bool)
    requires StrictOrder(less) && Ascending(s, less)
    requires forall y :: y in s ==> less(x, y) || less(y, x)
    ensures Ascending(Insert(x, s, less), less)
  {
    if s != [] && !less(x, s[0]) {
      var tail := s[1..];
      InsertAscending(x, tail, less);
      InsertContents(x, tail, less);
      var rest := Insert(x, tail, less);
      forall j | 0 <= j < |rest| ensures less(s[0], rest[j]) {
        assert rest[j] in multiset(rest);
        assert rest[j] == x || rest[j] in multiset(tail);
      }
    }
  }

  lemma {:induction false} SortAscending<T(!new)>(s: seq<T>, less: (T, T) -> bool)
    requires StrictOrder(less) && NoTies(s, less)
    ensures Ascending(Sort(s, less), less)
  {
    if s != [] {
      SortAscending(s[1..], less);
      SortElements(s[1..], less);
      InsertAscending(s[0], Sort(s[1..], less), less);
    }
  }

  /** Without ties the ascending arrangement is unique, so neither the sorting algorithm nor the order in which Go's
      map iteration produced the items can show in the result. */
  lemma {:induction false} AscendingUnique<T(!new)>(s: seq<T>, t: seq<T>, less: (T, T) -> bool)
    requires StrictOrder(less) && Ascending(s, less) && Ascending(t, less)
    requires forall x :: x in s <==> x in t
    ensures s == t
  {
    if s == [] {
      if t != [] {
        NonEmpty(t);
      }
    } else {
      assert s[0] in s;
      assert s[0] in t && t[0] in s;
      assert s[0] == t[0];
      forall x ensures x in s[1..] <==> x in t[1..] {
        TailElements(s, x, less);
        TailElements(t, x, less);
      }
      AscendingUnique(s[1..], t[1..], less);
    }
  }

  lemma NonEmpty<T>(t: seq<T>)
    requires t != []
    ensures exists x :: x in t
  {
    assert t[0] in t;
  }

  lemma TailElements<T(!new)>(s: seq<T>, x: T, less: (T, T) -> bool)
    requires StrictOrder(less) && Ascending(s, less) && s != []
    ensures x in s[1..] <==> x in s && x != s[0]
  {
  }

  lemma AlreadySorted<T(!new)>(s: seq<T>, less: (T, T) -> bool)
    requires StrictOrder(less) && Ascending(s, less)
    ensures Sort(s, less) == s
  {
    SortAscending(s, less);
    SortElements(s, less);
    AscendingUnique(Sort(s, less), s, less);
  }

  function ByBytes(): (Bytes, Bytes) -> bool {
    (a, b) => Less(a, b)
  }

  lemma BytesOrder()
    ensures StrictOrder(ByBytes())
  {
    forall a ensures !ByBytes()(a, a) {
      LessIrreflexive(a);
    }
    forall a, b, c | ByBytes()(a, b) && ByBytes()(b, c) ensures ByBytes()(a, c) {
      LessTransitive(a, b, c);
    }
  }
}
