/** What sort.Strings promises: a permutation in byte order. Permutations and orders determine it. */
module Sorting {
  import opened Text

  ghost predicate Ordered(s: seq<string>) {
    forall i, j :: 0 <= i < j < |s| ==> !Less(s[j], s[i])
  }

  ghost predicate StrictlyOrdered(s: seq<string>) {
    forall i, j :: 0 <= i < j < |s| ==> Less(s[i], s[j])
  }

  ghost predicate Distinct(s: seq<string>) {
    forall i, j :: 0 <= i < j < |s| ==> s[i] != s[j]
  }

  function Insert(x: string, s: seq<string>): (r: seq<string>)
    ensures |r| == |s| + 1
  {
    if s == [] || !Less(s[0], x) then [x] + s else [s[0]] + Insert(x, s[1..])
  }

  function Sort(s: seq<string>): (r: seq<string>)
    ensures |r| == |s|
  {
    if s == [] then [] else Insert(s[0], Sort(s[1..]))
  }

  lemma HeadStays(x: string, s: seq<string>, r: seq<string>)
    requires s != [] && Ordered(s) && Less(s[0], x)
    requires Ordered(r) && multiset(r) == multiset(s[1..]) + multiset{x}
    ensures Ordered([s[0]] + r)
  {
    forall j | 0 <= j < |r| ensures !Less(r[j], s[0]) {
      assert r[j] in multiset(r);
      if r[j] == x {
        if Less(x, s[0]) { LessTransitive(s[0], x, s[0]); LessIrreflexive(s[0]); }
      } else {
        assert r[j] in s[1..];
      }
    }
  }

  lemma SmallestInFront(x: string, s: seq<string>)
    requires s != [] && Ordered(s) && !Less(s[0], x)
    ensures Ordered([x] + s)
  {
    forall j | 0 <= j < |s| ensures !Less(s[j], x) {
      if j > 0 && Less(s[j], x) {
        LessTotal(x, s[0]);
        if s[0] != x { LessTransitive(s[j], x, s[0]); }
      }
    }
  }

  lemma {:induction false} InsertSpec(x: string, s: seq<string>)
    requires Ordered(s)
    ensures Ordered(Insert(x, s)) && multiset(Insert(x, s)) == multiset(s) + multiset{x}
  {
    if s == [] {
    } else if Less(s[0], x) {
      InsertSpec(x, s[1..]);
      HeadStays(x, s, Insert(x, s[1..]));
      assert s == [s[0]] + s[1..];
    } else {
      SmallestInFront(x, s);
    }
  }

  lemma {:induction false} SortSpec(s: seq<string>)
    ensures Ordered(Sort(s)) && multiset(Sort(s)) == multiset(s)
  {
    if s != [] {
      SortSpec(s[1..]);
      InsertSpec(s[0], Sort(s[1..]));
      assert s == [s[0]] + s[1..];
    }
  }

  lemma SortKeepsMembers(s: seq<string>)
    ensures forall x :: x in Sort(s) <==> x in s
  {
    SortSpec(s);
    assert forall x :: x in Sort(s) <==> x in multiset(Sort(s));
  }

  lemma OrderedHeadsAgree(a: seq<string>, b: seq<string>)
    requires Ordered(a) && Ordered(b) && multiset(a) == multiset(b) && a != []
    ensures b != [] && a[0] == b[0]
  {
    assert a[0] in multiset(a);
    assert b != [];
    assert b[0] in multiset(b);
    var i :| 0 <= i < |b| && b[i] == a[0];
    var j :| 0 <= j < |a| && a[j] == b[0];
    LessTotal(a[0], b[0]);
  }

  /** Ordering leaves no freedom: equal multisets sort to one sequence. */
  lemma {:induction false} OrderedIsUnique(a: seq<string>, b: seq<string>)
    requires Ordered(a) && Ordered(b) && multiset(a) == multiset(b)
    ensures a == b
  {
    assert |multiset(a)| == |a| && |multiset(b)| == |b|;
    if a != [] {
      OrderedHeadsAgree(a, b);
      assert a == [a[0]] + a[1..] && b == [b[0]] + b[1..];
      assert multiset(a[1..]) == multiset(a) - multiset{a[0]};
      assert multiset(b[1..]) == multiset(b) - multiset{b[0]};
      OrderedIsUnique(a[1..], b[1..]);
    }
  }

  lemma SortIgnoresOrder(a: seq<string>, b: seq<string>)
    requires multiset(a) == multiset(b)
    ensures Sort(a) == Sort(b)
  {
    SortSpec(a);
    SortSpec(b);
    OrderedIsUnique(Sort(a), Sort(b));
  }

  /** Distinctness is a matter of multiplicities. */
  lemma DistinctByCount(s: seq<string>)
    ensures Distinct(s) <==> forall x :: multiset(s)[x] <= 1
  {
    if Distinct(s) {
      forall x ensures multiset(s)[x] <= 1 { CountOfDistinct(s, x); }
    } else {
      var i, j :| 0 <= i < j < |s| && s[i] == s[j];
      assert s == s[..j] + [s[j]] + s[j + 1..];
      assert s[i] in s[..j];
      assert multiset(s)[s[j]] == multiset(s[..j])[s[j]] + 1 + multiset(s[j + 1..])[s[j]];
    }
  }

  lemma {:induction false} CountOfDistinct(s: seq<string>, x: string)
    requires Distinct(s)
    ensures multiset(s)[x] <= 1
  {
    if s != [] {
      assert s == [s[0]] + s[1..];
      CountOfDistinct(s[1..], x);
      if x == s[0] { assert x !in s[1..]; }
    }
  }

  lemma SortOfDistinct(s: seq<string>)
    requires Distinct(s)
    ensures StrictlyOrdered(Sort(s)) && Distinct(Sort(s))
  {
    var r := Sort(s);
    SortSpec(s);
    DistinctByCount(s);
    DistinctByCount(r);
    forall i, j | 0 <= i < j < |r| ensures Less(r[i], r[j]) { LessTotal(r[i], r[j]); }
  }
}
