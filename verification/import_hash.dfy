/**
 * The fingerprint text of an import confirmation (internal/application/import_confirmation.go): the selected
 * rows are sorted and compacted inside one array before they are written out.
 */
module ImportHash {
  import opened Text

  // ----- Sorting integers -----

  ghost predicate Ordered(s: seq<int>) {
    forall i, j :: 0 <= i < j < |s| ==> s[i] <= s[j]
  }

  ghost predicate Increasing(s: seq<int>) {
    forall i, j :: 0 <= i < j < |s| ==> s[i] < s[j]
  }

  function Insert(x: int, s: seq<int>): (r: seq<int>)
    ensures |r| == |s| + 1
  {
    if s == [] || x <= s[0] then [x] + s else [s[0]] + Insert(x, s[1..])
  }

  function SortInts(s: seq<int>): (r: seq<int>)
    ensures |r| == |s|
  {
    if s == [] then [] else Insert(s[0], SortInts(s[1..]))
  }

  lemma {:induction false} InsertSpec(x: int, s: seq<int>)
    requires Ordered(s)
    ensures Ordered(Insert(x, s)) && forall y :: y in Insert(x, s) <==> y == x || y in s
  {
    if s != [] && s[0] < x {
      assert s == [s[0]] + s[1..];
      InsertSpec(x, s[1..]);
      var r := Insert(x, s[1..]);
      forall j | 0 <= j < |r| ensures s[0] <= r[j] { assert r[j] in r; }
    }
  }

  lemma {:induction false} SortIntsSpec(s: seq<int>)
    ensures Ordered(SortInts(s)) && forall y :: y in SortInts(s) <==> y in s
  {
    if s != [] {
      assert s == [s[0]] + s[1..];
      SortIntsSpec(s[1..]);
      InsertSpec(s[0], SortInts(s[1..]));
    }
  }

  // ----- Compaction -----

  /** The first n values without those equal to their predecessor. */
  function Compact(s: seq<int>, n: nat): (r: seq<int>)
    requires n <= |s|
    ensures |r| <= n
  {
    if n == 0 then []
    else if n > 1 && s[n - 2] == s[n - 1] then Compact(s, n - 1)
    else Compact(s, n - 1) + [s[n - 1]]
  }

  /** On ordered values that is exactly the set, in increasing order. */
  lemma {:induction false} CompactSpec(s: seq<int>, n: nat)
    requires n <= |s| && Ordered(s)
    ensures Increasing(Compact(s, n))
    ensures forall y :: y in Compact(s, n) <==> exists i :: 0 <= i < n && s[i] == y
    ensures n > 0 ==> Compact(s, n) != [] && Compact(s, n)[|Compact(s, n)| - 1] == s[n - 1]
  {
    if n > 0 { CompactSpec(s, n - 1); }
  }

  /**
   * The loop writes into the array it is still reading: the kept prefix shares storage with the values ahead,
   * and the comparison looks back at a slot that may have been rewritten.
   */
  method CompactInPlace(rows: array<int>) returns (count: nat)
    modifies rows
    ensures count <= rows.Length && rows[..count] == Compact(old(rows[..]), rows.Length)
  {
    count := 0;
    var i := 0;
    while i < rows.Length
      invariant count <= i <= rows.Length
      invariant rows[..count] == Compact(old(rows[..]), i)
      invariant forall j :: i <= j < rows.Length ==> rows[j] == old(rows[j])
      invariant i > 0 ==> rows[i - 1] == old(rows[i - 1])
    {
      var row := rows[i];
      if i == 0 || rows[i - 1] != row {
        rows[count] := row;
        count := count + 1;
      }
      i := i + 1;
    }
    assert old(rows[..]) == old(rows[..])[..rows.Length];
  }

  /** The selected rows as they enter the fingerprint. */
  function Selection(selected: seq<int>): seq<int> {
    Compact(SortInts(selected), |selected|)
  }

  /** Works on a copy, so the caller's rows stay as they are. */
  method UniqueRows(selected: array<int>) returns (unique: seq<int>)
    ensures unique == Selection(selected[..])
  {
    var rows := new int[selected.Length];
    forall i | 0 <= i < selected.Length { rows[i] := selected[i]; }
    assert rows[..] == selected[..];
    SortArray(rows);
    var count := CompactInPlace(rows);
    unique := rows[..count];
  }

  /** The library's sort. */
  method SortArray(rows: array<int>)
    modifies rows
    ensures rows[..] == SortInts(old(rows[..]))
  {
    var sorted := SortInts(rows[..]);
    forall i | 0 <= i < rows.Length { rows[i] := sorted[i]; }
  }

  // ----- The fingerprint depends on the set of rows -----

  lemma SelectionSpec(selected: seq<int>)
    ensures Increasing(Selection(selected)) && forall y :: y in Selection(selected) <==> y in selected
  {
    var sorted := SortInts(selected);
    SortIntsSpec(selected);
    CompactSpec(sorted, |sorted|);
    assert forall y :: y in sorted <==> exists i :: 0 <= i < |sorted| && sorted[i] == y;
  }

  lemma NoneMissing(a: seq<int>, b: seq<int>)
    requires a != [] && forall y :: y in a ==> y in b
    ensures b != []
  {
    var first := a[0];
    assert first in a;
    assert first in b;
  }

  lemma {:induction false} IncreasingIsItsSet(a: seq<int>, b: seq<int>)
    requires Increasing(a) && Increasing(b) && forall y :: y in a <==> y in b
    ensures a == b
  {
    if a == [] {
      if b != [] { NoneMissing(b, a); }
    } else {
      NoneMissing(a, b);
      assert a[0] in b && b[0] in a;
      var i :| 0 <= i < |b| && b[i] == a[0];
      var j :| 0 <= j < |a| && a[j] == b[0];
      forall y ensures y in a[1..] <==> y in b[1..] {
        assert y in a <==> y in b;
        assert a == [a[0]] + a[1..] && b == [b[0]] + b[1..];
      }
      IncreasingIsItsSet(a[1..], b[1..]);
    }
  }

  /** Order and repetition of the selected rows play no part; the set of rows is all that is left. */
  lemma SelectionIsTheSet(a: seq<int>, b: seq<int>)
    ensures Selection(a) == Selection(b) <==> forall y :: y in a <==> y in b
  {
    SelectionSpec(a);
    SelectionSpec(b);
    if forall y :: y in a <==> y in b { IncreasingIsItsSet(Selection(a), Selection(b)); }
  }

  // ----- The text -----

  function Numerals(rows: seq<int>): (r: seq<string>)
    ensures |r| == |rows|
    ensures forall i :: 0 <= i < |rows| ==> r[i] == Itoa(rows[i])
  {
    if rows == [] then [] else Numerals(rows[..|rows| - 1]) + [Itoa(rows[|rows| - 1])]
  }

  datatype Request = Request(operation: string, contentHash: string, resourceType: string, selected: seq<int>)

  function Header(r: Request): seq<string> {
    [Trim(r.operation), Lower(Trim(r.contentHash)), Upper(Trim(r.resourceType))]
  }

  /** What is hashed. */
  function FingerprintText(r: Request): string {
    Join(Header(r) + [Join(Numerals(Selection(r.selected)), ',')], '\n')
  }

  lemma NumeralsAreClean(rows: seq<int>)
    ensures forall p :: p in Numerals(rows) ==> ',' !in p && '\n' !in p && p != ""
  {
    forall p | p in Numerals(rows) ensures ',' !in p && '\n' !in p && p != "" {
      var i :| 0 <= i < |rows| && Numerals(rows)[i] == p;
      assert p == Itoa(rows[i]);
    }
  }

  lemma {:induction false} JoinHasNo(parts: seq<string>, sep: char, c: char)
    requires c != sep && forall p :: p in parts ==> c !in p
    ensures c !in Join(parts, sep)
  {
    if |parts| > 1 { JoinHasNo(parts[1..], sep, c); }
  }

  lemma RowTextInjective(a: seq<int>, b: seq<int>)
    requires Join(Numerals(a), ',') == Join(Numerals(b), ',')
    ensures a == b
  {
    NumeralsAreClean(a);
    NumeralsAreClean(b);
    if a != [] { assert Numerals(a)[0] in Numerals(a); }
    if b != [] { assert Numerals(b)[0] in Numerals(b); }
    if a != [] && b != [] {
      JoinInjective(Numerals(a), Numerals(b), ',');
      forall i | 0 <= i < |a| ensures a[i] == b[i] { ItoaInjective(a[i], b[i]); }
    }
  }

  /**
   * Two requests are fingerprinted alike exactly when they agree on operation, content, resource type and the
   * set of rows; one of them has to keep line breaks out of its three names for that.
   */
  lemma FingerprintIdentifies(a: Request, b: Request)
    requires forall p :: p in Header(a) ==> '\n' !in p
    ensures FingerprintText(a) == FingerprintText(b)
      <==> Header(a) == Header(b) && forall y :: y in a.selected <==> y in b.selected
  {
    var rowsA, rowsB := Numerals(Selection(a.selected)), Numerals(Selection(b.selected));
    NumeralsAreClean(Selection(a.selected));
    JoinHasNo(rowsA, ',', '\n');
    SelectionIsTheSet(a.selected, b.selected);
    var partsA, partsB := Header(a) + [Join(rowsA, ',')], Header(b) + [Join(rowsB, ',')];
    if FingerprintText(a) == FingerprintText(b) {
      JoinDetermines(partsA, partsB, '\n');
      assert partsA[..3] == Header(a) && partsB[..3] == Header(b);
      assert partsA[3] == partsB[3];
      RowTextInjective(Selection(a.selected), Selection(b.selected));
    }
  }

  /** The request in other words: names without regard to padding, hash and type without regard to case. */
  lemma SameHeaderIff(a: Request, b: Request)
    ensures Header(a) == Header(b) <==>
      && Trim(a.operation) == Trim(b.operation)
      && Lower(Trim(a.contentHash)) == Lower(Trim(b.contentHash))
      && Lower(Trim(a.resourceType)) == Lower(Trim(b.resourceType))
  {
    CaseIgnored(Trim(a.resourceType), Trim(b.resourceType));
    assert Header(a)[0] == Trim(a.operation) && Header(b)[0] == Trim(b.operation);
    assert Header(a)[1] == Lower(Trim(a.contentHash)) && Header(b)[1] == Lower(Trim(b.contentHash));
    assert Header(a)[2] == Upper(Trim(a.resourceType)) && Header(b)[2] == Upper(Trim(b.resourceType));
  }

  /** The text line by line: operation, lower-case hash, upper-case type, and the rows in order between commas. */
  lemma FingerprintTextIs(r: Request)
    ensures FingerprintText(r) == Trim(r.operation) + "\n" + Lower(Trim(r.contentHash)) + "\n"
      + Upper(Trim(r.resourceType)) + "\n" + Join(Numerals(Selection(r.selected)), ',')
  {
    var op, hash, kind := Trim(r.operation), Lower(Trim(r.contentHash)), Upper(Trim(r.resourceType));
    var rows := Join(Numerals(Selection(r.selected)), ',');
    assert Header(r) + [rows] == ([op, hash] + [kind]) + [rows] && "\n" == ['\n'];
    JoinAppend([op, hash] + [kind], rows, '\n');
    JoinAppend([op, hash], kind, '\n');
    assert [op, hash][1..] == [hash] && Join([hash], '\n') == hash;
  }
}
