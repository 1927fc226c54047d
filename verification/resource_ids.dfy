/**
 * Numbering people and equipment (internal/application/delivery.go), and numbering a whole equipment import
 * (internal/application/equipment_import.go). Sequence numbers are 64-bit and wrap around.
 */
module ResourceIds {
  import opened Options
  import opened Text

  const MAX := 0x7FFF_FFFF_FFFF_FFFF
  const MIN := -0x8000_0000_0000_0000

  datatype ResourceType = Person | Equipment | Unrecognised

  datatype Capability = Capability(resourceType: ResourceType, resourceID: string)

  function Prefix(t: ResourceType): string {
    if t == Equipment then "EQ-" else "P-"
  }

  // ----- Numerals as the library reads and prints them -----

  predicate Digits(s: string) {
    s != "" && forall i :: 0 <= i < |s| ==> IsDigit(s[i])
  }

  /** strconv.Atoi: an optional sign and digits, within 64 bits. */
  function Atoi(s: string): Option<int> {
    var body := if s != "" && (s[0] == '+' || s[0] == '-') then s[1..] else s;
    if !Digits(body) then None
    else
      var n: int := if s[0] == '-' then 0 - Value(body) else Value(body);
      if MIN <= n <= MAX then Some(n) else None
  }

  function Padded(s: string, width: nat): (r: string)
    ensures |r| == if |s| >= width then |s| else width
    decreases width - |s|
  {
    if |s| >= width then s else Padded("0" + s, width)
  }

  /** The %04d format: four places, the sign taking one of them. */
  function Format(n: int): string {
    if n < 0 then "-" + Padded(Decimal(-n), 3) else Padded(Decimal(n), 4)
  }

  lemma {:induction false} ValueOfZero(s: string)
    requires Digits(s)
    ensures Digits("0" + s) && Value("0" + s) == Value(s)
  {
    var t := "0" + s;
    assert t[..|t| - 1] == "0" + s[..|s| - 1];
    if |s| > 1 { ValueOfZero(s[..|s| - 1]); } else { assert t[..1] == "0" && "0"[..0] == ""; }
  }

  lemma {:induction false} ValueOfPadded(s: string, width: nat)
    requires Digits(s)
    ensures Digits(Padded(s, width)) && Value(Padded(s, width)) == Value(s)
    decreases width - |s|
  {
    if |s| < width {
      ValueOfZero(s);
      ValueOfPadded("0" + s, width);
    }
  }

  lemma AtoiOfDigits(s: string)
    requires Digits(s) && Value(s) <= MAX
    ensures Atoi(s) == Some(Value(s))
  {
    assert IsDigit(s[0]);
  }

  lemma AtoiOfMinus(s: string)
    requires Digits(s) && Value(s) <= MAX + 1
    ensures Atoi("-" + s) == Some(0 - Value(s))
  {
    assert ("-" + s)[1..] == s;
  }

  lemma PaddedNumber(n: nat, width: nat)
    ensures Digits(Padded(Decimal(n), width)) && Value(Padded(Decimal(n), width)) == n
  {
    ValueOfDecimal(n);
    ValueOfPadded(Decimal(n), width);
  }

  /** Reading back a printed number gives that number. */
  lemma AtoiOfFormat(n: int)
    requires MIN <= n <= MAX
    ensures Atoi(Format(n)) == Some(n)
  {
    if n < 0 {
      PaddedNumber(-n, 3);
      AtoiOfMinus(Padded(Decimal(-n), 3));
    } else {
      PaddedNumber(n, 4);
      AtoiOfDigits(Padded(Decimal(n), 4));
    }
  }

  // ----- The next number -----

  function Sequence(c: Capability, t: ResourceType): Option<int> {
    if c.resourceType == t && Prefix(t) <= c.resourceID then Atoi(c.resourceID[|Prefix(t)|..]) else None
  }

  function Larger(m: int, s: Option<int>): int {
    if s.Some? && s.value > m then s.value else m
  }

  /** The largest of the first n numbers there are, or 0. */
  function Largest(numbers: seq<Option<int>>, n: nat): (m: int)
    requires n <= |numbers|
    ensures m >= 0
  {
    if n == 0 then 0 else Larger(Largest(numbers, n - 1), numbers[n - 1])
  }

  lemma {:induction false} LargestSpec(numbers: seq<Option<int>>, n: nat)
    requires n <= |numbers|
    ensures forall i :: 0 <= i < n && numbers[i].Some? ==> numbers[i].value <= Largest(numbers, n)
    ensures Largest(numbers, n) == 0 || exists i :: 0 <= i < n && numbers[i] == Some(Largest(numbers, n))
  {
    if n > 0 { LargestSpec(numbers, n - 1); }
  }

  function Sequences(existing: seq<Capability>, t: ResourceType): (numbers: seq<Option<int>>)
    ensures |numbers| == |existing|
    ensures forall i :: 0 <= i < |existing| ==> numbers[i] == Sequence(existing[i], t)
  {
    seq(|existing|, i requires 0 <= i < |existing| => Sequence(existing[i], t))
  }

  /** The largest number among the first n records, or 0. */
  function MaxSequence(existing: seq<Capability>, t: ResourceType, n: nat): (m: int)
    requires n <= |existing|
    ensures 0 <= m <= MAX
  {
    LargestSpec(Sequences(existing, t), n);
    Largest(Sequences(existing, t), n)
  }

  lemma MaxSequenceBound(existing: seq<Capability>, t: ResourceType, n: nat, i: nat, v: int)
    requires i < n <= |existing| && Sequence(existing[i], t) == Some(v)
    ensures v <= MaxSequence(existing, t, n)
  {
    LargestSpec(Sequences(existing, t), n);
    assert Sequences(existing, t)[i] == Some(v);
  }

  function Used(existing: seq<Capability>, t: ResourceType, n: nat): set<string>
    requires n <= |existing|
  {
    if n == 0 then {}
    else Used(existing, t, n - 1) + if existing[n - 1].resourceType == t then {existing[n - 1].resourceID} else {}
  }

  lemma {:induction false} UsedSpec(existing: seq<Capability>, t: ResourceType, n: nat)
    requires n <= |existing|
    ensures |Used(existing, t, n)| <= n
    ensures forall id :: id in Used(existing, t, n) <==>
      exists i :: 0 <= i < n && existing[i].resourceType == t && existing[i].resourceID == id
  {
    if n > 0 { UsedSpec(existing, t, n - 1); }
  }

  function Candidate(t: ResourceType, n: int): string {
    Prefix(t) + Format(n)
  }

  lemma SequenceOfCandidate(t: ResourceType, n: int)
    requires MIN <= n <= MAX
    ensures Sequence(Capability(t, Candidate(t, n)), t) == Some(n)
  {
    AtoiOfFormat(n);
    assert Candidate(t, n)[|Prefix(t)|..] == Format(n);
  }

  /** One past the maximum is free at once. */
  lemma NextIsFree(existing: seq<Capability>, t: ResourceType)
    requires MaxSequence(existing, t, |existing|) < MAX
    ensures Candidate(t, MaxSequence(existing, t, |existing|) + 1) !in Used(existing, t, |existing|)
  {
    var m := MaxSequence(existing, t, |existing|);
    SequenceOfCandidate(t, m + 1);
    UsedSpec(existing, t, |existing|);
    if Candidate(t, m + 1) in Used(existing, t, |existing|) {
      var i :| 0 <= i < |existing| && existing[i].resourceType == t && existing[i].resourceID == Candidate(t, m + 1);
      MaxSequenceBound(existing, t, |existing|, i, m + 1);
    }
  }

  /** The number k steps after n, wrapping past the largest to the smallest. */
  function Ahead(n: int, k: nat): int {
    if n + k <= MAX then n + k else n + k - 0x1_0000_0000_0000_0000
  }

  /** Fewer steps than there are numbers never come back to a number. */
  lemma AheadDiffers(t: ResourceType, n: int, j: nat, k: nat)
    requires 0 <= n <= MAX && j < k <= MAX + 1
    ensures MIN <= Ahead(n, j) <= MAX && MIN <= Ahead(n, k) <= MAX
    ensures Candidate(t, Ahead(n, j)) != Candidate(t, Ahead(n, k))
  {
    SequenceOfCandidate(t, Ahead(n, j));
    SequenceOfCandidate(t, Ahead(n, k));
  }

  lemma SubsetSize<T>(a: set<T>, b: set<T>)
    requires a <= b
    ensures |a| <= |b|
  {
    assert b == a + (b - a);
  }

  method Scan(existing: seq<Capability>, t: ResourceType) returns (used: set<string>, sequence: int)
    ensures used == Used(existing, t, |existing|) && sequence == MaxSequence(existing, t, |existing|)
  {
    used, sequence := {}, 0;
    var i := 0;
    while i < |existing|
      invariant i <= |existing|
      invariant used == Used(existing, t, i) && sequence == MaxSequence(existing, t, i)
    {
      if existing[i].resourceType == t {
        used := used + {existing[i].resourceID};
        sequence := Larger(sequence, Sequence(existing[i], t));
      }
      i := i + 1;
    }
  }

  /** The k numbers tried so far, all in use. */
  ghost predicate Tried(t: ResourceType, start: int, used: set<string>, k: nat, tried: set<string>) {
    && |tried| == k && tried <= used
    && forall c :: c in tried ==> exists j :: 1 <= j <= k && c == Candidate(t, Ahead(start, j))
  }

  lemma TryNext(t: ResourceType, start: int, used: set<string>, k: nat, tried: set<string>)
    requires 0 <= start <= MAX && |used| <= MAX && Tried(t, start, used, k, tried)
    ensures k <= |used|
    ensures var c := Candidate(t, Ahead(start, k + 1));
      c in used ==> k < |used| && Tried(t, start, used, k + 1, tried + {c})
  {
    SubsetSize(tried, used);
    var c := Candidate(t, Ahead(start, k + 1));
    if c in used {
      forall j | 1 <= j <= k ensures Candidate(t, Ahead(start, j)) != c { AheadDiffers(t, start, j, k + 1); }
      assert c !in tried;
      SubsetSize(tried + {c}, used);
    }
  }

  /** The first k numbers behind the start are in use. */
  ghost predicate AllUsed(t: ResourceType, start: int, used: set<string>, k: nat) {
    k == 0 || (AllUsed(t, start, used, k - 1) && Candidate(t, Ahead(start, k)) in used)
  }

  /** The k-th number behind the start is the first that is not in use. */
  ghost predicate FirstFree(t: ResourceType, start: int, used: set<string>, k: nat, id: string) {
    k > 0 && id == Candidate(t, Ahead(start, k)) && id !in used && AllUsed(t, start, used, k - 1)
  }

  lemma {:induction false} AllUsedIff(t: ResourceType, start: int, used: set<string>, k: nat)
    ensures AllUsed(t, start, used, k) <==> forall j :: 1 <= j <= k ==> Candidate(t, Ahead(start, j)) in used
  {
    if k > 0 { AllUsedIff(t, start, used, k - 1); }
  }

  function Named(name: nat -> string, k: nat): set<string> {
    if k == 0 then {} else Named(name, k - 1) + {name(k)}
  }

  /** As many names as there are numbers up to k, all of them names of such numbers, are all of these names. */
  lemma {:induction false} NamedSpec(name: nat -> string, k: nat)
    ensures |Named(name, k)| <= k
    ensures forall j: nat :: 1 <= j <= k ==> name(j) in Named(name, k)
  {
    if k > 0 { NamedSpec(name, k - 1); }
  }

  lemma AllNamed(name: nat -> string, k: nat, tried: set<string>)
    requires |tried| == k && tried <= Named(name, k)
    ensures tried == Named(name, k)
  {
    NamedSpec(name, k);
    var more := Named(name, k) - tried;
    assert Named(name, k) == tried + more;
  }

  /** The k different numbers tried are the first k. */
  lemma TriedAll(t: ResourceType, start: int, used: set<string>, k: nat, tried: set<string>, id: string)
    requires Tried(t, start, used, k, tried) && id == Candidate(t, Ahead(start, k + 1)) && id !in used
    ensures FirstFree(t, start, used, k + 1, id)
  {
    var name := (j: nat) => Candidate(t, Ahead(start, j));
    NamedSpec(name, k);
    forall c | c in tried ensures c in Named(name, k) {
      var j: nat :| 1 <= j <= k && c == Candidate(t, Ahead(start, j));
      assert c == name(j);
    }
    AllNamed(name, k, tried);
    forall j: nat | 1 <= j <= k ensures Candidate(t, Ahead(start, j)) in used { assert name(j) in tried; }
    AllUsedIff(t, start, used, k);
  }

  lemma FirstIsTaken(t: ResourceType, start: int, used: set<string>, k: nat, id: string)
    requires FirstFree(t, start, used, k, id) && Candidate(t, Ahead(start, 1)) !in used
    ensures id == Candidate(t, Ahead(start, 1))
  {
    AllUsedIff(t, start, used, k - 1);
  }

  method Search(used: set<string>, t: ResourceType, start: int, ghost bound: nat)
    returns (id: string, ghost steps: nat)
    requires 0 <= start <= MAX && |used| <= bound <= MAX
    ensures id !in used && Prefix(t) <= id
    ensures FirstFree(t, start, used, steps, id)
  {
    var sequence := start;
    ghost var tried: set<string> := {};
    ghost var k := 0;
    while true
      invariant sequence == Ahead(start, k) && k <= |used| && Tried(t, start, used, k, tried)
      decreases |used| - k
    {
      TryNext(t, start, used, k, tried);
      sequence := if sequence == MAX then MIN else sequence + 1;
      var candidate := Candidate(t, sequence);
      assert sequence == Ahead(start, k + 1);
      if candidate !in used {
        TriedAll(t, start, used, k, tried, candidate);
        return candidate, k + 1;
      }
      tried := tried + {candidate};
      k := k + 1;
    }
  }

  /**
   * Finds a number no record of the type carries. It is one past the largest in use; past the largest number
   * of all it goes on from the smallest, and a list of addressable length cannot use them all up.
   */
  method NextResourceID(existing: seq<Capability>, t: ResourceType) returns (id: string, ghost steps: nat)
    requires |existing| <= MAX
    ensures id !in Used(existing, t, |existing|) && Prefix(t) <= id
    ensures FirstFree(t, MaxSequence(existing, t, |existing|), Used(existing, t, |existing|), steps, id)
    ensures MaxSequence(existing, t, |existing|) < MAX
      ==> id == Candidate(t, MaxSequence(existing, t, |existing|) + 1)
  {
    var used, sequence := Scan(existing, t);
    UsedSpec(existing, t, |existing|);
    id, steps := Search(used, t, sequence, |existing|);
    if sequence < MAX {
      NextIsFree(existing, t);
      FirstIsTaken(t, sequence, used, steps, id);
    }
  }

  /** Fills in a blank identifier of a person or of equipment, and touches nothing else. */
  method AssignResourceID(existing: seq<Capability>, item: Capability) returns (r: Capability, ghost steps: nat)
    requires |existing| <= MAX
    ensures r.resourceType == item.resourceType
    ensures !Blank(item.resourceID) || item.resourceType == Unrecognised ==> r == item
    ensures Blank(item.resourceID) && item.resourceType != Unrecognised ==>
      && Prefix(item.resourceType) <= r.resourceID
      && r.resourceID !in Used(existing, item.resourceType, |existing|)
      && FirstFree(item.resourceType, MaxSequence(existing, item.resourceType, |existing|),
                   Used(existing, item.resourceType, |existing|), steps, r.resourceID)
  {
    TrimOfBlank(item.resourceID);
    r, steps := item, 0;
    if Trim(item.resourceID) != "" || item.resourceType == Unrecognised {
      return;
    }
    var id;
    id, steps := NextResourceID(existing, item.resourceType);
    r := item.(resourceID := id);
  }

  // ----- Numbering an import -----

  /** A row of the file, its identifier trimmed; blank means: choose one. */
  datatype Input = Input(resourceType: ResourceType, resourceID: string)

  /** The identifiers the file itself spells out, on any row. */
  function Explicit(inputs: seq<Input>, n: nat): seq<Capability>
    requires n <= |inputs|
  {
    if n == 0 then []
    else
      Explicit(inputs, n - 1)
      + if Blank(inputs[n - 1].resourceID) then [] else [Capability(Equipment, Trim(inputs[n - 1].resourceID))]
  }

  lemma {:induction false} ExplicitSpec(inputs: seq<Input>, n: nat)
    requires n <= |inputs|
    ensures |Explicit(inputs, n)| <= n
    ensures forall i :: 0 <= i < n && !Blank(inputs[i].resourceID) ==>
      Capability(Equipment, Trim(inputs[i].resourceID)) in Explicit(inputs, n)
  {
    if n > 0 { ExplicitSpec(inputs, n - 1); }
  }

  predicate Chosen(inputs: seq<Input>, i: nat)
    requires i < |inputs|
  {
    Blank(inputs[i].resourceID) && inputs[i].resourceType == Equipment
  }

  /** What a row's identifier looks like, whether spelt out or chosen. */
  predicate Plausible(input: Input, id: string) {
    if !Blank(input.resourceID) then id == Trim(input.resourceID)
    else if input.resourceType == Unrecognised then id == ""
    else Prefix(input.resourceType) <= id
  }

  ghost predicate Unknown(cs: seq<Capability>, id: string) {
    forall c :: c in cs && c.resourceType == Equipment ==> c.resourceID != id
  }

  ghost predicate NotSpeltOut(inputs: seq<Input>, id: string) {
    forall j :: 0 <= j < |inputs| && !Blank(inputs[j].resourceID) ==> Trim(inputs[j].resourceID) != id
  }

  /**
   * The first n rows numbered: a number chosen for equipment is new to the register, to every number the file
   * spells out, on later rows too, and to every other row.
   */
  ghost predicate Numbered(known: seq<Capability>, inputs: seq<Input>, ids: seq<string>) {
    && |ids| <= |inputs|
    && (forall i :: 0 <= i < |ids| ==> Plausible(inputs[i], ids[i]))
    && (forall i :: 0 <= i < |ids| && Chosen(inputs, i) ==> Unknown(known, ids[i]) && NotSpeltOut(inputs, ids[i]))
    && (forall i, j :: 0 <= i < |ids| && 0 <= j < |ids| && i != j && Chosen(inputs, i) ==> ids[i] != ids[j])
  }

  /** What the allocator is shown before row |ids|: the register, the file's own numbers, the numbers chosen. */
  ghost predicate Reserved(known: seq<Capability>, inputs: seq<Input>, ids: seq<string>, taken: seq<Capability>) {
    && |ids| <= |inputs| && |taken| <= |known| + |inputs| + |ids|
    && (forall c :: c in known ==> c in taken)
    && (forall j :: 0 <= j < |inputs| && !Blank(inputs[j].resourceID) ==>
          Capability(Equipment, Trim(inputs[j].resourceID)) in taken)
    && (forall i :: 0 <= i < |ids| && Chosen(inputs, i) ==> Capability(Equipment, ids[i]) in taken)
  }

  lemma PlausibleDiffers(a: Input, x: string, b: Input, y: string)
    requires Plausible(a, x) && Plausible(b, y) && Blank(a.resourceID) && a.resourceType == Equipment
    requires Blank(b.resourceID) && b.resourceType != Equipment
    ensures x != y
  {
    assert x[0] == 'E';
  }

  /** A number that is new to everything reserved differs from every row before it. */
  lemma NewNumberDiffers(known: seq<Capability>, inputs: seq<Input>, ids: seq<string>,
                         taken: seq<Capability>, id: string)
    requires Numbered(known, inputs, ids) && Reserved(known, inputs, ids, taken) && |ids| < |inputs|
    requires Chosen(inputs, |ids|) && Plausible(inputs[|ids|], id) && Unknown(taken, id)
    ensures Unknown(known, id) && NotSpeltOut(inputs, id) && forall j :: 0 <= j < |ids| ==> ids[j] != id
  {
    forall j | 0 <= j < |ids| ensures ids[j] != id {
      if Blank(inputs[j].resourceID) && inputs[j].resourceType != Equipment {
        PlausibleDiffers(inputs[|ids|], id, inputs[j], ids[j]);
      }
    }
  }

  /** An earlier chosen number differs from that of the next row, however that one comes about. */
  lemma ChosenDiffers(known: seq<Capability>, inputs: seq<Input>, ids: seq<string>,
                      taken: seq<Capability>, i: nat, id: string)
    requires Numbered(known, inputs, ids) && Reserved(known, inputs, ids, taken) && |ids| < |inputs|
    requires Plausible(inputs[|ids|], id) && (Chosen(inputs, |ids|) ==> Unknown(taken, id))
    requires i < |ids| && Chosen(inputs, i)
    ensures ids[i] != id
  {
    var row := inputs[|ids|];
    if Blank(row.resourceID) && row.resourceType != Equipment { PlausibleDiffers(inputs[i], ids[i], row, id); }
  }

  lemma NumberedGrows(known: seq<Capability>, inputs: seq<Input>, ids: seq<string>, taken: seq<Capability>, id: string)
    requires Numbered(known, inputs, ids) && Reserved(known, inputs, ids, taken) && |ids| < |inputs|
    requires Plausible(inputs[|ids|], id) && (Chosen(inputs, |ids|) ==> Unknown(taken, id))
    ensures Numbered(known, inputs, ids + [id])
  {
    if Chosen(inputs, |ids|) { NewNumberDiffers(known, inputs, ids, taken, id); }
    forall i | 0 <= i < |ids| && Chosen(inputs, i) ensures ids[i] != id {
      ChosenDiffers(known, inputs, ids, taken, i, id);
    }
  }

  method NumberRow(known: seq<Capability>, inputs: seq<Input>, ids: seq<string>, taken: seq<Capability>)
    returns (id: string, taken': seq<Capability>)
    requires |known| + 2 * |inputs| <= MAX && |ids| < |inputs|
    requires Numbered(known, inputs, ids) && Reserved(known, inputs, ids, taken)
    ensures Numbered(known, inputs, ids + [id]) && Reserved(known, inputs, ids + [id], taken')
  {
    var input := inputs[|ids|];
    taken' := taken;
    id := Trim(input.resourceID);
    TrimOfBlank(input.resourceID);
    if id == "" {
      var item, _ := AssignResourceID(taken, Capability(input.resourceType, id));
      UsedSpec(taken, Equipment, |taken|);
      id := item.resourceID;
      taken' := taken + [item];
    }
    NumberedGrows(known, inputs, ids, taken, id);
  }

  lemma NumberedAtOnce(known: seq<Capability>, inputs: seq<Input>)
    ensures Numbered(known, inputs, []) && Reserved(known, inputs, [], known + Explicit(inputs, |inputs|))
  {
    ExplicitSpec(inputs, |inputs|);
  }

  /** The numbers an import preview shows, and the rows it marks because another row shows the same. */
  method PreviewNumbers(known: seq<Capability>, inputs: seq<Input>) returns (ids: seq<string>, clash: seq<bool>)
    requires |known| + 2 * |inputs| <= MAX
    ensures |ids| == |inputs| == |clash| && Numbered(known, inputs, ids)
    ensures forall i :: 0 <= i < |ids| ==> (clash[i] <==> Repeated(ids, i))
  {
    var taken := known + Explicit(inputs, |inputs|);
    NumberedAtOnce(known, inputs);
    ids := [];
    while |ids| < |inputs|
      invariant |ids| <= |inputs| && Numbered(known, inputs, ids) && Reserved(known, inputs, ids, taken)
      decreases |inputs| - |ids|
    {
      var id;
      id, taken := NumberRow(known, inputs, ids, taken);
      ids := ids + [id];
    }
    clash := MarkRepeats(ids);
  }

  /** The positions among the first n that hold the identifier. */
  function Positions(ids: seq<string>, id: string, n: nat): seq<int>
    requires n <= |ids|
  {
    if n == 0 then [] else Positions(ids, id, n - 1) + if ids[n - 1] == id then [n - 1] else []
  }

  lemma {:induction false} PositionsSpec(ids: seq<string>, id: string, n: nat)
    requires n <= |ids|
    ensures forall k :: k in Positions(ids, id, n) <==> 0 <= k < n && ids[k] == id
    ensures forall i, j :: 0 <= i < j < |Positions(ids, id, n)| ==> Positions(ids, id, n)[i] < Positions(ids, id, n)[j]
  {
    if n > 0 {
      var p := Positions(ids, id, n - 1);
      PositionsSpec(ids, id, n - 1);
      forall i | 0 <= i < |p| ensures p[i] < n - 1 { assert p[i] in p; }
    }
  }

  /** Some other row shows what row i shows. */
  ghost predicate Repeated(ids: seq<string>, i: nat)
    requires i < |ids|
  {
    exists j :: 0 <= j < |ids| && j != i && ids[j] == ids[i]
  }

  lemma RepeatedByCount(ids: seq<string>, i: nat)
    requires i < |ids|
    ensures Repeated(ids, i) <==> |Positions(ids, ids[i], |ids|)| > 1
  {
    var p := Positions(ids, ids[i], |ids|);
    PositionsSpec(ids, ids[i], |ids|);
    assert i in p;
    if |p| > 1 {
      var j := if p[0] == i then p[1] else p[0];
      assert j in p;
    }
    if Repeated(ids, i) {
      var j :| 0 <= j < |ids| && j != i && ids[j] == ids[i];
      assert j in p;
      var x :| 0 <= x < |p| && p[x] == i;
      var y :| 0 <= y < |p| && p[y] == j;
      assert x != y;
    }
  }

  function RowsOf(seen: map<string, seq<int>>, id: string): seq<int> {
    if id in seen then seen[id] else []
  }

  /** The rows of each identifier shown on the first n. */
  function Grouped(ids: seq<string>, n: nat): map<string, seq<int>>
    requires n <= |ids|
  {
    if n == 0 then map[]
    else
      var seen := Grouped(ids, n - 1);
      seen[ids[n - 1] := RowsOf(seen, ids[n - 1]) + [n - 1]]
  }

  lemma {:induction false} GroupedSpec(ids: seq<string>, n: nat, id: string)
    requires n <= |ids|
    ensures RowsOf(Grouped(ids, n), id) == Positions(ids, id, n)
  {
    if n > 0 {
      var before := Grouped(ids, n - 1);
      GroupedSpec(ids, n - 1, id);
      var after := before[ids[n - 1] := RowsOf(before, ids[n - 1]) + [n - 1]];
      assert Grouped(ids, n) == after;
      assert RowsOf(after, id) == RowsOf(before, id) + if ids[n - 1] == id then [n - 1] else [];
    }
  }

  method GroupRows(ids: seq<string>) returns (seen: map<string, seq<int>>)
    ensures seen == Grouped(ids, |ids|)
  {
    seen := map[];
    var n := 0;
    while n < |ids|
      invariant n <= |ids| && seen == Grouped(ids, n)
    {
      seen := seen[ids[n] := RowsOf(seen, ids[n]) + [n]];
      n := n + 1;
    }
  }

  /** Marks every group of more than one row, in no particular order. */
  method MarkRepeats(ids: seq<string>) returns (clash: seq<bool>)
    ensures |clash| == |ids|
    ensures forall i :: 0 <= i < |ids| ==> (clash[i] <==> Repeated(ids, i))
  {
    var seen := GroupRows(ids);
    clash := seq(|ids|, i => false);
    var left := seen.Keys;
    forall i | 0 <= i < |ids| ensures ids[i] in seen && seen[ids[i]] == Positions(ids, ids[i], |ids|) {
      PositionsSpec(ids, ids[i], |ids|);
      GroupedSpec(ids, |ids|, ids[i]);
      assert i in Positions(ids, ids[i], |ids|);
    }
    while left != {}
      invariant left <= seen.Keys && |clash| == |ids|
      invariant forall i :: 0 <= i < |ids| ==> clash[i] == (ids[i] !in left && |seen[ids[i]]| > 1)
      decreases |left|
    {
      var id :| id in left;
      left := left - {id};
      GroupedSpec(ids, |ids|, id);
      PositionsSpec(ids, id, |ids|);
      if |seen[id]| > 1 {
        clash := Mark(clash, seen[id]);
      }
    }
    forall i | 0 <= i < |ids| ensures clash[i] <==> Repeated(ids, i) { RepeatedByCount(ids, i); }
  }

  method Mark(clash: seq<bool>, indexes: seq<int>) returns (marked: seq<bool>)
    requires forall k :: k in indexes ==> 0 <= k < |clash|
    ensures |marked| == |clash| && forall i :: 0 <= i < |clash| ==> marked[i] == (clash[i] || i in indexes)
  {
    marked := clash;
    var k := 0;
    while k < |indexes|
      invariant k <= |indexes| && |marked| == |clash|
      invariant forall i :: 0 <= i < |clash| ==> marked[i] == (clash[i] || i in indexes[..k])
    {
      assert indexes[k] in indexes;
      marked := marked[indexes[k] := true];
      k := k + 1;
    }
  }

  // ----- In terms of the texts -----

  /** A number is shown with at least four places, filled up with zeros; a minus sign takes one of them. */
  lemma FormatIs(n: int)
    ensures var digits := if n < 0 then Format(n)[1..] else Format(n);
      && (n < 0 ==> Format(n)[0] == '-')
      && Digits(digits) && Value(digits) == (if n < 0 then -n else n)
      && |digits| >= (if n < 0 then 3 else 4)
      && (|digits| > (if n < 0 then 3 else 4) ==> digits[0] != '0')
  {
    var width := if n < 0 then 3 else 4;
    PaddedNumber(if n < 0 then -n else n, width);
    PaddedKeeps(Decimal(if n < 0 then -n else n), width);
    if n < 0 { assert Format(n)[1..] == Padded(Decimal(-n), 3); }
  }

  lemma {:induction false} PaddedKeeps(s: string, width: nat)
    ensures |s| >= width ==> Padded(s, width) == s
    ensures |Padded(s, width)| > width ==> Padded(s, width) == s
    decreases width - |s|
  {
    if |s| < width { PaddedKeeps("0" + s, width); }
  }

  /** Equipment is numbered from EQ-0001 on, people from P-0001 on. */
  lemma CandidateIs(t: ResourceType, n: int)
    ensures Candidate(t, n) == (if t == Equipment then "EQ-" else "P-") + Format(n)
  {
  }

  /** A text stands for a number if it is digits behind at most one sign, and the number fits into 64 bits. */
  lemma AtoiIff(s: string, n: int)
    ensures Atoi(s) == Some(n) <==>
      && -9223372036854775808 <= n <= 9223372036854775807
      && ((Digits(s) && n == Value(s))
          || (s != "" && s[0] == '+' && Digits(s[1..]) && n == Value(s[1..]))
          || (s != "" && s[0] == '-' && Digits(s[1..]) && n == 0 - Value(s[1..])))
  {
    if s != "" && (s[0] == '+' || s[0] == '-') { assert !Digits(s); }
  }

  /** A record's number is what stands behind the prefix of its type; other records have none. */
  lemma SequenceIff(c: Capability, t: ResourceType, n: int)
    ensures Sequence(c, t) == Some(n) <==>
      && c.resourceType == t
      && exists digits :: c.resourceID == (if t == Equipment then "EQ-" else "P-") + digits && Atoi(digits) == Some(n)
  {
    var prefix := if t == Equipment then "EQ-" else "P-";
    if Sequence(c, t) == Some(n) {
      assert c.resourceID == prefix + c.resourceID[|prefix|..];
    }
    if digits :| c.resourceID == prefix + digits && Atoi(digits) == Some(n) {
      assert c.resourceID[|prefix|..] == digits;
    }
  }

  /** The largest number is one that a record carries, or 0. */
  lemma MaxSequenceIsCarried(existing: seq<Capability>, t: ResourceType, n: nat)
    requires n <= |existing|
    ensures var m := MaxSequence(existing, t, n);
      m == 0 || exists i :: 0 <= i < n && Sequence(existing[i], t) == Some(m)
  {
    LargestSpec(Sequences(existing, t), n);
    var m := MaxSequence(existing, t, n);
    if m != 0 {
      var i :| 0 <= i < n && Sequences(existing, t)[i] == Some(m);
      assert Sequence(existing[i], t) == Some(m);
    }
  }

  /** Behind the largest number of all comes the smallest, then the ones after it. */
  lemma AheadWraps(n: int, k: nat)
    requires 0 <= n <= MAX && k <= MAX + 1
    ensures Ahead(n, k) == n + k || (n + k > 9223372036854775807 && Ahead(n, k) == n + k - 18446744073709551616)
    ensures Ahead(9223372036854775807, 1) == -9223372036854775808
  {
  }

  /** What a preview shows: the file's own numbers, and for its blank rows of equipment numbers nobody else has. */
  lemma NumberedMeans(known: seq<Capability>, inputs: seq<Input>, ids: seq<string>, i: nat)
    requires Numbered(known, inputs, ids) && i < |ids| == |inputs|
    ensures !Blank(inputs[i].resourceID) ==> ids[i] == Trim(inputs[i].resourceID)
    ensures Blank(inputs[i].resourceID) && inputs[i].resourceType == Unrecognised ==> ids[i] == ""
    ensures Blank(inputs[i].resourceID) && inputs[i].resourceType == Person ==> "P-" <= ids[i]
    ensures Blank(inputs[i].resourceID) && inputs[i].resourceType == Equipment ==>
      && "EQ-" <= ids[i] && (forall c :: c in known && c.resourceType == Equipment ==> c.resourceID != ids[i])
      && (forall j :: 0 <= j < |inputs| && j != i ==> ids[j] != ids[i])
  {
  }
}
