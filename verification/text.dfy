/** Text operations the source takes from its standard library. A char stands for one byte or rune. */
module Text {
  // ----- Decimal numerals -----

  predicate IsDigit(c: char) {
    '0' <= c <= '9'
  }

  function Digit(d: nat): (c: char)
    requires d < 10
    ensures IsDigit(c) && c as int == '0' as int + d
  {
    ('0' as int + d) as char
  }

  function Decimal(n: nat): (s: string)
    ensures |s| >= 1 && forall i :: 0 <= i < |s| ==> IsDigit(s[i])
    ensures n > 0 ==> s[0] != '0'
  {
    if n < 10 then [Digit(n)] else Decimal(n / 10) + [Digit(n % 10)]
  }

  function DigitValue(c: char): (d: nat)
    requires IsDigit(c)
    ensures d < 10 && Digit(d) == c
  {
    c as int - '0' as int
  }

  /** The value of a string of digits. */
  function Value(s: string): nat
    requires forall i :: 0 <= i < |s| ==> IsDigit(s[i])
  {
    if s == [] then 0 else 10 * Value(s[..|s| - 1]) + DigitValue(s[|s| - 1])
  }

  lemma {:induction false} ValueOfDecimal(n: nat)
    ensures Value(Decimal(n)) == n
  {
    if n >= 10 {
      var s := Decimal(n);
      assert s[..|s| - 1] == Decimal(n / 10);
      ValueOfDecimal(n / 10);
    } else {
      assert Decimal(n)[..0] == [];
    }
  }

  lemma DecimalInjective(m: nat, n: nat)
    requires Decimal(m) == Decimal(n)
    ensures m == n
  {
    ValueOfDecimal(m);
    ValueOfDecimal(n);
  }

  function Itoa(n: int): (s: string)
    ensures |s| >= 1
    ensures forall i :: 0 <= i < |s| ==> IsDigit(s[i]) || s[i] == '-'
  {
    if n < 0 then "-" + Decimal(-n) else Decimal(n)
  }

  lemma ItoaInjective(m: int, n: int)
    requires Itoa(m) == Itoa(n)
    ensures m == n
  {
    if m < 0 {
      assert Itoa(m)[0] == '-';
      assert Itoa(m)[1..] == Decimal(-m);
      if n < 0 {
        assert Itoa(n)[1..] == Decimal(-n);
        DecimalInjective(-m, -n);
      }
    } else if n >= 0 {
      DecimalInjective(m, n);
    }
  }

  // ----- Order -----

  /** Byte-wise lexicographic order. */
  predicate Less(a: string, b: string) {
    b != [] && (a == [] || a[0] < b[0] || (a[0] == b[0] && Less(a[1..], b[1..])))
  }

  lemma {:induction false} LessTransitive(a: string, b: string, c: string)
    requires Less(a, b) && Less(b, c)
    ensures Less(a, c)
  {
    if a != [] && a[0] == b[0] && b[0] == c[0] {
      LessTransitive(a[1..], b[1..], c[1..]);
    }
  }

  lemma {:induction false} LessIrreflexive(a: string)
    ensures !Less(a, a)
  {
    if a != [] {
      LessIrreflexive(a[1..]);
    }
  }

  lemma {:induction false} LessTotal(a: string, b: string)
    ensures Less(a, b) || Less(b, a) || a == b
  {
    if a != [] && b != [] && a[0] == b[0] {
      LessTotal(a[1..], b[1..]);
      assert a == [a[0]] + a[1..] && b == [b[0]] + b[1..];
    }
  }

  // ----- Trimming and case -----

  predicate IsSpace(c: char) {
    c == ' ' || c == '\t' || c == '\n' || c == '\r'
  }

  /** Nothing but spaces: trimming leaves the empty string. */
  predicate Blank(s: string) {
    forall c :: c in s ==> IsSpace(c)
  }

  /** The first position from i on that holds no space. */
  function LeftEnd(s: string, i: nat): (r: nat)
    requires i <= |s|
    ensures i <= r <= |s|
    decreases |s| - i
  {
    if i < |s| && IsSpace(s[i]) then LeftEnd(s, i + 1) else i
  }

  /** One past the last position before j that holds no space, not before lo. */
  function RightEnd(s: string, lo: nat, j: nat): (r: nat)
    requires lo <= j <= |s|
    ensures lo <= r <= j
    decreases j
  {
    if lo < j && IsSpace(s[j - 1]) then RightEnd(s, lo, j - 1) else j
  }

  function Trim(s: string): string {
    var lo := LeftEnd(s, 0);
    s[lo..RightEnd(s, lo, |s|)]
  }

  lemma {:induction false} LeftEndSpec(s: string, i: nat)
    requires i <= |s|
    ensures var r := LeftEnd(s, i); r == |s| || !IsSpace(s[r])
    decreases |s| - i
  {
    if i < |s| && IsSpace(s[i]) { LeftEndSpec(s, i + 1); }
  }

  lemma {:induction false} RightEndSpec(s: string, lo: nat, j: nat)
    requires lo <= j <= |s|
    ensures var r := RightEnd(s, lo, j); r == lo || !IsSpace(s[r - 1])
    decreases j
  {
    if lo < j && IsSpace(s[j - 1]) { RightEndSpec(s, lo, j - 1); }
  }

  lemma TrimOfBlank(s: string)
    ensures Trim(s) == "" <==> Blank(s)
  {
    var lo := LeftEnd(s, 0);
    LeftEndSpec(s, 0);
    LeftEndSkips(s, 0);
    RightEndSkips(s, lo, |s|);
    if lo < |s| { assert s[lo] in s; }
  }

  lemma {:induction false} LeftEndSkips(s: string, i: nat)
    requires i <= |s|
    ensures forall k :: i <= k < LeftEnd(s, i) ==> IsSpace(s[k])
    decreases |s| - i
  {
    if i < |s| && IsSpace(s[i]) { LeftEndSkips(s, i + 1); }
  }

  lemma {:induction false} RightEndSkips(s: string, lo: nat, j: nat)
    requires lo <= j <= |s|
    ensures forall k :: RightEnd(s, lo, j) <= k < j ==> IsSpace(s[k])
    decreases j
  {
    if lo < j && IsSpace(s[j - 1]) { RightEndSkips(s, lo, j - 1); }
  }

  lemma TrimIdempotent(s: string)
    ensures Trim(Trim(s)) == Trim(s)
  {
    var lo := LeftEnd(s, 0);
    var hi := RightEnd(s, lo, |s|);
    LeftEndSpec(s, 0);
    RightEndSpec(s, lo, |s|);
    var t := s[lo..hi];
    if lo < hi { assert !IsSpace(t[0]) && !IsSpace(t[|t| - 1]); }
  }

  function UpperChar(c: char): char {
    if 'a' <= c <= 'z' then (c as int - 32) as char else c
  }

  function LowerChar(c: char): char {
    if 'A' <= c <= 'Z' then (c as int + 32) as char else c
  }

  function Upper(s: string): (r: string)
    ensures |r| == |s|
  {
    seq(|s|, i requires 0 <= i < |s| => UpperChar(s[i]))
  }

  function Lower(s: string): (r: string)
    ensures |r| == |s|
  {
    seq(|s|, i requires 0 <= i < |s| => LowerChar(s[i]))
  }

  // ----- Joining and splitting on one separator -----

  function Join(parts: seq<string>, sep: char): string {
    if parts == [] then ""
    else if |parts| == 1 then parts[0]
    else parts[0] + [sep] + Join(parts[1..], sep)
  }

  function Split(s: string, sep: char): (parts: seq<string>)
    ensures |parts| >= 1
  {
    if s == "" then [""]
    else
      var rest := Split(s[1..], sep);
      if s[0] == sep then [""] + rest else [[s[0]] + rest[0]] + rest[1..]
  }

  /** A separator cuts the text in two independent halves. */
  lemma {:induction false} SplitAppend(head: string, tail: string, sep: char)
    ensures Split(head + [sep] + tail, sep) == Split(head, sep) + Split(tail, sep)
  {
    if head == "" {
      assert head + [sep] + tail == [sep] + tail;
      SplitFirst(sep, tail, sep);
    } else {
      assert head + [sep] + tail == [head[0]] + (head[1..] + [sep] + tail);
      SplitFirst(head[0], head[1..] + [sep] + tail, sep);
      SplitAppend(head[1..], tail, sep);
    }
  }

  lemma SplitFirst(c: char, s: string, sep: char)
    ensures var rest := Split(s, sep);
      rest != [] && Split([c] + s, sep) == if c == sep then [""] + rest else [[c] + rest[0]] + rest[1..]
  {
    assert ([c] + s)[1..] == s;
  }

  lemma {:induction false} SplitWhole(s: string, sep: char)
    requires sep !in s
    ensures Split(s, sep) == [s]
  {
    if s != "" {
      assert [s[0]] + s[1..] == s;
      SplitWhole(s[1..], sep);
    }
  }

  lemma {:induction false} SplitPartsAreClean(s: string, sep: char)
    ensures forall p :: p in Split(s, sep) ==> sep !in p
  {
    if s != "" {
      SplitPartsAreClean(s[1..], sep);
      assert Split(s[1..], sep)[0] in Split(s[1..], sep);
    }
  }

  lemma {:induction false} JoinOfSplit(s: string, sep: char)
    ensures Join(Split(s, sep), sep) == s
  {
    if s != "" {
      var rest := Split(s[1..], sep);
      JoinOfSplit(s[1..], sep);
      assert [s[0]] + s[1..] == s;
      if s[0] == sep {
        assert ([""] + rest)[1..] == rest;
      } else {
        assert ([[s[0]] + rest[0]] + rest[1..])[1..] == rest[1..];
      }
    }
  }

  /** Splitting recovers exactly the joined parts when none contains the separator. */
  lemma {:induction false} SplitOfJoin(parts: seq<string>, sep: char)
    requires parts != [] && forall p :: p in parts ==> sep !in p
    ensures Split(Join(parts, sep), sep) == parts
  {
    SplitWhole(parts[0], sep);
    if |parts| > 1 {
      SplitAppend(parts[0], Join(parts[1..], sep), sep);
      SplitOfJoin(parts[1..], sep);
    }
  }

  /** Splitting a join yields at least the parts, and more as soon as one part holds the separator. */
  lemma {:induction false} SplitGrows(parts: seq<string>, sep: char)
    requires parts != []
    ensures |Split(Join(parts, sep), sep)| >= |parts|
    ensures |Split(Join(parts, sep), sep)| == |parts| ==> forall p :: p in parts ==> sep !in p
  {
    SplitPartsAreClean(parts[0], sep);
    JoinOfSplit(parts[0], sep);
    if |parts| > 1 {
      SplitAppend(parts[0], Join(parts[1..], sep), sep);
      SplitGrows(parts[1..], sep);
    }
  }

  /** Two tuples of one length join to the same text only if they are equal, once one of them is clean. */
  lemma JoinDetermines(a: seq<string>, b: seq<string>, sep: char)
    requires a != [] && |a| == |b| && forall p :: p in a ==> sep !in p
    requires Join(a, sep) == Join(b, sep)
    ensures a == b
  {
    SplitOfJoin(a, sep);
    SplitGrows(b, sep);
    SplitOfJoin(b, sep);
  }

  /** Another tuple with the same joined text: the separator inside part i trades places with a joining one. */
  lemma {:induction false} Shifted(parts: seq<string>, i: nat, sep: char) returns (other: seq<string>)
    requires |parts| >= 2 && i < |parts| && sep in parts[i]
    ensures |other| == |parts| && other != parts && Join(other, sep) == Join(parts, sep)
  {
    if i > 0 && |parts| > 2 {
      var rest := Shifted(parts[1..], i - 1, sep);
      other := [parts[0]] + rest;
      assert other[1..] == rest;
    } else {
      var p :| 0 <= p < |parts[i]| && parts[i][p] == sep;
      var left, right := parts[i][..p], parts[i][p + 1..];
      assert parts[i] == left + [sep] + right;
      if i == 0 {
        other := [left, right + [sep] + parts[1]] + parts[2..];
        assert other[1..][1..] == parts[1..][1..];
        assert |other[0]| < |parts[0]|;
        if |parts| == 2 { assert Join(other[1..], sep) == other[1]; }
      } else {
        other := [parts[0] + [sep] + left, right];
        assert |other[1]| < |parts[1]|;
      }
    }
  }

  /** A text stands for one tuple of its length exactly when no part holds the joining separator. */
  lemma JoinUnambiguous(parts: seq<string>, sep: char)
    requires |parts| >= 2
    ensures (forall p :: p in parts ==> sep !in p)
      <==> (forall other: seq<string> :: |other| == |parts| && Join(other, sep) == Join(parts, sep) ==> other == parts)
  {
    if forall p :: p in parts ==> sep !in p {
      forall other: seq<string> | |other| == |parts| && Join(other, sep) == Join(parts, sep) ensures other == parts {
        JoinDetermines(parts, other, sep);
      }
    } else {
      var i :| 0 <= i < |parts| && sep in parts[i];
      var other := Shifted(parts, i, sep);
      assert |other| == |parts| && Join(other, sep) == Join(parts, sep) && other != parts;
    }
  }

  lemma JoinInjective(a: seq<string>, b: seq<string>, sep: char)
    requires a != [] && b != []
    requires (forall p :: p in a ==> sep !in p) && (forall p :: p in b ==> sep !in p)
    requires Join(a, sep) == Join(b, sep)
    ensures a == b
  {
    SplitOfJoin(a, sep);
    SplitOfJoin(b, sep);
  }

  lemma {:induction false} JoinAppend(parts: seq<string>, last: string, sep: char)
    requires parts != []
    ensures Join(parts + [last], sep) == Join(parts, sep) + [sep] + last
  {
    if |parts| == 1 {
      assert (parts + [last])[1..] == [last];
    } else {
      assert (parts + [last])[1..] == parts[1..] + [last];
      JoinAppend(parts[1..], last, sep);
    }
  }

  // ----- What these operations mean -----

  /** The order is decided where the texts first differ; a text comes before its extensions. */
  lemma {:induction false} LessIff(a: string, b: string)
    ensures Less(a, b) <==>
      exists n :: 0 <= n <= |a| && n < |b| && a[..n] == b[..n] && (n == |a| || a[n] < b[n])
  {
    forall n | 0 < n <= |a| && n < |b| && a[..n] == b[..n] ensures a[0] == b[0] {
      assert a[0] == a[..n][0] && b[0] == b[..n][0];
    }
    if a != [] && b != [] && a[0] == b[0] {
      LessIff(a[1..], b[1..]);
      var x, y := a[1..], b[1..];
      if n :| 0 <= n <= |x| && n < |y| && x[..n] == y[..n] && (n == |x| || x[n] < y[n]) {
        assert a[..n + 1] == [a[0]] + x[..n] && b[..n + 1] == [b[0]] + y[..n];
      }
      if n :| 0 <= n <= |a| && n < |b| && a[..n] == b[..n] && (n == |a| || a[n] < b[n]) {
        assert n > 0;
        assert a[1..][..n - 1] == a[..n][1..] && b[1..][..n - 1] == b[..n][1..];
      }
    } else if b != [] && (a == [] || a[0] < b[0]) {
      assert a[..0] == b[..0];
    }
  }

  const SPACES: set<char> := {' ', '\t', '\n', '\r'}

  /** Trimming takes the spaces off both ends and nothing else. */
  lemma TrimIs(s: string, left: string, core: string, right: string)
    requires s == left + core + right && (forall c :: c in left + right ==> c in SPACES)
    requires core == "" || (core[0] !in SPACES && core[|core| - 1] !in SPACES)
    ensures Trim(s) == core
  {
    var lo := LeftEnd(s, 0);
    var hi := RightEnd(s, lo, |s|);
    LeftEndSpec(s, 0);
    LeftEndSkips(s, 0);
    RightEndSpec(s, lo, |s|);
    RightEndSkips(s, lo, |s|);
    forall k | 0 <= k < |s| ensures IsSpace(s[k]) <==> s[k] in SPACES { }
    if core == "" {
      TrimOfBlank(s);
      assert forall c :: c in s ==> c in left + right;
    } else {
      assert forall k :: 0 <= k < |left| ==> s[k] in left + right;
      assert forall k :: |left| + |core| <= k < |s| ==> s[k] in left + right;
      assert s[|left|] == core[0] && s[|left| + |core| - 1] == core[|core| - 1];
      assert lo == |left| && hi == |left| + |core|;
    }
  }

  /** The same letter, large or small, or the same other character. */
  predicate SameLetter(a: char, b: char) {
    a == b || ('a' <= a <= 'z' && a as int - b as int == 32) || ('a' <= b <= 'z' && b as int - a as int == 32)
  }

  /** Two texts have one lower-case form, and one upper-case form, exactly if they agree letter by letter. */
  lemma CaseIgnored(a: string, b: string)
    ensures Lower(a) == Lower(b) <==> |a| == |b| && forall i :: 0 <= i < |a| ==> SameLetter(a[i], b[i])
    ensures Upper(a) == Upper(b) <==> |a| == |b| && forall i :: 0 <= i < |a| ==> SameLetter(a[i], b[i])
  {
    if |a| == |b| {
      forall i | 0 <= i < |a|
        ensures (Lower(a)[i] == Lower(b)[i] <==> SameLetter(a[i], b[i]))
                && (Upper(a)[i] == Upper(b)[i] <==> SameLetter(a[i], b[i]))
      {
        SameCase(a[i], b[i]);
      }
    }
  }

  lemma SameCase(a: char, b: char)
    ensures LowerChar(a) == LowerChar(b) <==> SameLetter(a, b)
    ensures UpperChar(a) == UpperChar(b) <==> SameLetter(a, b)
  {
  }

  /** Lower-casing leaves no capital, upper-casing no small letter. */
  lemma CaseIs(s: string, i: nat)
    requires i < |s|
    ensures SameLetter(Lower(s)[i], s[i]) && !('A' <= Lower(s)[i] <= 'Z')
    ensures SameLetter(Upper(s)[i], s[i]) && !('a' <= Upper(s)[i] <= 'z')
  {
  }
}
