/**
 * Which lines of a contract become one service item, in terms of the lines themselves, how each line is resolved
 * against the directory of detection categories, and what a merged item is made of.
 */
module SplitEffects {
  import opened Options
  import opened Text
  import opened SplitGrouping

  // ----- Resolving a line -----

  /** The directory's entry for a category, read without regard to case and padding. */
  function EntryOf(s: Setting, category: string): Option<Entry> {
    var name := Lower(Trim(category));
    if name in s.directory then Some(s.directory[name]) else None
  }

  /** A line that states no test method asks for the standard one. */
  predicate AsksPenetration(source: ContractService) {
    source.testMode == Stated(Penetration)
  }

  /**
   * A line is tested by penetration if its category demands it, or if it asks for it and the category does not rule
   * it out. A category without a rule waits for a person if the plan says so; everything else starts as planned.
   */
  lemma ResolvedIs(s: Setting, source: ContractService)
    ensures var o, rule := LineOf(s, source).outcome, EntryOf(s, source.category);
      && (o.testMode == Penetration
          <==> (rule.Some? && rule.value.specialMethod == Required)
               || (AsksPenetration(source) && (rule.None? || rule.value.specialMethod == Markable)))
      && (o.missingRule <==> rule == None)
      && o.status == (if rule == None && s.plan.missingRuleAction == HumanConfirm then "待确认"
                      else s.plan.defaultStatus)
      && (o.systemStandard, o.requiredQualifications, o.requiredCodes) ==
           (match rule case None => ("", "", [])
                       case Some(e) => (e.systemStandard, e.requiredQualifications, e.requiredCodes))
  {
    TrimIdempotent(source.category);
    TrimOfBlank("");
  }

  /** A system standard the line states itself comes before the directory's. */
  lemma StatedStandardWins(plan: Plan, category: string, mode: Mode, standard: string, directory: map<string, Entry>)
    requires !Blank(standard)
    ensures ResolveOutcome(plan, category, mode, standard, directory).systemStandard == Trim(standard)
  {
  }

  // ----- Which lines share an item -----

  /** The two lines agree on what the dimension stands for. */
  predicate AgreeOn(s: Setting, d: Dimension, a: ContractService, b: ContractService) {
    match d
    case Batch => Trim(a.batch) == Trim(b.batch)
    case Site => Trim(a.site) == Trim(b.site)
    case Category => Trim(a.category) == Trim(b.category)
    case SystemStandard =>
      Trim(LineOf(s, a).outcome.systemStandard) == Trim(LineOf(s, b).outcome.systemStandard)
    case TestMode => LineOf(s, a).outcome.testMode == LineOf(s, b).outcome.testMode
    case Customer => true
    case Contract => true
    case Unknown => true
  }

  lemma AgreeIffSameValue(s: Setting, d: Dimension, a: ContractService, b: ContractService)
    ensures AgreeOn(s, d, a, b) <==>
      DimensionValue(s, d, Trimmed(a), LineOf(s, a).outcome) == DimensionValue(s, d, Trimmed(b), LineOf(s, b).outcome)
  {
    TrimIdempotent(a.batch);
    TrimIdempotent(b.batch);
    TrimIdempotent(a.site);
    TrimIdempotent(b.site);
    TrimIdempotent(a.category);
    TrimIdempotent(b.category);
    assert "STANDARD"[0] != "PENETRATION"[0];
  }

  /** Lines become one item exactly if they agree on every dimension that the plan names. */
  lemma OneItemIff(s: Setting, a: ContractService, b: ContractService)
    requires Clean(LineOf(s, a))
    ensures Key(LineOf(s, a)) == Key(LineOf(s, b)) <==>
      && AgreeOn(s, s.plan.primary, a, b) && AgreeOn(s, s.plan.secondary, a, b)
      && (s.plan.tertiary.Some? ==> AgreeOn(s, s.plan.tertiary.value, a, b))
  {
    SameGroupIffSameValues(s, a, b);
    AgreeIffSameValue(s, s.plan.primary, a, b);
    AgreeIffSameValue(s, s.plan.secondary, a, b);
    if s.plan.tertiary.Some? { AgreeIffSameValue(s, s.plan.tertiary.value, a, b); }
    SamePartsIff(s, Trimmed(a), LineOf(s, a).outcome, Trimmed(b), LineOf(s, b).outcome);
  }

  lemma SamePartsIff(s: Setting, x: ContractService, o: Outcome, y: ContractService, q: Outcome)
    ensures Parts(s, x, o) == Parts(s, y, q)
      <==> && DimensionValue(s, s.plan.primary, x, o) == DimensionValue(s, s.plan.primary, y, q)
           && DimensionValue(s, s.plan.secondary, x, o) == DimensionValue(s, s.plan.secondary, y, q)
           && (s.plan.tertiary.Some? ==>
                 DimensionValue(s, s.plan.tertiary.value, x, o) == DimensionValue(s, s.plan.tertiary.value, y, q))
  {
    var a, b := Parts(s, x, o), Parts(s, y, q);
    if a == b {
      assert a[0] == b[0] && a[1] == b[1];
      if s.plan.tertiary.Some? { assert a[2] == b[2]; }
    }
  }

  /** What a line has on a dimension. */
  function ValueOn(s: Setting, d: Dimension, source: ContractService): string {
    match d
    case Batch => Trim(source.batch)
    case Site => Trim(source.site)
    case Customer => Trim(s.customer)
    case Contract => Trim(s.contract)
    case Category => Trim(source.category)
    case SystemStandard => Trim(LineOf(s, source).outcome.systemStandard)
    case TestMode => if LineOf(s, source).outcome.testMode == Penetration then "PENETRATION" else "STANDARD"
    case Unknown => ""
  }

  lemma ValueOnIs(s: Setting, d: Dimension, source: ContractService)
    ensures DimensionValue(s, d, Trimmed(source), LineOf(s, source).outcome) == ValueOn(s, d, source)
  {
    TrimIdempotent(source.batch);
    TrimIdempotent(source.site);
    TrimIdempotent(source.category);
  }

  lemma JoinedParts(a: string, b: string, c: Option<string>)
    ensures Join([a, b] + (if c.Some? then [c.value] else []), NUL)
         == a + "\0" + b + if c.Some? then "\0" + c.value else ""
  {
    var parts := [a, b] + if c.Some? then [c.value] else [];
    assert "\0" == [NUL];
    assert parts[1..][0] == b;
    if c.Some? {
      assert parts[1..][1..] == [c.value] && Join([c.value], NUL) == c.value;
      assert Join(parts[1..], NUL) == b + [NUL] + c.value;
      assert a + [NUL] + (b + [NUL] + c.value) == a + "\0" + b + ("\0" + c.value);
    } else {
      assert parts[1..] == [b] && a + "\0" + b + "" == a + [NUL] + b;
    }
  }

  /** Items are ordered by their values on the plan's dimensions, the primary one first. */
  lemma KeyIs(s: Setting, source: ContractService)
    ensures Key(LineOf(s, source)) == ValueOn(s, s.plan.primary, source) + "\0" + ValueOn(s, s.plan.secondary, source)
      + if s.plan.tertiary.Some? then "\0" + ValueOn(s, s.plan.tertiary.value, source) else ""
  {
    ValueOnIs(s, s.plan.primary, source);
    ValueOnIs(s, s.plan.secondary, source);
    if s.plan.tertiary.Some? { ValueOnIs(s, s.plan.tertiary.value, source); }
    JoinedParts(ValueOn(s, s.plan.primary, source), ValueOn(s, s.plan.secondary, source),
                if s.plan.tertiary.Some? then Some(ValueOn(s, s.plan.tertiary.value, source)) else None);
  }

  // ----- Which lists are refused -----

  /** The line names its identifier, site, batch and category, and no test method but the two known ones. */
  predicate IsComplete(source: ContractService) {
    && Trim(source.sourceID) != "" && Trim(source.site) != "" && Trim(source.batch) != ""
    && Trim(source.category) != "" && !source.testMode.Unrecognised?
  }

  lemma {:induction false} IdsAre(sources: seq<ContractService>, n: nat)
    requires n <= |sources|
    ensures forall id :: id in Ids(sources, n) <==> exists i :: 0 <= i < n && Trim(sources[i].sourceID) == id
  {
    if n > 0 {
      IdsAre(sources, n - 1);
      assert Trim(sources[n - 1].sourceID) in Ids(sources, n);
    }
  }

  lemma CompleteIff(source: ContractService)
    ensures Complete(source) <==> IsComplete(source)
  {
    TrimOfBlank(source.sourceID);
    TrimOfBlank(source.site);
    TrimOfBlank(source.batch);
    TrimOfBlank(source.category);
  }

  ghost predicate FirstDiffer(sources: seq<ContractService>, n: nat)
    requires n <= |sources|
  {
    forall i, j :: 0 <= i < j < n ==> Trim(sources[i].sourceID) != Trim(sources[j].sourceID)
  }

  lemma OneMoreDiffers(sources: seq<ContractService>, n: nat)
    requires n < |sources|
    ensures FirstDiffer(sources, n + 1) <==> FirstDiffer(sources, n) && Trim(sources[n].sourceID) !in Ids(sources, n)
  {
    IdsAre(sources, n);
  }

  ghost predicate FirstComplete(sources: seq<ContractService>, n: nat)
    requires n <= |sources|
  {
    forall i :: 0 <= i < n ==> Complete(sources[i])
  }

  lemma OneMoreComplete(sources: seq<ContractService>, n: nat)
    requires n < |sources|
    ensures FirstComplete(sources, n + 1) <==> FirstComplete(sources, n) && Complete(sources[n])
  {
  }

  lemma {:induction false} AcceptedIfComplete(sources: seq<ContractService>, n: nat)
    requires n <= |sources|
    ensures Accepted(sources, n) <==> FirstComplete(sources, n) && FirstDiffer(sources, n)
  {
    if n > 0 {
      AcceptedIfComplete(sources, n - 1);
      OneMoreComplete(sources, n - 1);
      OneMoreDiffers(sources, n - 1);
    }
  }

  /** A list is accepted exactly if every line is complete and no two carry the same identifier. */
  lemma AcceptedIff(sources: seq<ContractService>)
    ensures Accepted(sources, |sources|) <==>
      && (forall c :: c in sources ==> IsComplete(c))
      && (forall i, j :: 0 <= i < j < |sources| ==> Trim(sources[i].sourceID) != Trim(sources[j].sourceID))
  {
    AcceptedIfComplete(sources, |sources|);
    forall c ensures Complete(c) <==> IsComplete(c) { CompleteIff(c); }
  }

  // ----- What a merged item is made of -----

  /** Joining adds the next text behind the existing ones, unless it is empty or one of them. */
  lemma JoinUniqueIs(existing: string, next: string)
    ensures Split(JoinUnique(existing, next), COMMA) ==
      if next == "" || next in Split(existing, COMMA) then Split(existing, COMMA)
      else if existing == "" then Split(next, COMMA)
      else Split(existing, COMMA) + Split(next, COMMA)
  {
    SplitAppend(existing, next, COMMA);
  }

  /** The rest of a merged item is the first member's. */
  predicate SameRest(a: ContractService, b: ContractService) {
    && a.site == b.site && a.siteCode == b.siteCode && a.batch == b.batch && a.category == b.category
    && a.testMode == b.testMode
  }

  lemma {:induction false} KeepsTheRest(lines: seq<Line>, first: nat, n: nat)
    requires Leads(lines, first) && first < n <= |lines|
    ensures var merged := Merge(lines, Key(lines[first]), n);
      merged.Some? && SameRest(merged.value.item, lines[first].item)
  {
    if n == first + 1 {
      NothingBefore(lines, Key(lines[first]), first);
    } else {
      KeepsTheRest(lines, first, n - 1);
    }
  }

  lemma RestOfLine(s: Setting, source: ContractService)
    ensures SameRest(LineOf(s, source).item,
                     source.(site := Trim(source.site), batch := Trim(source.batch), category := Trim(source.category),
                             testMode := Stated(if AsksPenetration(source) then Penetration else Standard)))
  {
    if source.testMode.Stated? {
      match source.testMode.mode { case Standard => case Penetration => }
    }
  }

  /** What is not collected from the members is the first one's: trimmed, with the test method it asks for. */
  lemma KeepsTheFirst(s: Setting, source: ContractService, lines: seq<Line>, first: nat, g: Group)
    requires Leads(lines, first) && lines[first] == LineOf(s, source)
    requires Merge(lines, Key(lines[first]), |lines|) == Some(g)
    ensures g.item.site == Trim(source.site) && g.item.siteCode == source.siteCode
    ensures g.item.batch == Trim(source.batch) && g.item.category == Trim(source.category)
    ensures g.item.testMode == Stated(if AsksPenetration(source) then Penetration else Standard)
  {
    RestOfLine(s, source);
    KeepsTheRest(lines, first, |lines|);
  }

  /** The texts that are collected. */
  datatype Field = SourceID | Requirement | System | SystemLevel | Name

  function Of(f: Field, item: ContractService): string {
    match f
    case SourceID => item.sourceID
    case Requirement => item.requirement
    case System => item.system
    case SystemLevel => item.systemLevel
    case Name => item.name
  }

  /** What a later member adds: its identifier, which is trimmed already, and its other texts trimmed. */
  function Added(f: Field, item: ContractService): string {
    if f == SourceID then item.sourceID else Trim(Of(f, item))
  }

  lemma AbsorbIs(f: Field, kept: ContractService, next: ContractService)
    ensures Of(f, Absorb(kept, next)) == JoinUnique(Of(f, kept), Added(f, next))
  {
  }

  /** One of the key's lines among the first n supplies the part. */
  ghost predicate Supplied(lines: seq<Line>, key: string, n: nat, f: Field, part: string)
    requires n <= |lines|
  {
    exists i :: 0 <= i < n && Key(lines[i]) == key
                && part in Split(Of(f, lines[i].item), COMMA) + Split(Added(f, lines[i].item), COMMA)
  }

  /** Nothing is invented: every part of a merged text comes from that text of a member. */
  lemma {:induction false} NothingInvented(lines: seq<Line>, key: string, n: nat, f: Field, part: string)
    requires n <= |lines| && Merge(lines, key, n).Some?
    requires part in Split(Of(f, Merge(lines, key, n).value.item), COMMA)
    ensures Supplied(lines, key, n, f, part)
  {
    var line := lines[n - 1];
    if Key(line) != key {
      NothingInvented(lines, key, n - 1, f, part);
    } else if Merge(lines, key, n - 1).Some? {
      var kept := Merge(lines, key, n - 1).value.item;
      AbsorbIs(f, kept, line.item);
      JoinUniqueIs(Of(f, kept), Added(f, line.item));
      if part in Split(Of(f, kept), COMMA) { NothingInvented(lines, key, n - 1, f, part); }
    }
  }
}
