/**
 * Merging a contract's service list into service items: lines whose values agree on the plan's
 * dimensions become one item (internal/application/delivery_contract.go and split_config.go).
 */
module SplitGrouping {
  import opened Options
  import opened Sorting
  import opened Text

  // ----- Entities -----

  /** A test method as a contract line asks for it, read without regard to case and padding. */
  datatype Requested = Unstated | Stated(mode: Mode) | Unrecognised

  datatype Mode = Standard | Penetration

  datatype ContractService = ContractService(
    sourceID: string, name: string, site: string, siteCode: string, batch: string, category: string,
    system: string, systemLevel: string, requirement: string, testMode: Requested)

  /** A plan names its dimensions; a name the program does not know takes no value from the line. */
  datatype Dimension = Batch | Site | Customer | Contract | Category | SystemStandard | TestMode | Unknown

  datatype MissingRuleAction = HumanConfirm | DefaultRule | Silent

  datatype Plan = Plan(
    primary: Dimension, secondary: Dimension, tertiary: Option<Dimension>,
    missingRuleAction: MissingRuleAction, defaultStatus: string)

  datatype SpecialMethod = No | Markable | Required

  /** A detection category of the directory; its capability codes are already normalised. */
  datatype Entry = Entry(
    specialMethod: SpecialMethod, systemStandard: string,
    requiredQualifications: string, requiredCodes: seq<string>)

  datatype Outcome = Outcome(
    status: string, testMode: Mode, systemStandard: string, missingRule: bool,
    requiredQualifications: string, requiredCodes: seq<string>)

  datatype Group = Group(item: ContractService, outcome: Outcome)

  /** What one split runs with: the plan, the project's customer and contract, and the directory. */
  datatype Setting = Setting(plan: Plan, customer: string, contract: string, directory: map<string, Entry>)

  /** A contract line once trimmed and resolved, with its value on each dimension of the plan. */
  datatype Line = Line(item: ContractService, outcome: Outcome, parts: seq<string>)

  const PENDING_CONFIRM := "待确认"
  const NUL := '\0'
  const COMMA := '、'

  // ----- Resolving one line -----

  function ModeOf(requested: Requested): Mode {
    if requested.Stated? then requested.mode else Standard
  }

  function ResolveOutcome(plan: Plan, category: string, mode: Mode, standard: string,
                          directory: map<string, Entry>): Outcome
  {
    var key := Lower(Trim(category));
    if key !in directory then
      Outcome(if plan.missingRuleAction == HumanConfirm then PENDING_CONFIRM else plan.defaultStatus,
              mode, Trim(standard), true, "", [])
    else
      var entry := directory[key];
      var resolved :=
        match entry.specialMethod
        case Required => Penetration
        case No => Standard
        case Markable => mode;
      Outcome(plan.defaultStatus, resolved, if Blank(standard) then entry.systemStandard else Trim(standard), false,
              entry.requiredQualifications, entry.requiredCodes)
  }

  function DimensionValue(s: Setting, dimension: Dimension, item: ContractService, outcome: Outcome): string {
    match dimension
    case Batch => Trim(item.batch)
    case Site => Trim(item.site)
    case Customer => Trim(s.customer)
    case Contract => Trim(s.contract)
    case Category => Trim(item.category)
    case SystemStandard => Trim(outcome.systemStandard)
    case TestMode => if outcome.testMode == Standard then "STANDARD" else "PENETRATION"
    case Unknown => ""
  }

  /** The item's values on the plan's dimensions; the third may be absent. */
  function Parts(s: Setting, item: ContractService, outcome: Outcome): (parts: seq<string>)
    ensures 2 <= |parts| <= 3
  {
    [DimensionValue(s, s.plan.primary, item, outcome), DimensionValue(s, s.plan.secondary, item, outcome)]
    + match s.plan.tertiary
      case None => []
      case Some(tertiary) => [DimensionValue(s, tertiary, item, outcome)]
  }

  function Trimmed(s: ContractService): ContractService {
    s.(sourceID := Trim(s.sourceID), site := Trim(s.site), batch := Trim(s.batch), category := Trim(s.category))
  }

  predicate Complete(s: ContractService) {
    && !Blank(s.sourceID) && !Blank(s.site) && !Blank(s.batch) && !Blank(s.category)
    && s.testMode != Unrecognised
  }

  function LineOf(s: Setting, source: ContractService): Line {
    var item := Trimmed(source);
    var mode := ModeOf(source.testMode);
    var outcome := ResolveOutcome(s.plan, item.category, mode, "", s.directory);
    Line(item.(testMode := Stated(mode)), outcome, Parts(s, item, outcome))
  }

  function Key(line: Line): string {
    Join(line.parts, NUL)
  }

  function LinesOf(s: Setting, sources: seq<ContractService>): (r: seq<Line>)
    ensures |r| == |sources|
  {
    if sources == [] then []
    else LinesOf(s, sources[..|sources| - 1]) + [LineOf(s, sources[|sources| - 1])]
  }

  lemma {:induction false} LineAt(s: Setting, sources: seq<ContractService>, i: nat)
    requires i < |sources|
    ensures LinesOf(s, sources)[i] == LineOf(s, sources[i])
  {
    if i < |sources| - 1 { LineAt(s, sources[..|sources| - 1], i); }
  }

  function Ids(sources: seq<ContractService>, n: nat): set<string>
    requires n <= |sources|
  {
    if n == 0 then {} else Ids(sources, n - 1) + {Trim(sources[n - 1].sourceID)}
  }

  /** The first n lines are complete and none repeats the identifier of an earlier one. */
  predicate Accepted(sources: seq<ContractService>, n: nat)
    requires n <= |sources|
  {
    n == 0 || (Accepted(sources, n - 1) && Complete(sources[n - 1])
               && Trim(sources[n - 1].sourceID) !in Ids(sources, n - 1))
  }

  lemma {:induction false} RefusalIsFinal(sources: seq<ContractService>, m: nat, n: nat)
    requires m <= n <= |sources| && !Accepted(sources, m)
    ensures !Accepted(sources, n)
  {
    if m < n { RefusalIsFinal(sources, m, n - 1); }
  }

  // ----- Merging -----

  function JoinUnique(existing: string, next: string): string {
    if next == "" || next in Split(existing, COMMA) then existing
    else if existing == "" then next
    else existing + [COMMA] + next
  }

  function Absorb(kept: ContractService, next: ContractService): ContractService {
    kept.(sourceID := JoinUnique(kept.sourceID, next.sourceID),
          requirement := JoinUnique(kept.requirement, Trim(next.requirement)),
          system := JoinUnique(kept.system, Trim(next.system)),
          systemLevel := JoinUnique(kept.systemLevel, Trim(next.systemLevel)),
          name := JoinUnique(kept.name, Trim(next.name)))
  }

  /** The first n lines of one key, merged: the first is kept, later ones are absorbed. */
  function Merge(lines: seq<Line>, key: string, n: nat): Option<Group>
    requires n <= |lines|
  {
    if n == 0 then None
    else
      var g := Merge(lines, key, n - 1);
      var line := lines[n - 1];
      if Key(line) != key then g
      else match g
        case None => Some(Group(line.item, line.outcome))
        case Some(kept) => Some(kept.(item := Absorb(kept.item, line.item)))
  }

  /** Keys of the first n lines in order of first appearance. */
  function Keys(lines: seq<Line>, n: nat): seq<string>
    requires n <= |lines|
  {
    if n == 0 then []
    else
      var keys := Keys(lines, n - 1);
      if Key(lines[n - 1]) in keys then keys else keys + [Key(lines[n - 1])]
  }

  lemma {:induction false} KeysSpec(lines: seq<Line>, n: nat)
    requires n <= |lines|
    ensures Distinct(Keys(lines, n))
    ensures forall k :: k in Keys(lines, n) <==> exists i :: 0 <= i < n && Key(lines[i]) == k
  {
    if n > 0 {
      KeysSpec(lines, n - 1);
    }
  }

  lemma {:induction false} MergeExists(lines: seq<Line>, key: string, n: nat)
    requires n <= |lines|
    ensures Merge(lines, key, n).Some? <==> key in Keys(lines, n)
  {
    if n > 0 {
      MergeExists(lines, key, n - 1);
    }
  }

  function GroupKeys(lines: seq<Line>): seq<string> {
    Sort(Keys(lines, |lines|))
  }

  lemma GroupKeysSpec(lines: seq<Line>)
    ensures StrictlyOrdered(GroupKeys(lines))
    ensures forall k :: k in GroupKeys(lines) <==> exists i :: 0 <= i < |lines| && Key(lines[i]) == k
  {
    KeysSpec(lines, |lines|);
    SortOfDistinct(Keys(lines, |lines|));
    SortKeepsMembers(Keys(lines, |lines|));
  }

  /** The merged groups of the given keys. */
  function GroupsOf(lines: seq<Line>, keys: seq<string>): (groups: seq<Group>)
    requires forall k :: k in keys ==> Merge(lines, k, |lines|).Some?
    ensures |groups| == |keys|
  {
    if keys == [] then []
    else GroupsOf(lines, keys[..|keys| - 1]) + [Merge(lines, keys[|keys| - 1], |lines|).value]
  }

  lemma GroupKeysMerge(lines: seq<Line>)
    ensures forall k :: k in GroupKeys(lines) ==> Merge(lines, k, |lines|).Some?
  {
    SortKeepsMembers(Keys(lines, |lines|));
    forall k | k in GroupKeys(lines) ensures Merge(lines, k, |lines|).Some? { MergeExists(lines, k, |lines|); }
  }

  function Groups(lines: seq<Line>): (groups: seq<Group>)
    ensures |groups| == |GroupKeys(lines)|
  {
    GroupKeysMerge(lines);
    GroupsOf(lines, GroupKeys(lines))
  }

  // ----- The method -----

  /** What the loop accumulates: the groups by key, and the keys in order of first appearance. */
  datatype Tally = Tally(groups: map<string, Group>, keys: seq<string>)

  function Add(t: Tally, line: Line): Tally {
    var key := Key(line);
    if key in t.groups then
      var current := t.groups[key];
      t.(groups := t.groups[key := current.(item := Absorb(current.item, line.item))])
    else
      Tally(t.groups[key := Group(line.item, line.outcome)], t.keys + [key])
  }

  function Tallied(lines: seq<Line>, n: nat): Tally
    requires n <= |lines|
  {
    if n == 0 then Tally(map[], []) else Add(Tallied(lines, n - 1), lines[n - 1])
  }

  function Lookup(groups: map<string, Group>, key: string): Option<Group> {
    if key in groups then Some(groups[key]) else None
  }

  /** The accumulated entries are the merges of the keys seen, and only those. */
  lemma {:induction false} TalliedIsMerged(lines: seq<Line>, n: nat)
    requires n <= |lines|
    ensures Tallied(lines, n).keys == Keys(lines, n)
    ensures forall k :: k in Tallied(lines, n).groups <==> k in Keys(lines, n)
    ensures forall k :: Merge(lines, k, n) == Lookup(Tallied(lines, n).groups, k)
  {
    if n > 0 {
      TalliedIsMerged(lines, n - 1);
    }
  }

  method AddLine(s: Setting, sources: seq<ContractService>, n: nat, groups: map<string, Group>, keys: seq<string>)
    returns (groups': map<string, Group>, keys': seq<string>)
    requires n < |sources| && Tally(groups, keys) == Tallied(LinesOf(s, sources), n)
    ensures Tally(groups', keys') == Tallied(LinesOf(s, sources), n + 1)
  {
    groups', keys' := groups, keys;
    LineAt(s, sources, n);
    var line := LineOf(s, sources[n]);
    var key := Key(line);
    if key in groups {
      var current := groups[key];
      groups' := groups[key := current.(item := Absorb(current.item, line.item))];
    } else {
      groups' := groups[key := Group(line.item, line.outcome)];
      keys' := keys + [key];
    }
  }

  method Collect(ghost lines: seq<Line>, groups: map<string, Group>, found: seq<string>) returns (out: seq<Group>)
    requires Tally(groups, found) == Tallied(lines, |lines|)
    ensures out == Groups(lines)
  {
    var keys := Sort(found);
    TalliedUnderKeys(lines, groups, found);
    GroupKeysMerge(lines);
    out := [];
    var j := 0;
    while j < |keys|
      invariant j <= |keys|
      invariant out == GroupsOf(lines, keys[..j])
    {
      assert keys[j] in keys;
      assert keys[..j + 1][..j] == keys[..j];
      out := out + [groups[keys[j]]];
      j := j + 1;
    }
    assert keys[..j] == keys;
  }

  /** The tally holds each sorted key's group. */
  lemma TalliedUnderKeys(lines: seq<Line>, groups: map<string, Group>, found: seq<string>)
    requires Tally(groups, found) == Tallied(lines, |lines|)
    ensures Sort(found) == GroupKeys(lines)
    ensures forall k :: k in Sort(found) ==> k in groups && Merge(lines, k, |lines|) == Some(groups[k])
  {
    TalliedIsMerged(lines, |lines|);
    SortKeepsMembers(found);
    forall k | k in Sort(found) ensures k in groups && Merge(lines, k, |lines|) == Some(groups[k]) {
      assert Merge(lines, k, |lines|) == Lookup(groups, k);
    }
  }

  method Admit(sources: seq<ContractService>, n: nat, seen: set<string>) returns (ok: bool, seen': set<string>)
    requires n < |sources| && Accepted(sources, n) && seen == Ids(sources, n)
    ensures ok <==> Accepted(sources, n + 1)
    ensures seen' == Ids(sources, n + 1)
  {
    var id := Trim(sources[n].sourceID);
    ok := Complete(sources[n]) && id !in seen;
    seen' := seen + {id};
  }

  /** What the loop holds after n accepted lines. */
  ghost predicate TalliedSoFar(s: Setting, sources: seq<ContractService>, n: nat,
                               groups: map<string, Group>, keys: seq<string>, seen: set<string>)
    requires n <= |sources|
  {
    seen == Ids(sources, n) && Tally(groups, keys) == Tallied(LinesOf(s, sources), n)
  }

  method TakeLine(s: Setting, sources: seq<ContractService>, n: nat,
                  groups: map<string, Group>, keys: seq<string>, seen: set<string>)
    returns (ok: bool, groups': map<string, Group>, keys': seq<string>, seen': set<string>)
    requires n < |sources| && Accepted(sources, n) && TalliedSoFar(s, sources, n, groups, keys, seen)
    ensures ok <==> Accepted(sources, n + 1)
    ensures ok ==> TalliedSoFar(s, sources, n + 1, groups', keys', seen')
  {
    groups', keys' := groups, keys;
    ok, seen' := Admit(sources, n, seen);
    if ok {
      groups', keys' := AddLine(s, sources, n, groups, keys);
    }
  }

  /** The loop over the contract's list. */
  method TallyLines(s: Setting, sources: seq<ContractService>)
    returns (ok: bool, groups: map<string, Group>, keys: seq<string>)
    ensures ok <==> Accepted(sources, |sources|)
    ensures ok ==> Tally(groups, keys) == Tallied(LinesOf(s, sources), |sources|)
  {
    groups, keys := map[], [];
    var seen: set<string> := {};
    var n := 0;
    while n < |sources|
      invariant n <= |sources| && Accepted(sources, n) && TalliedSoFar(s, sources, n, groups, keys, seen)
    {
      ok, groups, keys, seen := TakeLine(s, sources, n, groups, keys, seen);
      n := n + 1;
      if !ok {
        RefusalIsFinal(sources, n, |sources|);
        return;
      }
    }
    ok := true;
  }

  method GroupServices(s: Setting, sources: seq<ContractService>) returns (r: Option<seq<Group>>)
    ensures r.Some? <==> Accepted(sources, |sources|)
    ensures r.Some? ==> r.value == Groups(LinesOf(s, sources))
  {
    var ok, groups, keys := TallyLines(s, sources);
    if !ok {
      return None;
    }
    var out := Collect(LinesOf(s, sources), groups, keys);
    r := Some(out);
  }

  // ----- Each source line lands in exactly one group, and can be read back from it -----

  lemma {:induction false} IdsMember(sources: seq<ContractService>, n: nat)
    requires n <= |sources|
    ensures forall i :: 0 <= i < n ==> Trim(sources[i].sourceID) in Ids(sources, n)
  {
    if n > 0 { IdsMember(sources, n - 1); }
  }

  /** Accepted lists have non-empty, pairwise distinct identifiers. */
  lemma {:induction false} AcceptedIds(sources: seq<ContractService>, n: nat)
    requires n <= |sources| && Accepted(sources, n)
    ensures forall i :: 0 <= i < n ==> Trim(sources[i].sourceID) != ""
    ensures forall i, j :: 0 <= i < j < n ==> Trim(sources[i].sourceID) != Trim(sources[j].sourceID)
  {
    if n > 0 {
      AcceptedIds(sources, n - 1);
      IdsMember(sources, n - 1);
      TrimOfBlank(sources[n - 1].sourceID);
    }
  }

  /** The identifiers of one key's lines among the first n, in list order. */
  function MemberIds(lines: seq<Line>, key: string, n: nat): seq<string>
    requires n <= |lines|
  {
    if n == 0 then []
    else MemberIds(lines, key, n - 1) + if Key(lines[n - 1]) == key then [lines[n - 1].item.sourceID] else []
  }

  lemma {:induction false} MemberIdsSpec(lines: seq<Line>, key: string, n: nat)
    requires n <= |lines|
    ensures forall id ::
      id in MemberIds(lines, key, n) <==> exists i :: 0 <= i < n && Key(lines[i]) == key && lines[i].item.sourceID == id
  {
    if n > 0 { MemberIdsSpec(lines, key, n - 1); }
  }

  ghost predicate DistinctIds(lines: seq<Line>) {
    && (forall i :: 0 <= i < |lines| ==> lines[i].item.sourceID != "")
    && (forall i, j :: 0 <= i < j < |lines| ==> lines[i].item.sourceID != lines[j].item.sourceID)
  }

  lemma JoinUniqueAppends(existing: string, next: string)
    requires existing != "" && next != "" && next !in Split(existing, COMMA) && COMMA !in next
    ensures JoinUnique(existing, next) != ""
    ensures Split(JoinUnique(existing, next), COMMA) == Split(existing, COMMA) + [next]
  {
    SplitAppend(existing, next, COMMA);
    SplitWhole(next, COMMA);
  }

  /** The merged identifiers read back as the members. */
  ghost predicate IdsAreKept(lines: seq<Line>, key: string, n: nat)
    requires n <= |lines| && Merge(lines, key, n).Some?
  {
    var ids := Merge(lines, key, n).value.item.sourceID;
    ids != "" && Split(ids, COMMA) == MemberIds(lines, key, n)
  }

  lemma LaterMemberIsKept(lines: seq<Line>, key: string, n: nat)
    requires n < |lines| && DistinctIds(lines) && Key(lines[n]) == key && COMMA !in lines[n].item.sourceID
    requires Merge(lines, key, n).Some? && IdsAreKept(lines, key, n)
    ensures Merge(lines, key, n + 1).Some? && IdsAreKept(lines, key, n + 1)
  {
    var before, id := Merge(lines, key, n).value.item.sourceID, lines[n].item.sourceID;
    MemberIdsSpec(lines, key, n);
    JoinUniqueAppends(before, id);
    assert Merge(lines, key, n + 1).value.item.sourceID == JoinUnique(before, id);
    assert MemberIds(lines, key, n + 1) == MemberIds(lines, key, n) + [id];
  }

  lemma FirstMemberIsKept(lines: seq<Line>, key: string, n: nat)
    requires n < |lines| && DistinctIds(lines) && Key(lines[n]) == key && COMMA !in lines[n].item.sourceID
    requires Merge(lines, key, n).None?
    ensures Merge(lines, key, n + 1).Some? && IdsAreKept(lines, key, n + 1)
  {
    SplitWhole(lines[n].item.sourceID, COMMA);
    NoMembers(lines, key, n);
  }

  lemma MembersGrow(lines: seq<Line>, key: string, n: nat)
    requires n < |lines|
    ensures forall id :: id in MemberIds(lines, key, n) ==> id in MemberIds(lines, key, n + 1)
    ensures Key(lines[n]) == key ==> lines[n].item.sourceID in MemberIds(lines, key, n + 1)
    ensures Key(lines[n]) != key ==> MemberIds(lines, key, n + 1) == MemberIds(lines, key, n)
    ensures Key(lines[n]) != key ==> Merge(lines, key, n + 1) == Merge(lines, key, n)
  {
  }

  lemma {:induction false} CleanIdsAreKept(lines: seq<Line>, key: string, n: nat)
    requires n <= |lines| && DistinctIds(lines)
    requires Merge(lines, key, n).Some? && forall id :: id in MemberIds(lines, key, n) ==> COMMA !in id
    ensures IdsAreKept(lines, key, n)
  {
    MembersGrow(lines, key, n - 1);
    if Key(lines[n - 1]) != key {
      CleanIdsAreKept(lines, key, n - 1);
    } else {
      if Merge(lines, key, n - 1).Some? {
        CleanIdsAreKept(lines, key, n - 1);
        LaterMemberIsKept(lines, key, n - 1);
      } else {
        FirstMemberIsKept(lines, key, n - 1);
      }
    }
  }

  lemma {:induction false} NoMembers(lines: seq<Line>, key: string, n: nat)
    requires n <= |lines| && Merge(lines, key, n).None?
    ensures MemberIds(lines, key, n) == []
  {
    if n > 0 { NoMembers(lines, key, n - 1); }
  }

  /** A group's identifier field reads back as its members exactly when no member holds the separator. */
  lemma MembersCanBeReadBack(lines: seq<Line>, key: string)
    requires DistinctIds(lines) && Merge(lines, key, |lines|).Some?
    ensures Split(Merge(lines, key, |lines|).value.item.sourceID, COMMA) == MemberIds(lines, key, |lines|)
      <==> forall id :: id in MemberIds(lines, key, |lines|) ==> COMMA !in id
  {
    SplitPartsAreClean(Merge(lines, key, |lines|).value.item.sourceID, COMMA);
    if forall id :: id in MemberIds(lines, key, |lines|) ==> COMMA !in id {
      CleanIdsAreKept(lines, key, |lines|);
    }
  }

  /** An identifier that an earlier one contains as a part disappears from the merged item. */
  lemma SeparatorHidesAnId()
    ensures JoinUnique("a、b", "b") == "a、b"
  {
    SplitAppend("a", "b", COMMA);
    assert "a、b" == "a" + [COMMA] + "b";
    SplitWhole("b", COMMA);
    assert Split("b", COMMA)[0] in Split("a、b", COMMA);
  }

  lemma {:induction false} GroupsOfAt(lines: seq<Line>, keys: seq<string>, j: nat)
    requires forall k :: k in keys ==> Merge(lines, k, |lines|).Some?
    requires j < |keys|
    ensures keys[j] in keys && GroupsOf(lines, keys)[j] == Merge(lines, keys[j], |lines|).value
  {
    var front := keys[..|keys| - 1];
    if j < |front| { GroupsOfAt(lines, front, j); }
  }

  lemma MemberIffSameKey(lines: seq<Line>, key: string, i: nat)
    requires DistinctIds(lines) && i < |lines|
    ensures lines[i].item.sourceID in MemberIds(lines, key, |lines|) <==> Key(lines[i]) == key
  {
    MemberIdsSpec(lines, key, |lines|);
  }

  /** An identifier can be read from the group of its own key and from no other. */
  lemma InItsOwnGroupOnly(lines: seq<Line>, i: nat, j: nat)
    requires DistinctIds(lines) && forall k :: 0 <= k < |lines| ==> COMMA !in lines[k].item.sourceID
    requires i < |lines| && j < |Groups(lines)|
    ensures lines[i].item.sourceID in Split(Groups(lines)[j].item.sourceID, COMMA)
      <==> GroupKeys(lines)[j] == Key(lines[i])
  {
    GroupKeysMerge(lines);
    var keys := GroupKeys(lines);
    GroupsOfAt(lines, keys, j);
    MemberIdsSpec(lines, keys[j], |lines|);
    CleanIdsAreKept(lines, keys[j], |lines|);
    MemberIffSameKey(lines, keys[j], i);
  }

  /**
   * The groups partition the list: they come in strictly increasing key order, every line's key is one of
   * them, and every identifier is read back from exactly the group of its own key.
   */
  lemma Partition(s: Setting, sources: seq<ContractService>, lines: seq<Line>)
    requires Accepted(sources, |sources|) && lines == LinesOf(s, sources)
    requires forall k :: 0 <= k < |sources| ==> COMMA !in Trim(sources[k].sourceID)
    ensures StrictlyOrdered(GroupKeys(lines))
    ensures forall i :: 0 <= i < |sources| ==> Key(lines[i]) in GroupKeys(lines)
    ensures forall i, j :: 0 <= i < |sources| && 0 <= j < |Groups(lines)| ==>
      (Trim(sources[i].sourceID) in Split(Groups(lines)[j].item.sourceID, COMMA)
       <==> GroupKeys(lines)[j] == Key(lines[i]))
  {
    LinesKeepIds(s, sources);
    GroupKeysSpec(lines);
    forall i, j | 0 <= i < |sources| && 0 <= j < |Groups(lines)|
      ensures Trim(sources[i].sourceID) in Split(Groups(lines)[j].item.sourceID, COMMA)
        <==> GroupKeys(lines)[j] == Key(lines[i])
    {
      InItsOwnGroupOnly(lines, i, j);
    }
  }

  lemma LinesKeepIds(s: Setting, sources: seq<ContractService>)
    requires Accepted(sources, |sources|)
    ensures DistinctIds(LinesOf(s, sources))
    ensures forall i :: 0 <= i < |sources| ==> LinesOf(s, sources)[i].item.sourceID == Trim(sources[i].sourceID)
  {
    AcceptedIds(sources, |sources|);
    forall i | 0 <= i < |sources| ensures LinesOf(s, sources)[i].item.sourceID == Trim(sources[i].sourceID) {
      LineAt(s, sources, i);
    }
  }

  /** Each non-empty part of the value is a part of the text. */
  ghost predicate Lists(text: string, value: string) {
    forall part :: part in Split(value, COMMA) && part != "" ==> part in Split(text, COMMA)
  }

  /** The text opens with the value as it stands, and lists its parts. */
  ghost predicate Opens(text: string, value: string) {
    value <= text && Lists(text, value)
  }

  lemma JoinUniqueLists(existing: string, next: string, value: string)
    ensures Lists(JoinUnique(existing, next), next) && existing <= JoinUnique(existing, next)
    ensures Lists(existing, value) ==> Lists(JoinUnique(existing, next), value)
  {
    SplitAppend(existing, next, COMMA);
    if next in Split(existing, COMMA) {
      SplitPartsAreClean(existing, COMMA);
      SplitWhole(next, COMMA);
    }
  }

  /** The merged texts open with those of the item. */
  ghost predicate OpensWith(merged: ContractService, item: ContractService) {
    && Opens(merged.requirement, item.requirement) && Opens(merged.system, item.system)
    && Opens(merged.systemLevel, item.systemLevel) && Opens(merged.name, item.name)
  }

  /** The merged texts list the parts of the item's trimmed ones. */
  ghost predicate ListsAll(merged: ContractService, item: ContractService) {
    && Lists(merged.requirement, Trim(item.requirement)) && Lists(merged.system, Trim(item.system))
    && Lists(merged.systemLevel, Trim(item.systemLevel)) && Lists(merged.name, Trim(item.name))
  }

  lemma AbsorbLists(kept: ContractService, next: ContractService, item: ContractService)
    ensures ListsAll(Absorb(kept, next), next)
    ensures ListsAll(kept, item) ==> ListsAll(Absorb(kept, next), item)
  {
    JoinUniqueLists(kept.requirement, Trim(next.requirement), Trim(item.requirement));
    JoinUniqueLists(kept.system, Trim(next.system), Trim(item.system));
    JoinUniqueLists(kept.systemLevel, Trim(next.systemLevel), Trim(item.systemLevel));
    JoinUniqueLists(kept.name, Trim(next.name), Trim(item.name));
  }

  lemma AbsorbOpens(kept: ContractService, next: ContractService, item: ContractService)
    requires OpensWith(kept, item)
    ensures OpensWith(Absorb(kept, next), item)
  {
    JoinUniqueLists(kept.requirement, Trim(next.requirement), item.requirement);
    JoinUniqueLists(kept.system, Trim(next.system), item.system);
    JoinUniqueLists(kept.systemLevel, Trim(next.systemLevel), item.systemLevel);
    JoinUniqueLists(kept.name, Trim(next.name), item.name);
  }

  /** The line is the first of its key. */
  ghost predicate Leads(lines: seq<Line>, first: nat) {
    first < |lines| && forall i :: 0 <= i < first ==> Key(lines[i]) != Key(lines[first])
  }

  /**
   * No member's requirement, system, level or name is lost from the merged item: its texts open with those of the
   * first line as they stand, and list every non-empty part of them and of every later line's trimmed texts.
   */
  lemma {:induction false} NothingLost(lines: seq<Line>, first: nat, n: nat, i: nat)
    requires Leads(lines, first) && first <= i < n <= |lines| && Key(lines[i]) == Key(lines[first])
    ensures Merge(lines, Key(lines[first]), n).Some?
    ensures var merged := Merge(lines, Key(lines[first]), n).value.item;
      if i == first then OpensWith(merged, lines[i].item) else ListsAll(merged, lines[i].item)
  {
    var key := Key(lines[first]);
    if i < n - 1 {
      NothingLost(lines, first, n - 1, i);
      if Key(lines[n - 1]) == key {
        var kept := Merge(lines, key, n - 1).value.item;
        AbsorbLists(kept, lines[n - 1].item, lines[i].item);
        if i == first { AbsorbOpens(kept, lines[n - 1].item, lines[i].item); }
      }
    } else if i == first {
      NothingBefore(lines, key, first);
    } else {
      NothingLost(lines, first, n - 1, first);
      AbsorbLists(Merge(lines, key, n - 1).value.item, lines[n - 1].item, lines[n - 1].item);
    }
  }

  // ----- What sharing a group means -----

  ghost predicate Clean(line: Line) {
    forall p :: p in line.parts ==> NUL !in p
  }

  /** Lines of one list share a group exactly when they agree on every dimension of the plan. */
  lemma SameGroupIffSameValues(s: Setting, a: ContractService, b: ContractService)
    requires Clean(LineOf(s, a))
    ensures Key(LineOf(s, a)) == Key(LineOf(s, b)) <==> LineOf(s, a).parts == LineOf(s, b).parts
  {
    if Key(LineOf(s, a)) == Key(LineOf(s, b)) {
      JoinDetermines(LineOf(s, a).parts, LineOf(s, b).parts, NUL);
    }
  }

  predicate HasDimension(plan: Plan, d: Dimension) {
    plan.primary == d || plan.secondary == d || plan.tertiary == Some(d)
  }

  lemma EqualPartsAgree(s: Setting, a: ContractService, b: ContractService, d: Dimension)
    requires LineOf(s, a).parts == LineOf(s, b).parts && HasDimension(s.plan, d)
    ensures DimensionValue(s, d, Trimmed(a), LineOf(s, a).outcome) == DimensionValue(s, d, Trimmed(b), LineOf(s, b).outcome)
  {
    var x, y := LineOf(s, a).parts, LineOf(s, b).parts;
    assert x[0] == y[0] && x[1] == y[1];
    if s.plan.tertiary.Some? { assert x[2] == y[2]; }
  }

  /** A merged item keeps the outcome of the first line of its key. */
  lemma {:induction false} KeptOutcome(lines: seq<Line>, key: string, n: nat, first: nat)
    requires first < n <= |lines| && Key(lines[first]) == key && forall i :: 0 <= i < first ==> Key(lines[i]) != key
    ensures Merge(lines, key, n).Some? && Merge(lines, key, n).value.outcome == lines[first].outcome
  {
    if first < n - 1 {
      KeptOutcome(lines, key, n - 1, first);
    } else {
      NothingBefore(lines, key, first);
    }
  }

  lemma {:induction false} NothingBefore(lines: seq<Line>, key: string, n: nat)
    requires n <= |lines| && forall i :: 0 <= i < n ==> Key(lines[i]) != key
    ensures Merge(lines, key, n).None?
  {
    if n > 0 { NothingBefore(lines, key, n - 1); }
  }

  /** Under this plan, lines that share a group always resolve to the same outcome. */
  ghost predicate OutcomesAgree(plan: Plan) {
    forall s: Setting, a, b ::
      s.plan == plan && Complete(a) && Complete(b) && Clean(LineOf(s, a)) && Key(LineOf(s, a)) == Key(LineOf(s, b))
      ==> LineOf(s, a).outcome == LineOf(s, b).outcome
  }

  lemma SameCategoryAndModeAgree(s: Setting, a: ContractService, b: ContractService)
    requires HasDimension(s.plan, Category) && HasDimension(s.plan, TestMode)
    requires LineOf(s, a).parts == LineOf(s, b).parts
    ensures LineOf(s, a).outcome == LineOf(s, b).outcome
  {
    EqualPartsAgree(s, a, b, Category);
    EqualPartsAgree(s, a, b, TestMode);
    TrimIdempotent(a.category);
    TrimIdempotent(b.category);
    assert "STANDARD"[0] != "PENETRATION"[0];
  }

  /** Two lines that one key merges although they resolve differently. */
  ghost predicate Disagree(s: Setting, a: ContractService, b: ContractService) {
    && Complete(a) && Complete(b) && Clean(LineOf(s, a)) && Key(LineOf(s, a)) == Key(LineOf(s, b))
    && LineOf(s, a).outcome != LineOf(s, b).outcome
  }

  lemma OneLetter(c: char)
    requires !IsSpace(c)
    ensures Trim([c]) == [c] && !Blank([c])
  {
    var t: string := [c];
    assert LeftEnd(t, 0) == 0 && RightEnd(t, 0, 1) == 1;
    assert t[0] in t;
  }

  /** A complete line whose texts are single letters. */
  function Letters(id: char, category: char, mode: Mode): ContractService {
    ContractService([id], "", "s", "", "b", [category], "", "", "", Stated(mode))
  }

  lemma LettersComplete(id: char, category: char, mode: Mode)
    requires !IsSpace(id) && !IsSpace(category)
    ensures Complete(Letters(id, category, mode))
    ensures Trimmed(Letters(id, category, mode)) == Letters(id, category, mode)
  {
    OneLetter(id);
    OneLetter('s');
    OneLetter('b');
    OneLetter(category);
  }

  function Bare(plan: Plan, directory: map<string, Entry>): Setting {
    Setting(plan, "", "", directory)
  }

  /** Lines of single letters in a setting without customer, contract or system standards give clean values. */
  lemma LettersClean(s: Setting, item: ContractService, outcome: Outcome, d: Dimension)
    requires s.customer == "" && s.contract == "" && outcome.systemStandard == ""
    requires item.batch == "b" && item.site == "s" && NUL !in item.category
    ensures NUL !in DimensionValue(s, d, item, outcome)
  {
  }

  lemma SameParts(s: Setting, x: ContractService, o: Outcome, y: ContractService, q: Outcome)
    requires forall d :: HasDimension(s.plan, d) ==> DimensionValue(s, d, x, o) == DimensionValue(s, d, y, q)
    ensures Parts(s, x, o) == Parts(s, y, q)
  {
    assert HasDimension(s.plan, s.plan.primary) && HasDimension(s.plan, s.plan.secondary);
    if s.plan.tertiary.Some? { assert HasDimension(s.plan, s.plan.tertiary.value); }
  }

  lemma CleanParts(s: Setting, x: ContractService, o: Outcome)
    requires forall d :: NUL !in DimensionValue(s, d, x, o)
    ensures forall p :: p in Parts(s, x, o) ==> NUL !in p
  {
  }

  lemma MergedAnyway(s: Setting, a: ContractService, b: ContractService)
    requires Complete(a) && Complete(b) && LineOf(s, a).outcome != LineOf(s, b).outcome
    requires forall d :: HasDimension(s.plan, d) ==>
      DimensionValue(s, d, Trimmed(a), LineOf(s, a).outcome) == DimensionValue(s, d, Trimmed(b), LineOf(s, b).outcome)
    requires forall d :: NUL !in DimensionValue(s, d, Trimmed(a), LineOf(s, a).outcome)
    ensures Disagree(s, a, b)
  {
    SameParts(s, Trimmed(a), LineOf(s, a).outcome, Trimmed(b), LineOf(s, b).outcome);
    CleanParts(s, Trimmed(a), LineOf(s, a).outcome);
    assert LineOf(s, a).parts == Parts(s, Trimmed(a), LineOf(s, a).outcome);
    assert LineOf(s, b).parts == Parts(s, Trimmed(b), LineOf(s, b).outcome);
  }

  /** A directory that knows the one category and not the other. */
  lemma KnownAndUnknown(s: Setting, a: ContractService, b: ContractService)
    requires Trim(a.category) == "c" && Trim(b.category) == "d"
    requires s.directory == map[Lower("c") := Entry(Markable, "", "", [])]
    ensures LineOf(s, a).outcome != LineOf(s, b).outcome
    ensures LineOf(s, a).outcome.systemStandard == LineOf(s, b).outcome.systemStandard == ""
    ensures LineOf(s, a).outcome.testMode == ModeOf(a.testMode) && LineOf(s, b).outcome.testMode == ModeOf(b.testMode)
  {
    OneLetter('c');
    OneLetter('d');
    assert Lower("c")[0] == 'c' && Lower("d")[0] == 'd';
  }

  lemma MixedModes(plan: Plan) returns (s: Setting, a: ContractService, b: ContractService)
    requires !HasDimension(plan, TestMode)
    ensures s.plan == plan && Disagree(s, a, b)
  {
    s := Bare(plan, map[]);
    a, b := Letters('1', 'c', Standard), Letters('2', 'c', Penetration);
    LettersComplete('1', 'c', Standard);
    LettersComplete('2', 'c', Penetration);
    forall d ensures NUL !in DimensionValue(s, d, Trimmed(a), LineOf(s, a).outcome) {
      LettersClean(s, Trimmed(a), LineOf(s, a).outcome, d);
    }
    MergedAnyway(s, a, b);
  }

  lemma MixedCategories(plan: Plan) returns (s: Setting, a: ContractService, b: ContractService)
    requires !HasDimension(plan, Category)
    ensures s.plan == plan && Disagree(s, a, b)
  {
    a, b := Letters('1', 'c', Standard), Letters('2', 'd', Standard);
    LettersComplete('1', 'c', Standard);
    LettersComplete('2', 'd', Standard);
    OneLetter('c');
    OneLetter('d');
    s := Bare(plan, map[Lower("c") := Entry(Markable, "", "", [])]);
    KnownAndUnknown(s, a, b);
    forall d ensures NUL !in DimensionValue(s, d, Trimmed(a), LineOf(s, a).outcome) {
      LettersClean(s, Trimmed(a), LineOf(s, a).outcome, d);
    }
    MergedAnyway(s, a, b);
  }

  /**
   * The outcome a merged item keeps is every member's outcome, for all lists, exactly under the plans that
   * group by both category and test mode; the default plan of batch and category does not.
   */
  lemma OutcomesAgreeIff(plan: Plan)
    ensures OutcomesAgree(plan) <==> HasDimension(plan, Category) && HasDimension(plan, TestMode)
  {
    if HasDimension(plan, Category) && HasDimension(plan, TestMode) {
      forall s: Setting, a, b |
        s.plan == plan && Complete(a) && Complete(b) && Clean(LineOf(s, a)) && Key(LineOf(s, a)) == Key(LineOf(s, b))
        ensures LineOf(s, a).outcome == LineOf(s, b).outcome
      {
        SameGroupIffSameValues(s, a, b);
        SameCategoryAndModeAgree(s, a, b);
      }
    } else if !HasDimension(plan, TestMode) {
      var s, a, b := MixedModes(plan);
    } else {
      var s, a, b := MixedCategories(plan);
    }
  }
}
