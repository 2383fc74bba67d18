/** Reconciling the observations of two files: every record becomes an entry, entries are grouped by
    their normalised signature, and each group is classified by the values of its two sides. */
module Reconciliation {
  import opened Outcomes
  import opened Decimals
  import opened Sequences
  import Instants

  // --- Plans and records ------------------------------------------------------------------------------

  datatype Side = Left | Right

  /** What the model leaves to the platform: trimming and Unicode composition of text. */
  datatype Platform = Platform(trim: string -> string, compose: string -> string)

  datatype Record = Record(id: string, index: int, values: map<string, Field>)

  datatype KeyType = TextKey | DecimalKey | TimeKey

  datatype Key = Key(leftField: string, rightField: string, kind: KeyType, trim: bool)

  datatype Binding = Literal(text: string) | FieldOf(name: string)

  datatype Mapping = Mapping(measure: Binding, unit: Binding, valueField: string)

  datatype Conversion = Conversion(from: string, to: string, factor: string, offset: string)

  datatype Plan = Plan(keys: seq<Key>, left: Mapping, right: Mapping, conversions: seq<Conversion>,
                       rightRevisesLeft: bool)

  datatype Error = ReconciliationLimit | InvalidConversion

  const MaxRecords := 50000

  // --- Entries ------------------------------------------------------------------------------------------

  datatype Signature = Signature(keys: seq<Option<string>>, measure: Option<string>, unit: Option<string>)

  /** A record after normalisation. */
  datatype Entry = Entry(side: Side, recordId: string, index: int, signature: Signature, value: Option<string>,
                         marked: bool)
  {
    predicate Incomplete()
    {
      None in signature.keys || signature.measure.None? || signature.unit.None? || value.None? || marked
    }
  }

  function ValueAt(record: Record, field: string): Field
  {
    if field in record.values then record.values[field] else Other
  }

  function TextOf(platform: Platform, field: Field, trim: bool): Option<string>
  {
    if field.Other? || (field.Number? && !field.usable) then None
    else
      var text := platform.compose(if trim then platform.trim(field.text) else field.text);
      if platform.trim(text) != "" && |text| <= 512 then Some(text) else None
  }

  function BindingOf(platform: Platform, binding: Binding, record: Record): Option<string>
  {
    match binding
    case Literal(text) => TextOf(platform, Text(text), false)
    case FieldOf(name) => TextOf(platform, ValueAt(record, name), false)
  }

  function KeyOf(platform: Platform, key: Key, side: Side, record: Record): Option<string>
  {
    var raw := TextOf(platform, ValueAt(record, if side == Left then key.leftField else key.rightField), key.trim);
    if raw.None? then None
    else
      match key.kind
      case TextKey => raw
      case TimeKey => Instants.Instant(raw.value)
      case DecimalKey => NormalText(ReadDecimalText(raw.value))
  }

  function NormalText(value: Option<Decimal>): Option<string>
  {
    match value
    case None => None
    case Some(d) => Some(DecimalText(d))
  }

  function ConversionFor(conversions: seq<Conversion>, unit: Option<string>): Option<Conversion>
  {
    if conversions == [] then None
    else if unit == Some(conversions[0].from) then Some(conversions[0])
    else ConversionFor(conversions[1..], unit)
  }

  /** The entry of a record, or None when its unit conversion is invalid. */
  function EntryOf(platform: Platform, plan: Plan, side: Side, record: Record): (r: Option<Entry>)
    ensures r.Some? ==> r.value.side == side
  {
    var mapping := if side == Left then plan.left else plan.right;
    var keys := seq(|plan.keys|, i requires 0 <= i < |plan.keys| => KeyOf(platform, plan.keys[i], side, record));
    var measure := BindingOf(platform, mapping.measure, record);
    var unit := BindingOf(platform, mapping.unit, record);
    var value := ReadDecimal(ValueAt(record, mapping.valueField));
    var marked := "__kind" in record.values;
    var conversion := ConversionFor(plan.conversions, unit);
    if conversion.None? || value.None? then
      Some(Entry(side, record.id, record.index, Signature(keys, measure, unit), NormalText(value), marked))
    else
      var factor := ReadDecimalText(conversion.value.factor);
      var offset := ReadDecimalText(conversion.value.offset);
      if factor.None? || offset.None? || factor.value.coefficient <= 0 then None
      else
        var converted := Convert(value.value, factor.value, offset.value);
        Some(Entry(side, record.id, record.index, Signature(keys, measure, Some(conversion.value.to)),
                   Some(DecimalText(converted)), marked))
  }

  predicate Valid(platform: Platform, plan: Plan, side: Side, records: seq<Record>)
  {
    forall i | 0 <= i < |records| :: EntryOf(platform, plan, side, records[i]).Some?
  }

  function EntriesOf(platform: Platform, plan: Plan, side: Side, records: seq<Record>): (es: seq<Entry>)
    requires Valid(platform, plan, side, records)
    ensures |es| == |records|
    ensures forall i | 0 <= i < |es| :: es[i] == EntryOf(platform, plan, side, records[i]).value
  {
    seq(|records|, i requires 0 <= i < |records| => EntryOf(platform, plan, side, records[i]).value)
  }

  // --- Groups ---------------------------------------------------------------------------------------------

  datatype Status = Incomplete | LeftOnly | Added | Unchanged | Revised | Conflict

  datatype Member = Member(side: Side, recordId: string, index: int, value: Option<string>)

  datatype Group = Group(groupIndex: nat, keys: seq<string>, measure: Option<string>, unit: Option<string>,
                         status: Status, selectedRecordId: Option<string>, value: Option<string>,
                         members: seq<Member>)

  /** Complete entries with the same signature belong together; incomplete entries stay alone. */
  predicate Together(a: Entry, b: Entry)
  {
    !a.Incomplete() && !b.Incomplete() && a.signature == b.signature
  }

  predicate Opens(es: seq<Entry>, i: nat)
    requires i < |es|
  {
    forall j | 0 <= j < i :: !Together(es[j], es[i])
  }

  /** The positions of the entries that open a group, in order. */
  function Openers(es: seq<Entry>): (r: seq<nat>)
    ensures forall k | 0 <= k < |r| :: r[k] < |es|
  {
    if es == [] then []
    else Openers(es[..|es| - 1]) + (if Opens(es, |es| - 1) then [|es| - 1] else [])
  }

  function ToMember(e: Entry): Member
  {
    Member(e.side, e.recordId, e.index, e.value)
  }

  function Members(es: seq<Entry>): (ms: seq<Member>)
    ensures |ms| == |es|
    ensures forall i | 0 <= i < |ms| :: ms[i] == ToMember(es[i])
  {
    seq(|es|, i requires 0 <= i < |es| => ToMember(es[i]))
  }

  function Shares(s: Signature): Entry -> bool
  {
    (e: Entry) => !e.Incomplete() && e.signature == s
  }

  /** The entries of the group that entry `i` opens: itself alone, or all that share its signature. */
  function GroupEntries(es: seq<Entry>, i: nat): seq<Entry>
    requires i < |es|
  {
    if es[i].Incomplete() then [es[i]] else Keep(Shares(es[i].signature), es)
  }

  function KeyTexts(keys: seq<Option<string>>): seq<string>
  {
    seq(|keys|, i requires 0 <= i < |keys| => if keys[i].Some? then keys[i].value else "")
  }

  function NewGroup(e: Entry, groupIndex: nat, members: seq<Member>): Group
  {
    Group(groupIndex, KeyTexts(e.signature.keys), e.signature.measure, e.signature.unit,
          if e.Incomplete() then Incomplete else if e.side == Left then LeftOnly else Added, None, None, members)
  }

  function OpenGroup(es: seq<Entry>, k: nat): Group
    requires k < |Openers(es)|
  {
    NewGroup(es[Openers(es)[k]], k, Members(GroupEntries(es, Openers(es)[k])))
  }

  /** The groups of a list of entries, before classification: one for every opener, in order. */
  function OpenGroups(es: seq<Entry>): (gs: seq<Group>)
    ensures |gs| == |Openers(es)|
    ensures forall k | 0 <= k < |gs| :: gs[k] == OpenGroup(es, k)
  {
    seq(|Openers(es)|, k requires 0 <= k < |Openers(es)| => OpenGroup(es, k))
  }

  // --- How one more entry changes the groups -----------------------------------------------------------------

  lemma OpenersOfAppend(es: seq<Entry>, e: Entry)
    ensures Openers(es + [e]) == Openers(es) + (if Opens(es + [e], |es|) then [|es|] else [])
  {
    hide Opens;
    assert (es + [e])[..|es|] == es;
  }

  lemma GroupEntriesOfAppend(es: seq<Entry>, e: Entry, i: nat)
    requires i < |es|
    ensures GroupEntries(es + [e], i) == GroupEntries(es, i) + (if Together(es[i], e) then [e] else [])
  {
    if !es[i].Incomplete() {
      KeepAppend(Shares(es[i].signature), es, [e]);
      assert [e][..0] == [];
      assert Keep(Shares(es[i].signature), [e]) == if Together(es[i], e) then [e] else [];
    }
  }

  lemma MembersOfAppend(es: seq<Entry>, e: Entry)
    ensures Members(es + [e]) == Members(es) + [ToMember(e)]
  {
  }

  lemma OpenGroupOfAppend(es: seq<Entry>, e: Entry, k: nat)
    requires k < |Openers(es)|
    ensures k < |Openers(es + [e])|
    ensures OpenGroup(es + [e], k)
         == if Together(es[Openers(es)[k]], e) then Joined(OpenGroup(es, k), e) else OpenGroup(es, k)
  {
    OpenersOfAppend(es, e);
    var i := Openers(es)[k];
    assert Openers(es + [e])[k] == i && (es + [e])[i] == es[i];
    GroupEntriesOfAppend(es, e, i);
    hide GroupEntries, Openers, Opens;
    if Together(es[i], e) {
      MembersOfAppend(GroupEntries(es, i), e);
    } else {
      assert GroupEntries(es, i) + [] == GroupEntries(es, i);
    }
  }

  function Joined(g: Group, e: Entry): Group
  {
    g.(members := g.members + [ToMember(e)])
  }

  /** The map from signatures to groups: exactly the signatures of complete entries. */
  ghost predicate Indexes(byKey: map<Signature, nat>, es: seq<Entry>)
  {
    && (forall s | s in byKey :: byKey[s] < |Openers(es)| && Shares(s)(es[Openers(es)[byKey[s]]]))
    && (forall i | 0 <= i < |es| && !es[i].Incomplete() :: es[i].signature in byKey)
  }

  lemma OpensIffNew(byKey: map<Signature, nat>, es: seq<Entry>, e: Entry)
    requires Indexes(byKey, es)
    ensures Opens(es + [e], |es|) <==> e.Incomplete() || e.signature !in byKey
  {
    if !e.Incomplete() && e.signature in byKey {
      var i := Openers(es)[byKey[e.signature]];
      assert (es + [e])[i] == es[i] && Together(es[i], e);
    }
  }

  lemma OpensAlone(es: seq<Entry>, e: Entry)
    requires Opens(es + [e], |es|)
    ensures |Openers(es + [e])| == |Openers(es)| + 1
    ensures OpenGroup(es + [e], |Openers(es)|) == NewGroup(e, |Openers(es)|, [ToMember(e)])
  {
    hide Opens, GroupEntries, NewGroup, Openers;
    OpenersOfAppend(es, e);
    AloneInGroup(es, e);
    assert (es + [e])[|es|] == e;
    assert Members([e]) == [ToMember(e)];
  }

  lemma AloneInGroup(es: seq<Entry>, e: Entry)
    requires Opens(es + [e], |es|)
    ensures GroupEntries(es + [e], |es|) == [e]
  {
    var all := es + [e];
    assert all[|es|] == e;
    if !e.Incomplete() {
      forall i | 0 <= i < |es| ensures !Shares(e.signature)(es[i]) {
        assert all[i] == es[i] && !Together(all[i], all[|es|]);
      }
      hide Opens;
      KeepAppend(Shares(e.signature), es, [e]);
      KeepNone(Shares(e.signature), es);
      KeepOne(Shares(e.signature), e);
    }
  }

  lemma KeepOne(p: Entry -> bool, e: Entry)
    requires p(e)
    ensures Keep(p, [e]) == [e]
  {
    assert [e][..0] == [];
  }

  /** An entry that opens a group is appended as one. */
  lemma AppendGroup(byKey: map<Signature, nat>, es: seq<Entry>, e: Entry)
    requires Indexes(byKey, es) && (e.Incomplete() || e.signature !in byKey)
    ensures OpenGroups(es + [e]) == OpenGroups(es) + [NewGroup(e, |Openers(es)|, [ToMember(e)])]
    ensures Indexes(if e.Incomplete() then byKey else byKey[e.signature := |Openers(es)|], es + [e])
  {
    hide Indexes, Opens, NewGroup, OpenGroup, Openers, ToMember;
    OpensIffNew(byKey, es, e);
    AppendIndex(byKey, es, e);
    OpenersOfAppend(es, e);
    OpensAlone(es, e);
    forall k | 0 <= k < |Openers(es)| ensures OpenGroup(es + [e], k) == OpenGroup(es, k) {
      OtherGroupStays(es, e, k);
    }
  }

  lemma OtherGroupStays(es: seq<Entry>, e: Entry, k: nat)
    requires k < |Openers(es)| && Opens(es + [e], |es|)
    ensures k < |Openers(es + [e])| && OpenGroup(es + [e], k) == OpenGroup(es, k)
  {
    OpenGroupOfAppend(es, e, k);
    var i := Openers(es)[k];
    assert (es + [e])[i] == es[i] && (es + [e])[|es|] == e;
    hide OpenGroup, Openers;
  }

  lemma AppendIndex(byKey: map<Signature, nat>, es: seq<Entry>, e: Entry)
    requires Indexes(byKey, es) && Opens(es + [e], |es|)
    ensures Indexes(if e.Incomplete() then byKey else byKey[e.signature := |Openers(es)|], es + [e])
  {
    OpenersOfAppend(es, e);
    hide Openers, Opens;
  }

  lemma SameSignatureSameOpener(es: seq<Entry>, k: nat, l: nat)
    requires k < |Openers(es)| && l < |Openers(es)| && Together(es[Openers(es)[k]], es[Openers(es)[l]])
    ensures k == l
  {
    OpenersAscend(es);
    OpenersOpen(es);
  }

  lemma {:induction false} OpenersAscend(es: seq<Entry>)
    ensures forall k, l | 0 <= k < l < |Openers(es)| :: Openers(es)[k] < Openers(es)[l]
  {
    if es != [] { OpenersAscend(es[..|es| - 1]); }
  }

  lemma {:induction false} OpenersOpen(es: seq<Entry>)
    ensures forall k | 0 <= k < |Openers(es)| :: Opens(es, Openers(es)[k])
    ensures forall i | 0 <= i < |es| && Opens(es, i) :: i in Openers(es)
  {
    if es != [] {
      var init := es[..|es| - 1];
      OpenersOpen(init);
      forall i | 0 <= i < |init| ensures Opens(init, i) == Opens(es, i) {
      }
      forall i | 0 <= i < |es| && Opens(es, i) ensures i in Openers(es) {
        if i < |init| { assert i in Openers(init); }
      }
    }
  }

  /** An entry whose signature has a group joins it, and no other group changes. */
  lemma JoinGroup(byKey: map<Signature, nat>, es: seq<Entry>, e: Entry)
    requires Indexes(byKey, es) && !e.Incomplete() && e.signature in byKey
    ensures var k := byKey[e.signature];
            OpenGroups(es + [e]) == OpenGroups(es)[k := Joined(OpenGroups(es)[k], e)]
    ensures Indexes(byKey, es + [e])
  {
    hide Openers, Opens, OpenGroup;
    OpensIffNew(byKey, es, e);
    OpenersOfAppend(es, e);
    assert Openers(es + [e]) == Openers(es);
    var k := byKey[e.signature];
    forall l | 0 <= l < |Openers(es)|
      ensures OpenGroup(es + [e], l) == if l == k then Joined(OpenGroup(es, k), e) else OpenGroup(es, l)
    {
      OpenGroupOfAppend(es, e, l);
      if Together(es[Openers(es)[l]], e) { SameSignatureSameOpener(es, l, k); }
    }
  }

  // --- Classification ---------------------------------------------------------------------------------------

  function ValuesOn(ms: seq<Member>, side: Side): set<Option<string>>
  {
    set m | m in ms && m.side == side :: m.value
  }

  function FirstOn(ms: seq<Member>, side: Side): Option<Member>
  {
    if ms == [] then None else if ms[0].side == side then Some(ms[0]) else FirstOn(ms[1..], side)
  }

  function OrElse<T>(a: Option<T>, b: Option<T>): Option<T>
  {
    if a.Some? then a else b
  }

  /** The status of a complete group depends only on the values of its two sides. */
  function StatusOf(rightRevisesLeft: bool, left: set<Option<string>>, right: set<Option<string>>): Status
  {
    if |left + right| == 1 then
      if left != {} && right != {} then Unchanged else if left != {} then LeftOnly else Added
    else if rightRevisesLeft && |left| == 1 && |right| == 1 then Revised
    else Conflict
  }

  /** The member whose value a group stands for. */
  function Selected(status: Status, ms: seq<Member>): Option<Member>
  {
    match status
    case Revised => FirstOn(ms, Right)
    case Conflict => None
    case Incomplete => None
    case _ => OrElse(FirstOn(ms, Left), FirstOn(ms, Right))
  }

  function Settled(rightRevisesLeft: bool, g: Group): Group
  {
    if g.status == Incomplete then g
    else
      var status := StatusOf(rightRevisesLeft, ValuesOn(g.members, Left), ValuesOn(g.members, Right));
      var selected := Selected(status, g.members);
      g.(status := status,
         selectedRecordId := if selected.Some? then Some(selected.value.recordId) else None,
         value := if selected.Some? then selected.value.value else None)
  }

  // --- The declarative summary ----------------------------------------------------------------------------------

  datatype Relation = Unresolved | Revision | FormatCopyCandidate | Overlap | Disjoint

  datatype Summary = Summary(parsedRecordCount: nat, candidateObservationCount: Option<nat>, duplicateRecordCount: int,
                             unchangedCount: nat, leftOnlyCount: nat, addedCount: nat, revisedCount: nat,
                             conflictCount: nat, incompleteRecordCount: nat, relation: Relation)

  datatype Report = Report(summary: Summary, groups: seq<Group>)

  /** A signature observed with a value. */
  datatype Fact = Fact(signature: Signature, value: Option<string>)

  ghost function FactsOn(es: seq<Entry>, side: Side): set<Fact>
  {
    set e | e in es && !e.Incomplete() && e.side == side :: Fact(e.signature, e.value)
  }

  ghost function ValuesOf(facts: set<Fact>, s: Signature): set<Option<string>>
  {
    set f | f in facts && f.signature == s :: f.value
  }

  ghost function SignaturesOf(facts: set<Fact>): set<Signature>
  {
    set f | f in facts :: f.signature
  }

  /** The signatures among `all` whose group has the given status. */
  ghost function WithStatus(revises: bool, left: set<Fact>, right: set<Fact>, all: set<Signature>, status: Status): set<Signature>
  {
    set s | s in all && StatusOf(revises, ValuesOf(left, s), ValuesOf(right, s)) == status
  }

  ghost function CountOf(revises: bool, left: set<Fact>, right: set<Fact>, all: set<Signature>, status: Status): nat
  {
    |WithStatus(revises, left, right, all, status)|
  }

  const IsIncomplete: Entry -> bool := (e: Entry) => e.Incomplete()

  const IsComplete: Entry -> bool := (e: Entry) => !e.Incomplete()

  function RelationOf(unresolved: bool, revised: nat, same: nat, leftOnly: nat, added: nat): Relation
  {
    if unresolved then Unresolved
    else if revised > 0 then Revision
    else if same > 0 && leftOnly == 0 && added == 0 then FormatCopyCandidate
    else if same > 0 then Overlap
    else Disjoint
  }

  /** The summary, from the facts of the two sides and the numbers of entries: every count is a number of
      signatures with a status, and duplicates are the complete entries that add no new fact. */
  ghost function SummaryOf(revises: bool, left: set<Fact>, right: set<Fact>, complete: nat, incomplete: nat): Summary
  {
    var all := SignaturesOf(left + right);
    var same, leftOnly := CountOf(revises, left, right, all, Unchanged), CountOf(revises, left, right, all, LeftOnly);
    var added, revised := CountOf(revises, left, right, all, Added), CountOf(revises, left, right, all, Revised);
    var conflict := CountOf(revises, left, right, all, Conflict);
    var unresolved := conflict > 0 || incomplete > 0;
    Summary(complete + incomplete, if unresolved then None else Some(|all|), complete - |left + right|,
            same, leftOnly, added, revised, conflict, incomplete,
            RelationOf(unresolved, revised, same, leftOnly, added))
  }

  ghost function SummaryOfEntries(revises: bool, es: seq<Entry>): Summary
  {
    SummaryOf(revises, FactsOn(es, Left), FactsOn(es, Right), |Keep(IsComplete, es)|, |Keep(IsIncomplete, es)|)
  }

  /** The groups of all entries, classified. */
  function SettledGroups(revises: bool, es: seq<Entry>): (gs: seq<Group>)
    ensures |gs| == |OpenGroups(es)|
    ensures forall k | 0 <= k < |gs| :: gs[k] == Settled(revises, OpenGroups(es)[k])
  {
    var open := OpenGroups(es);
    seq(|open|, k requires 0 <= k < |open| => Settled(revises, open[k]))
  }

  /** What reconciliation is specified to return. */
  ghost function Reconciled(platform: Platform, plan: Plan, left: seq<Record>, right: seq<Record>): Result<Report, Error>
  {
    if |left| + |right| > MaxRecords then Err(ReconciliationLimit)
    else if !Valid(platform, plan, Left, left) || !Valid(platform, plan, Right, right) then Err(InvalidConversion)
    else
      var es := EntriesOf(platform, plan, Left, left) + EntriesOf(platform, plan, Right, right);
      Ok(Report(SummaryOfEntries(plan.rightRevisesLeft, es), SettledGroups(plan.rightRevisesLeft, es)))
  }

  // --- The implementation -----------------------------------------------------------------------------------------

  /** The first pass: groups in order of first appearance, found through the key map. */
  method GroupRecords(platform: Platform, plan: Plan, left: seq<Record>, right: seq<Record>)
    returns (valid: bool, groups: seq<Group>, incompleteRecordCount: nat)
    ensures valid == (Valid(platform, plan, Left, left) && Valid(platform, plan, Right, right))
    ensures valid ==>
      var es := EntriesOf(platform, plan, Left, left) + EntriesOf(platform, plan, Right, right);
      (groups == OpenGroups(es) && incompleteRecordCount == |Keep(IsIncomplete, es)|)
  {
    hide EntryOf, OpenGroups, Keep, Indexes, Entry.Incomplete;
    groups, incompleteRecordCount := [], 0;
    var byKey: map<Signature, nat> := map[];
    ghost var es: seq<Entry> := [];
    NoGroups();
    var sides := [Left, Right];
    for s := 0 to 2
      invariant s >= 1 ==> Valid(platform, plan, Left, left)
      invariant s >= 2 ==> Valid(platform, plan, Right, right)
      invariant es == (if s >= 1 then EntriesOf(platform, plan, Left, left) else [])
                    + (if s >= 2 then EntriesOf(platform, plan, Right, right) else [])
      invariant groups == OpenGroups(es) && Indexes(byKey, es)
      invariant incompleteRecordCount == |Keep(IsIncomplete, es)|
    {
      var side := sides[s];
      var records := if side == Left then left else right;
      ghost var before := es;
      for i := 0 to |records|
        invariant Valid(platform, plan, side, records[..i])
        invariant es == before + EntriesOf(platform, plan, side, records[..i])
        invariant groups == OpenGroups(es) && Indexes(byKey, es)
        invariant incompleteRecordCount == |Keep(IsIncomplete, es)|
      {
        var read := EntryOf(platform, plan, side, records[i]);
        if read.None? { return false, [], 0; }
        var entry := read.value;
        EntriesGrow(platform, plan, side, records, i);
        CountGrows(es, entry);
        groups, byKey := PlaceEntry(groups, byKey, entry, es);
        if entry.Incomplete() { incompleteRecordCount := incompleteRecordCount + 1; }
        es := es + [entry];
      }
      assert records[..|records|] == records;
    }
    valid := true;
  }

  /** One entry joins its group or opens a new one. */
  method PlaceEntry(groups: seq<Group>, byKey: map<Signature, nat>, entry: Entry, ghost es: seq<Entry>)
    returns (after: seq<Group>, index: map<Signature, nat>)
    requires groups == OpenGroups(es) && Indexes(byKey, es)
    ensures after == OpenGroups(es + [entry]) && Indexes(index, es + [entry])
  {
    hide NewGroup, Indexes, OpenGroup, Openers;
    if !entry.Incomplete() && entry.signature in byKey {
      JoinGroup(byKey, es, entry);
      var k := IndexFound(byKey, es, entry.signature);
      after, index := groups[k := Joined(groups[k], entry)], byKey;
    } else {
      AppendGroup(byKey, es, entry);
      var k := |groups|;
      after := groups + [NewGroup(entry, k, [ToMember(entry)])];
      index := if entry.Incomplete() then byKey else byKey[entry.signature := k];
    }
  }

  function IndexFound(byKey: map<Signature, nat>, ghost es: seq<Entry>, s: Signature): (k: nat)
    requires Indexes(byKey, es) && s in byKey
    ensures k == byKey[s] && k < |Openers(es)|
  {
    byKey[s]
  }

  lemma NoGroups()
    ensures OpenGroups([]) == [] && Indexes(map[], []) && |Keep(IsIncomplete, [])| == 0
  {
  }

  lemma EntriesGrow(platform: Platform, plan: Plan, side: Side, records: seq<Record>, i: nat)
    requires i < |records| && Valid(platform, plan, side, records[..i])
    requires EntryOf(platform, plan, side, records[i]).Some?
    ensures Valid(platform, plan, side, records[..i + 1])
    ensures EntriesOf(platform, plan, side, records[..i + 1])
         == EntriesOf(platform, plan, side, records[..i]) + [EntryOf(platform, plan, side, records[i]).value]
  {
    hide EntryOf;
    assert records[..i + 1] == records[..i] + [records[i]];
  }

  lemma CountGrows(es: seq<Entry>, e: Entry)
    ensures |Keep(IsIncomplete, es + [e])| == |Keep(IsIncomplete, es)| + (if e.Incomplete() then 1 else 0)
  {
    assert (es + [e])[..|es|] == es;
  }

  // --- The second pass ----------------------------------------------------------------------------------------------

  /** The complete entries whose signature is in `some`. */
  function SharesOneOf(some: set<Signature>): Entry -> bool
  {
    (e: Entry) => !e.Incomplete() && e.signature in some
  }

  ghost function EntriesWith(es: seq<Entry>, some: set<Signature>): nat
  {
    |Keep(SharesOneOf(some), es)|
  }

  ghost function FactsWith(facts: set<Fact>, some: set<Signature>): nat
  {
    |set f | f in facts && f.signature in some|
  }

  lemma CountOneMore(revises: bool, left: set<Fact>, right: set<Fact>, all: set<Signature>, s: Signature, status: Status)
    requires s !in all
    ensures CountOf(revises, left, right, all + {s}, status)
         == CountOf(revises, left, right, all, status)
            + (if StatusOf(revises, ValuesOf(left, s), ValuesOf(right, s)) == status then 1 else 0)
  {
    hide StatusOf, ValuesOf;
    var here := StatusOf(revises, ValuesOf(left, s), ValuesOf(right, s)) == status;
    assert WithStatus(revises, left, right, all + {s}, status)
        == WithStatus(revises, left, right, all, status) + (if here then {s} else {});
  }

  lemma {:induction false} EntriesWithOneMore(es: seq<Entry>, all: set<Signature>, s: Signature)
    requires s !in all
    ensures EntriesWith(es, all + {s}) == EntriesWith(es, all) + |Keep(Shares(s), es)|
  {
    if es != [] { EntriesWithOneMore(es[..|es| - 1], all, s); }
  }

  lemma {:induction false} SameSize(s: Signature, values: set<Option<string>>)
    ensures |set v | v in values :: Fact(s, v)| == |values|
  {
    if v :| v in values {
      SameSize(s, values - {v});
      assert (set w | w in values :: Fact(s, w)) == (set w | w in values - {v} :: Fact(s, w)) + {Fact(s, v)};
    }
  }

  lemma FactsWithOneMore(facts: set<Fact>, all: set<Signature>, s: Signature)
    requires s !in all
    ensures FactsWith(facts, all + {s}) == FactsWith(facts, all) + |ValuesOf(facts, s)|
  {
    var values := ValuesOf(facts, s);
    SameSize(s, values);
    var here := set v | v in values :: Fact(s, v);
    assert here == set f | f in facts && f.signature == s;
    assert (set f | f in facts && f.signature in all + {s}) == (set f | f in facts && f.signature in all) + here;
  }

  /** The values of a group's members on a side are the values its signature was observed with there. */
  lemma MemberValues(es: seq<Entry>, s: Signature, side: Side)
    ensures ValuesOn(Members(Keep(Shares(s), es)), side) == ValuesOf(FactsOn(es, side), s)
  {
    var kept := Keep(Shares(s), es);
    var ms := Members(kept);
    forall v | v in ValuesOn(ms, side) ensures v in ValuesOf(FactsOn(es, side), s) {
      var m :| m in ms && m.side == side && m.value == v;
      var i :| 0 <= i < |ms| && ms[i] == m;
      KeepMembers(Shares(s), es, kept[i]);
      assert Fact(s, v) in FactsOn(es, side);
    }
    forall v | v in ValuesOf(FactsOn(es, side), s) ensures v in ValuesOn(ms, side) {
      var e :| e in es && !e.Incomplete() && e.side == side && Fact(e.signature, e.value) == Fact(s, v);
      KeepMembers(Shares(s), es, e);
      var i :| 0 <= i < |kept| && kept[i] == e;
      assert ms[i] == ToMember(e);
    }
  }

  ghost function SeenIn(es: seq<Entry>, n: nat): set<Signature>
    requires n <= |Openers(es)|
  {
    set k | 0 <= k < n && !es[Openers(es)[k]].Incomplete() :: es[Openers(es)[k]].signature
  }

  lemma SeenOneMore(es: seq<Entry>, n: nat)
    requires n < |Openers(es)|
    ensures var e := es[Openers(es)[n]];
            if e.Incomplete() then SeenIn(es, n + 1) == SeenIn(es, n)
            else e.signature !in SeenIn(es, n) && SeenIn(es, n + 1) == SeenIn(es, n) + {e.signature}
  {
    var e := es[Openers(es)[n]];
    if !e.Incomplete() && e.signature in SeenIn(es, n) {
      var k :| 0 <= k < n && !es[Openers(es)[k]].Incomplete() && es[Openers(es)[k]].signature == e.signature;
      SameSignatureSameOpener(es, k, n);
    }
  }

  lemma {:induction false} EveryEntryHasOpener(es: seq<Entry>, i: nat)
    requires i < |es|
    ensures exists o: nat :: IsOpenerOf(es, i, o)
  {
    if Opens(es, i) {
      OpenersOpen(es);
      assert IsOpenerOf(es, i, i);
    } else {
      var j :| 0 <= j < i && Together(es[j], es[i]);
      EveryEntryHasOpener(es, j);
      var o: nat :| IsOpenerOf(es, j, o);
      assert IsOpenerOf(es, i, o);
    }
  }

  ghost predicate IsOpenerOf(es: seq<Entry>, i: nat, o: nat)
    requires i < |es|
  {
    o in Openers(es) && o < |es| && (o == i || Together(es[o], es[i]))
  }

  lemma AllSeen(es: seq<Entry>)
    ensures SeenIn(es, |Openers(es)|) == SignaturesOf(FactsOn(es, Left) + FactsOn(es, Right))
  {
    var seen, facts := SeenIn(es, |Openers(es)|), FactsOn(es, Left) + FactsOn(es, Right);
    forall s | s in seen ensures s in SignaturesOf(facts) {
      var k :| 0 <= k < |Openers(es)| && !es[Openers(es)[k]].Incomplete() && es[Openers(es)[k]].signature == s;
      var e := es[Openers(es)[k]];
      assert Fact(e.signature, e.value) in facts;
    }
    forall s | s in SignaturesOf(facts) ensures s in seen {
      var f :| f in facts && f.signature == s;
      var e :| e in es && !e.Incomplete() && Fact(e.signature, e.value) == f;
      var i :| 0 <= i < |es| && es[i] == e;
      EveryEntryHasOpener(es, i);
      var o: nat :| IsOpenerOf(es, i, o);
      var k :| 0 <= k < |Openers(es)| && Openers(es)[k] == o;
    }
  }

  lemma AllCovered(es: seq<Entry>, facts: set<Fact>)
    requires facts == FactsOn(es, Left) + FactsOn(es, Right)
    ensures EntriesWith(es, SignaturesOf(facts)) == |Keep(IsComplete, es)|
    ensures FactsWith(facts, SignaturesOf(facts)) == |facts|
  {
    var all := SignaturesOf(facts);
    forall i | 0 <= i < |es| ensures SharesOneOf(all)(es[i]) == IsComplete(es[i]) {
      if !es[i].Incomplete() { assert Fact(es[i].signature, es[i].value) in facts; }
    }
    KeepAgrees(SharesOneOf(all), IsComplete, es);
    assert (set f | f in facts && f.signature in all) == facts;
  }

  lemma {:induction false} CompleteOrIncomplete(es: seq<Entry>)
    ensures |Keep(IsComplete, es)| + |Keep(IsIncomplete, es)| == |es|
  {
    if es != [] { CompleteOrIncomplete(es[..|es| - 1]); }
  }

  lemma NoneIncomplete(es: seq<Entry>, i: nat)
    requires i < |es| && |Keep(IsIncomplete, es)| == 0
    ensures !es[i].Incomplete()
  {
    KeepMembers(IsIncomplete, es, es[i]);
  }

  /** What the second pass needs to know about the group it is looking at. */
  lemma GroupFacts(es: seq<Entry>, k: nat)
    requires k < |Openers(es)|
    ensures var g, e := OpenGroup(es, k), es[Openers(es)[k]];
      ((g.status == Incomplete <==> e.Incomplete())
       && (!e.Incomplete() ==>
            |g.members| == |Keep(Shares(e.signature), es)|
            && ValuesOn(g.members, Left) == ValuesOf(FactsOn(es, Left), e.signature)
            && ValuesOn(g.members, Right) == ValuesOf(FactsOn(es, Right), e.signature)))
  {
    var e := es[Openers(es)[k]];
    MemberValues(es, e.signature, Left);
    MemberValues(es, e.signature, Right);
    hide ValuesOn, ValuesOf, FactsOn, Keep;
  }

  lemma UnionValues(a: set<Fact>, b: set<Fact>, s: Signature)
    ensures ValuesOf(a + b, s) == ValuesOf(a, s) + ValuesOf(b, s)
  {
    forall v ensures v in ValuesOf(a + b, s) <==> v in ValuesOf(a, s) + ValuesOf(b, s) {
      assert v in ValuesOf(a + b, s) <==> Fact(s, v) in a + b;
      assert v in ValuesOf(a, s) <==> Fact(s, v) in a;
      assert v in ValuesOf(b, s) <==> Fact(s, v) in b;
    }
  }

  /** The counters of the second pass, as they stand when the signatures in `seen` have been counted. */
  ghost predicate Counted(revises: bool, es: seq<Entry>, seen: set<Signature>, duplicates: int, same: nat,
                          leftOnly: nat, added: nat, revised: nat, conflict: nat)
  {
    var left, right := FactsOn(es, Left), FactsOn(es, Right);
    && duplicates == EntriesWith(es, seen) - FactsWith(left + right, seen)
    && same == CountOf(revises, left, right, seen, Unchanged)
    && leftOnly == CountOf(revises, left, right, seen, LeftOnly)
    && added == CountOf(revises, left, right, seen, Added)
    && revised == CountOf(revises, left, right, seen, Revised)
    && conflict == CountOf(revises, left, right, seen, Conflict)
  }

  function One(b: bool): nat
  {
    if b then 1 else 0
  }

  lemma CountGroup(revises: bool, es: seq<Entry>, k: nat, duplicates: int, same: nat, leftOnly: nat, added: nat,
                   revised: nat, conflict: nat)
    requires k < |Openers(es)| && !es[Openers(es)[k]].Incomplete()
    requires Counted(revises, es, SeenIn(es, k), duplicates, same, leftOnly, added, revised, conflict)
    ensures var ms, status := OpenGroup(es, k).members, Settled(revises, OpenGroup(es, k)).status;
      Counted(revises, es, SeenIn(es, k + 1), duplicates + |ms| - |ValuesOn(ms, Left) + ValuesOn(ms, Right)|,
              same + One(status == Unchanged), leftOnly + One(status == LeftOnly), added + One(status == Added),
              revised + One(status == Revised), conflict + One(status == Conflict))
  {
    hide EntriesWith, FactsWith, CountOf, ValuesOf, ValuesOn, FactsOn, SeenIn, OpenGroup, StatusOf, Openers, Keep;
    var left, right := FactsOn(es, Left), FactsOn(es, Right);
    var seen, s := SeenIn(es, k), es[Openers(es)[k]].signature;
    SeenOneMore(es, k);
    GroupFacts(es, k);
    EntriesWithOneMore(es, seen, s);
    FactsWithOneMore(left + right, seen, s);
    UnionValues(left, right, s);
    CountOneMore(revises, left, right, seen, s, Unchanged);
    CountOneMore(revises, left, right, seen, s, LeftOnly);
    CountOneMore(revises, left, right, seen, s, Added);
    CountOneMore(revises, left, right, seen, s, Revised);
    CountOneMore(revises, left, right, seen, s, Conflict);
  }

  lemma NothingCounted(revises: bool, es: seq<Entry>)
    ensures Counted(revises, es, SeenIn(es, 0), 0, 0, 0, 0, 0, 0)
  {
    assert SeenIn(es, 0) == {};
    KeepNone(SharesOneOf({}), es);
  }

  lemma AllCounted(revises: bool, es: seq<Entry>, duplicates: int, same: nat, leftOnly: nat, added: nat,
                   revised: nat, conflict: nat)
    requires Counted(revises, es, SeenIn(es, |Openers(es)|), duplicates, same, leftOnly, added, revised, conflict)
    ensures var summary := SummaryOfEntries(revises, es);
      (summary.duplicateRecordCount == duplicates && summary.unchangedCount == same && summary.leftOnlyCount == leftOnly
       && summary.addedCount == added && summary.revisedCount == revised && summary.conflictCount == conflict)
    ensures SummaryOfEntries(revises, es).parsedRecordCount == |es|
  {
    AllSeen(es);
    AllCovered(es, FactsOn(es, Left) + FactsOn(es, Right));
    CompleteOrIncomplete(es);
    hide CountOf, EntriesWith, FactsWith, FactsOn, Keep, SeenIn, SignaturesOf, RelationOf;
  }

  /** The second pass: every complete group is classified and counted. */
  method Classify(revises: bool, ghost es: seq<Entry>, groups: seq<Group>, incompleteRecordCount: nat, recordCount: nat)
    returns (report: Report)
    requires groups == OpenGroups(es) && incompleteRecordCount == |Keep(IsIncomplete, es)| && recordCount == |es|
    ensures report == Report(SummaryOfEntries(revises, es), SettledGroups(revises, es))
  {
    hide Keep, Counted, SeenIn, OpenGroup, Openers, StatusOf, ValuesOn, FactsOn, Selected, SignaturesOf;
    var settled := groups;
    var duplicates: int := 0;
    var same: nat, leftOnly: nat, added: nat, revised: nat, conflict: nat := 0, 0, 0, 0, 0;
    NothingCounted(revises, es);
    ghost var seen := SeenIn(es, 0);
    assert seen == {} by { NothingSeen(es); }
    for i := 0 to |groups|
      invariant |settled| == |groups|
      invariant forall k | 0 <= k < i :: settled[k] == Settled(revises, groups[k])
      invariant forall k | i <= k < |groups| :: settled[k] == groups[k]
      invariant seen == SeenIn(es, i)
      invariant Counted(revises, es, seen, duplicates, same, leftOnly, added, revised, conflict)
      invariant incompleteRecordCount == 0 ==> |seen| == i
    {
      var group := settled[i];
      GroupFacts(es, i);
      SeenOneMore(es, i);
      seen := SeenIn(es, i + 1);
      if group.status == Incomplete {
        if incompleteRecordCount == 0 { NoneIncomplete(es, Openers(es)[i]); }
        continue;
      }
      CountGroup(revises, es, i, duplicates, same, leftOnly, added, revised, conflict);
      var lv, rv := ValuesOn(group.members, Left), ValuesOn(group.members, Right);
      duplicates := duplicates + |group.members| - |lv + rv|;
      group := Settled(revises, group);
      settled := settled[i := group];
      same := same + One(group.status == Unchanged);
      leftOnly := leftOnly + One(group.status == LeftOnly);
      added := added + One(group.status == Added);
      revised := revised + One(group.status == Revised);
      conflict := conflict + One(group.status == Conflict);
    }
    AllCounted(revises, es, duplicates, same, leftOnly, added, revised, conflict);
    AllSeen(es);
    var unresolved := conflict > 0 || incompleteRecordCount > 0;
    var summary := Summary(recordCount, if unresolved then None else Some(|groups|), duplicates, same, leftOnly, added,
                           revised, conflict, incompleteRecordCount,
                           RelationOf(unresolved, revised, same, leftOnly, added));
    report := Report(summary, settled);
  }

  lemma NothingSeen(es: seq<Entry>)
    ensures SeenIn(es, 0) == {}
  {
  }

  /** Reconciliation returns what its declarative specification says. */
  method ReconcileObservations(platform: Platform, plan: Plan, left: seq<Record>, right: seq<Record>)
    returns (r: Result<Report, Error>)
    ensures r == Reconciled(platform, plan, left, right)
    ensures r == Err(ReconciliationLimit) <==> |left| + |right| > 50000
  {
    if |left| + |right| > MaxRecords { return Err(ReconciliationLimit); }
    var valid, groups, incomplete := GroupRecords(platform, plan, left, right);
    if !valid { return Err(InvalidConversion); }
    ghost var es := EntriesOf(platform, plan, Left, left) + EntriesOf(platform, plan, Right, right);
    var report := Classify(plan.rightRevisesLeft, es, groups, incomplete, |left| + |right|);
    r := Ok(report);
  }
}
