/** Canonical grouping of relation candidates: one candidate per identity, with all its evidence. */
module RelationGroups {
  import opened Outcomes
  import Order
  import JsonText

  // --- Candidates -----------------------------------------------------------------------------------------

  /** An entity of a source; `details` stands for the label and the external id. */
  datatype Entity = Entity(key: string, kind: string, reference: Option<string>, details: string)

  datatype Context = Context(recordNature: string, timeRole: string, details: string)

  /** An evidence location, as its JSON text: the text and the location determine each other. */
  type Evidence = string

  /** A candidate relation from a subject to a target; `qualifiers` stands for the qualifiers besides the context. */
  datatype Candidate = Candidate(subject: Entity, relation: string, target: Entity, context: Option<Context>,
                                 qualifiers: string, evidence: seq<Evidence>)
  {
    /** Its identity, as the text it is sorted by. */
    function Identity(): string
    {
      JsonText.Triple(subject.key, relation, target.key)
    }

    /** Everything but the evidence. */
    function Attributes(): Candidate
    {
      this.(evidence := [])
    }
  }

  datatype Group = Group(identity: string, candidate: Candidate)

  datatype Error = InvalidRelation | ConflictingEntity | ConflictingCandidate | TooManyEvidence

  const MaxEvidence := 64

  // --- Typed relations --------------------------------------------------------------------------------------

  datatype Rule = Rule(subjects: set<string>, objects: Option<set<string>>)

  const Rules: map<string, Rule> := map[
    "IDENTITY_MATCH" := Rule({"PERSON", "ORGANIZATION", "ENTERPRISE", "MONITORING_POINT", "RIVER_REACH", "BASIN", "PLACE",
                              "EXTERNAL_ENTITY"}, None),
    "EXPRESSES_CLAIM" := Rule({"PERSON", "ORGANIZATION"}, Some({"CLAIM"})),
    "REPORTS_CLAIM" := Rule({"DOCUMENT"}, Some({"CLAIM"})),
    "ABOUT_ENTITY" := Rule({"CLAIM", "EVENT", "DOCUMENT", "POLICY", "MODEL_RUN"}, None),
    "OBSERVES_ENTITY" := Rule({"OBSERVATION"}, Some({"MONITORING_POINT", "RIVER_REACH", "BASIN", "PLACE", "ENTERPRISE",
                                                     "EXTERNAL_ENTITY"})),
    "OCCURRED_IN" := Rule({"EVENT"}, Some({"RIVER_REACH", "BASIN", "PLACE"})),
    "CITES_SOURCE" := Rule({"DOCUMENT", "CLAIM"}, Some({"DOCUMENT"})),
    "DERIVED_FROM" := Rule({"DOCUMENT", "CLAIM", "OBSERVATION", "MODEL_RUN"},
                           Some({"DOCUMENT", "OBSERVATION", "MODEL_RUN", "EXTERNAL_ENTITY"})),
    "APPLIES_TO" := Rule({"POLICY", "CLAIM"}, None),
    "USES_DATA" := Rule({"MODEL_RUN"}, Some({"DOCUMENT", "OBSERVATION", "EXTERNAL_ENTITY"}))]

  const LegacyKinds: set<string> :=
    {"ENTERPRISE", "MONITORING_POINT", "INDICATOR_RECORD", "RIVER_REACH", "BASIN", "EXTERNAL_ENTITY"}

  /** Whether a relation's endpoints and context fit its predicate. */
  predicate Typed(row: Candidate)
  {
    && (if row.relation == "IDENTITY_MATCH" then
          row.subject.reference.Some? && row.target.reference.Some? && row.subject.reference != row.target.reference
          && row.subject.kind == row.target.kind && row.context.Some? && row.context.value.recordNature == "SOURCE_RELATION"
        else row.subject.reference.None? && row.target.reference.None?)
    && (if row.relation !in Rules then row.subject.kind in LegacyKinds && row.target.kind in LegacyKinds
        else
          var rule := Rules[row.relation];
          && row.context.Some? && row.subject.kind in rule.subjects
          && (rule.objects.Some? ==> row.target.kind in rule.objects.value)
          && (row.context.value.recordNature != "REPORTED_OBSERVATION" ==> row.context.value.timeRole != "OBSERVATION_TIME")
          && (row.relation == "OBSERVES_ENTITY" ==> row.context.value.recordNature == "REPORTED_OBSERVATION"))
  }

  // --- What grouping means ------------------------------------------------------------------------------------

  ghost predicate AllTyped(rows: seq<Candidate>)
  {
    forall i | 0 <= i < |rows| :: Typed(rows[i])
  }

  function Entities(rows: seq<Candidate>): seq<Entity>
  {
    if rows == [] then [] else Entities(rows[..|rows| - 1]) + [rows[|rows| - 1].subject, rows[|rows| - 1].target]
  }

  /** Entities with the same key are the same. */
  ghost predicate EntitiesAgree(es: seq<Entity>)
  {
    forall i, j | 0 <= i < |es| && 0 <= j < |es| && es[i].key == es[j].key :: es[i] == es[j]
  }

  /** Candidates with the same identity differ in nothing but evidence. */
  ghost predicate CandidatesAgree(rows: seq<Candidate>)
  {
    forall i, j | 0 <= i < |rows| && 0 <= j < |rows| && rows[i].Identity() == rows[j].Identity() ::
      rows[i].Attributes() == rows[j].Attributes()
  }

  /** All evidence given for an identity. */
  ghost function EvidenceFor(rows: seq<Candidate>, identity: string): set<Evidence>
  {
    set i, e | 0 <= i < |rows| && rows[i].Identity() == identity && e in rows[i].evidence :: e
  }

  ghost predicate EvidenceFits(rows: seq<Candidate>)
  {
    forall i | 0 <= i < |rows| :: |EvidenceFor(rows, rows[i].Identity())| <= MaxEvidence
  }

  ghost predicate Groupable(rows: seq<Candidate>)
  {
    AllTyped(rows) && EntitiesAgree(Entities(rows)) && CandidatesAgree(rows) && EvidenceFits(rows)
  }

  function Itself(s: string): string
  {
    s
  }

  function ByIdentity(g: Group): string
  {
    g.identity
  }

  /** A list without repetitions, in order. */
  ghost predicate Lists(xs: seq<Evidence>, s: set<Evidence>)
  {
    Order.Sorted(Itself, xs) && Order.DistinctKeys(Itself, xs) && forall x :: x in xs <==> x in s
  }

  /** A group holds the attributes of its rows and exactly their evidence, in order. */
  ghost predicate GroupOf(rows: seq<Candidate>, g: Group)
  {
    && (exists i | 0 <= i < |rows| :: rows[i].Identity() == g.identity && g.candidate.Attributes() == rows[i].Attributes())
    && Lists(g.candidate.evidence, EvidenceFor(rows, g.identity))
  }

  /** Groups in order of identity, one for every identity of the rows. */
  ghost predicate Grouping(rows: seq<Candidate>, groups: seq<Group>)
  {
    && Order.Sorted(ByIdentity, groups) && Order.DistinctKeys(ByIdentity, groups)
    && (forall k | 0 <= k < |groups| :: GroupOf(rows, groups[k]))
    && (forall i | 0 <= i < |rows| :: HasGroup(groups, rows[i].Identity()))
  }

  ghost predicate HasGroup(groups: seq<Group>, identity: string)
  {
    exists k | 0 <= k < |groups| :: groups[k].identity == identity
  }

  // --- The implementation ----------------------------------------------------------------------------------------

  method AssertEntityConsistency(es: seq<Entity>) returns (ok: bool)
    ensures ok <==> EntitiesAgree(es)
  {
    var seen: map<string, Entity> := map[];
    for i := 0 to |es|
      invariant forall k | k in seen :: seen[k] in es[..i] && seen[k].key == k
      invariant forall j | 0 <= j < i :: es[j].key in seen && seen[es[j].key] == es[j]
    {
      if es[i].key in seen && seen[es[i].key] != es[i] {
        var first := seen[es[i].key];
        var j :| 0 <= j < i && es[j] == first;
        assert es[j].key == es[i].key && es[j] != es[i];
        return false;
      }
      seen := seen[es[i].key := es[i]];
      assert es[..i + 1] == es[..i] + [es[i]];
    }
    ok := true;
  }

  /** A group while rows are still being added: its first candidate and its evidence so far, in any order. */
  datatype Open = Open(candidate: Candidate, evidence: seq<Evidence>)

  ghost predicate Collects(rows: seq<Candidate>, identity: string, open: Open)
  {
    && (exists i | 0 <= i < |rows| :: rows[i] == open.candidate && rows[i].Identity() == identity)
    && (forall i | 0 <= i < |rows| && rows[i].Identity() == identity :: rows[i].Attributes() == open.candidate.Attributes())
    && Order.DistinctKeys(Itself, open.evidence) && |open.evidence| <= MaxEvidence
    && (forall e :: e in open.evidence <==> e in EvidenceFor(rows, identity))
  }

  /** The open groups after some rows, in order of first appearance. */
  ghost predicate Collected(rows: seq<Candidate>, order: seq<string>, grouped: map<string, Open>)
  {
    && (forall k | k in grouped :: Collects(rows, k, grouped[k]))
    && (forall i | 0 <= i < |rows| :: rows[i].Identity() in grouped)
    && (forall k :: k in order <==> k in grouped)
    && (forall i, j | 0 <= i < j < |order| :: order[i] != order[j])
  }

  /** Add the items not yet there. */
  method AddEvidence(evidence: seq<Evidence>, items: seq<Evidence>) returns (all: seq<Evidence>)
    requires Order.DistinctKeys(Itself, evidence)
    ensures Order.DistinctKeys(Itself, all)
    ensures forall e :: e in all <==> e in evidence || e in items
  {
    all := evidence;
    for i := 0 to |items|
      invariant Order.DistinctKeys(Itself, all)
      invariant forall e :: e in all <==> e in evidence || e in items[..i]
    {
      assert items[..i + 1] == items[..i] + [items[i]];
      if items[i] !in all { all := all + [items[i]]; }
    }
    assert items[..|items|] == items;
  }

  lemma {:induction false} DistinctSize(xs: seq<Evidence>, s: set<Evidence>)
    requires Order.DistinctKeys(Itself, xs) && forall x :: x in xs <==> x in s
    ensures |xs| == |s|
  {
    if xs == [] {
      assert s == {};
    } else {
      var init, x := xs[..|xs| - 1], xs[|xs| - 1];
      assert xs == init + [x];
      forall y ensures y in init <==> y in s - {x} {
        if y in init {
          var i :| 0 <= i < |init| && init[i] == y;
          assert Itself(xs[i]) != Itself(xs[|xs| - 1]);
        }
      }
      assert Order.DistinctKeys(Itself, init);
      DistinctSize(init, s - {x});
    }
  }

  lemma EvidenceForAppend(rows: seq<Candidate>, row: Candidate, identity: string, e: Evidence)
    ensures e in EvidenceFor(rows + [row], identity)
       <==> e in EvidenceFor(rows, identity) || (row.Identity() == identity && e in row.evidence)
  {
    hide Candidate.Identity;
    var all := rows + [row];
    if e in EvidenceFor(rows, identity) {
      var i :| 0 <= i < |rows| && rows[i].Identity() == identity && e in rows[i].evidence;
      assert all[i] == rows[i];
    }
    assert all[|rows|] == row;
  }

  lemma EvidenceForGrows(rows: seq<Candidate>, n: nat, identity: string)
    requires n <= |rows|
    ensures EvidenceFor(rows[..n], identity) <= EvidenceFor(rows, identity)
  {
    hide Candidate.Identity;
  }

  /** A row joins the group of its identity. */
  lemma CollectsMore(rows: seq<Candidate>, row: Candidate, open: Open, evidence: seq<Evidence>)
    requires Collects(rows, row.Identity(), open) && row.Attributes() == open.candidate.Attributes()
    requires Order.DistinctKeys(Itself, evidence) && |evidence| <= MaxEvidence
    requires forall e :: e in evidence <==> e in open.evidence || e in row.evidence
    ensures Collects(rows + [row], row.Identity(), open.(evidence := evidence))
  {
    hide Candidate.Identity, EvidenceFor, Candidate.Attributes;
    forall e ensures e in evidence <==> e in EvidenceFor(rows + [row], row.Identity()) {
      EvidenceForAppend(rows, row, row.Identity(), e);
    }
    var i :| 0 <= i < |rows| && rows[i] == open.candidate && rows[i].Identity() == row.Identity();
    assert (rows + [row])[i] == rows[i];
  }

  /** A row of a new identity opens a group. */
  lemma CollectsFirst(rows: seq<Candidate>, row: Candidate, evidence: seq<Evidence>)
    requires forall i | 0 <= i < |rows| :: rows[i].Identity() != row.Identity()
    requires Order.DistinctKeys(Itself, evidence) && |evidence| <= MaxEvidence
    requires forall e :: e in evidence <==> e in row.evidence
    ensures Collects(rows + [row], row.Identity(), Open(row, evidence))
  {
    hide Candidate.Identity, EvidenceFor;
    forall e ensures e in evidence <==> e in EvidenceFor(rows + [row], row.Identity()) {
      EvidenceForAppend(rows, row, row.Identity(), e);
      NoEvidence(rows, row.Identity());
    }
    assert (rows + [row])[|rows|] == row;
  }

  lemma NoEvidence(rows: seq<Candidate>, identity: string)
    requires forall i | 0 <= i < |rows| :: rows[i].Identity() != identity
    ensures EvidenceFor(rows, identity) == {}
  {
  }

  lemma CollectsOther(rows: seq<Candidate>, row: Candidate, identity: string, open: Open)
    requires Collects(rows, identity, open) && row.Identity() != identity
    ensures Collects(rows + [row], identity, open)
  {
    hide Candidate.Identity, EvidenceFor, Candidate.Attributes;
    forall e ensures e in open.evidence <==> e in EvidenceFor(rows + [row], identity) {
      EvidenceForAppend(rows, row, identity, e);
    }
    var i :| 0 <= i < |rows| && rows[i] == open.candidate && rows[i].Identity() == identity;
    assert (rows + [row])[i] == rows[i];
  }

  lemma CollectedNext(rows: seq<Candidate>, order: seq<string>, grouped: map<string, Open>, row: Candidate, open: Open)
    requires Collected(rows, order, grouped) && Collects(rows + [row], row.Identity(), open)
    ensures Collected(rows + [row], if row.Identity() in grouped then order else order + [row.Identity()],
                      grouped[row.Identity() := open])
  {
    hide Candidate.Identity, Collects;
    forall k | k in grouped && k != row.Identity() ensures Collects(rows + [row], k, grouped[k]) {
      CollectsOther(rows, row, k, grouped[k]);
    }
  }

  lemma CollectedMeans(rows: seq<Candidate>, order: seq<string>, grouped: map<string, Open>)
    requires Collected(rows, order, grouped)
    ensures CandidatesAgree(rows) && EvidenceFits(rows)
  {
    hide Candidate.Identity, EvidenceFor;
    forall i | 0 <= i < |rows| ensures |EvidenceFor(rows, rows[i].Identity())| <= MaxEvidence {
      var open := grouped[rows[i].Identity()];
      DistinctSize(open.evidence, EvidenceFor(rows, rows[i].Identity()));
    }
    forall i, j | 0 <= i < |rows| && 0 <= j < |rows| && rows[i].Identity() == rows[j].Identity()
      ensures rows[i].Attributes() == rows[j].Attributes()
    {
      assert Collects(rows, rows[i].Identity(), grouped[rows[i].Identity()]);
    }
  }

  lemma TooMuch(rows: seq<Candidate>, n: nat, evidence: seq<Evidence>)
    requires n < |rows| && Order.DistinctKeys(Itself, evidence) && |evidence| > MaxEvidence
    requires forall e :: e in evidence <==> e in EvidenceFor(rows[..n + 1], rows[n].Identity())
    ensures !EvidenceFits(rows)
  {
    hide Candidate.Identity, EvidenceFor;
    var few, all := EvidenceFor(rows[..n + 1], rows[n].Identity()), EvidenceFor(rows, rows[n].Identity());
    DistinctSize(evidence, few);
    EvidenceForGrows(rows, n + 1, rows[n].Identity());
    Smaller(few, all);
  }

  lemma Smaller(a: set<Evidence>, b: set<Evidence>)
    requires a <= b
    ensures |a| <= |b|
  {
    assert b == a + (b - a);
  }

  /** Collect the rows by identity. */
  method Collect(rows: seq<Candidate>) returns (error: Option<Error>, order: seq<string>, grouped: map<string, Open>)
    ensures error.None? ==> Collected(rows, order, grouped)
    ensures error.Some? ==> error == Some(ConflictingCandidate) || error == Some(TooManyEvidence)
    ensures error == Some(ConflictingCandidate) ==> !CandidatesAgree(rows)
    ensures error == Some(TooManyEvidence) ==> !EvidenceFits(rows)
  {
    hide Candidate.Identity, Collects, EvidenceFor, EvidenceFits, Order.DistinctKeys;
    order, grouped := [], map[];
    for i := 0 to |rows|
      invariant Collected(rows[..i], order, grouped)
    {
      var row := rows[i];
      var identity := row.Identity();
      assert rows[..i + 1] == rows[..i] + [row];
      var found := identity in grouped;
      if found && grouped[identity].candidate.Attributes() != row.Attributes() {
        Conflicts(rows, i, grouped[identity]);
        return Some(ConflictingCandidate), [], map[];
      }
      var open := if found then grouped[identity] else Open(row, []);
      NothingYet();
      if found { CollectsDistinct(rows[..i], identity, open); }
      var evidence := AddEvidence(open.evidence, row.evidence);
      CollectedEvidence(rows, i, open, evidence, found);
      if |evidence| > MaxEvidence {
        TooMuch(rows, i, evidence);
        return Some(TooManyEvidence), [], map[];
      }
      open := open.(evidence := evidence);
      if found {
        CollectsMore(rows[..i], row, grouped[identity], evidence);
      } else {
        CollectsFirst(rows[..i], row, evidence);
      }
      CollectedNext(rows[..i], order, grouped, row, open);
      if !found { order := order + [identity]; }
      grouped := grouped[identity := open];
    }
    assert rows[..|rows|] == rows;
    error := None;
  }

  lemma NothingYet()
    ensures Order.DistinctKeys(Itself, [])
  {
  }

  lemma CollectsDistinct(rows: seq<Candidate>, identity: string, open: Open)
    requires Collects(rows, identity, open)
    ensures Order.DistinctKeys(Itself, open.evidence)
  {
  }

  lemma Conflicts(rows: seq<Candidate>, n: nat, open: Open)
    requires n < |rows| && Collects(rows[..n], rows[n].Identity(), open)
    requires open.candidate.Attributes() != rows[n].Attributes()
    ensures !CandidatesAgree(rows)
  {
    hide Candidate.Identity, EvidenceFor, Candidate.Attributes;
    var i :| 0 <= i < n && rows[..n][i] == open.candidate && rows[..n][i].Identity() == rows[n].Identity();
    assert rows[i] == rows[..n][i];
  }

  lemma CollectedEvidence(rows: seq<Candidate>, n: nat, open: Open, evidence: seq<Evidence>, found: bool)
    requires n < |rows|
    requires if found then Collects(rows[..n], rows[n].Identity(), open)
             else open.evidence == [] && forall i | 0 <= i < n :: rows[..n][i].Identity() != rows[n].Identity()
    requires forall e :: e in evidence <==> e in open.evidence || e in rows[n].evidence
    ensures forall e :: e in evidence <==> e in EvidenceFor(rows[..n + 1], rows[n].Identity())
  {
    hide Candidate.Identity, EvidenceFor, Candidate.Attributes;
    assert rows[..n + 1] == rows[..n] + [rows[n]];
    forall e ensures e in evidence <==> e in EvidenceFor(rows[..n + 1], rows[n].Identity()) {
      EvidenceForAppend(rows[..n], rows[n], rows[n].Identity(), e);
      if !found { NoEvidence(rows[..n], rows[n].Identity()); }
    }
  }

  function Closed(identity: string, open: Open): Group
  {
    Group(identity, open.candidate.(evidence := Order.Sort(Itself, open.evidence)))
  }

  /** Sort the groups, and the evidence in each. */
  method Arrange(ghost rows: seq<Candidate>, order: seq<string>, grouped: map<string, Open>) returns (groups: seq<Group>)
    requires Collected(rows, order, grouped)
    ensures Grouping(rows, groups)
  {
    hide Candidate.Identity, Collects, EvidenceFor, GroupOf;
    var closed: seq<Group> := [];
    for i := 0 to |order|
      invariant |closed| == i
      invariant forall j | 0 <= j < i :: closed[j].identity == order[j] && GroupOf(rows, closed[j])
    {
      assert order[i] in grouped;
      ClosedIsGroup(rows, order[i], grouped[order[i]]);
      closed := closed + [Closed(order[i], grouped[order[i]])];
    }
    assert Order.DistinctKeys(ByIdentity, closed);
    Order.SortSorts(ByIdentity, closed);
    Order.SortKeepsDistinct(ByIdentity, closed);
    groups := Order.Sort(ByIdentity, closed);
    forall k | 0 <= k < |groups| ensures GroupOf(rows, groups[k]) {
      assert groups[k] in closed;
    }
    forall i | 0 <= i < |rows| ensures HasGroup(groups, rows[i].Identity()) {
      assert rows[i].Identity() in order;
      var j :| 0 <= j < |order| && order[j] == rows[i].Identity();
      assert closed[j] in groups;
    }
  }

  lemma ClosedIsGroup(rows: seq<Candidate>, identity: string, open: Open)
    requires Collects(rows, identity, open)
    ensures GroupOf(rows, Closed(identity, open))
  {
    hide Candidate.Identity, EvidenceFor;
    Order.SortSorts(Itself, open.evidence);
    Order.SortKeepsDistinct(Itself, open.evidence);
  }

  /** Group candidates: it succeeds exactly when the rows can be grouped, and then returns their grouping. */
  lemma FitsMeans(rows: seq<Candidate>)
    ensures EvidenceFits(rows) <==> forall i | 0 <= i < |rows| :: |EvidenceFor(rows, rows[i].Identity())| <= 64
  {
    hide EvidenceFor, Candidate.Identity;
  }

  method GroupRelationCandidates(rows: seq<Candidate>) returns (r: Result<seq<Group>, Error>)
    ensures r.Ok? <==> Groupable(rows)
    ensures r.Ok? ==> Grouping(rows, r.value)
    ensures r == Err(InvalidRelation) <==> !AllTyped(rows)
    ensures r == Err(ConflictingEntity) <==> AllTyped(rows) && !EntitiesAgree(Entities(rows))
    ensures r == Err(ConflictingCandidate) ==> !CandidatesAgree(rows)
    ensures r == Err(TooManyEvidence) ==> !EvidenceFits(rows)
    ensures r.Ok? ==> forall i | 0 <= i < |rows| :: |EvidenceFor(rows, rows[i].Identity())| <= 64
    ensures r == Err(TooManyEvidence) ==> exists i | 0 <= i < |rows| :: |EvidenceFor(rows, rows[i].Identity())| > 64
  {
    FitsMeans(rows);
    hide Collected, Candidate.Identity, EvidenceFor, Typed, EntitiesAgree, CandidatesAgree, EvidenceFits, Grouping;
    for i := 0 to |rows|
      invariant forall j | 0 <= j < i :: Typed(rows[j])
    {
      if !Typed(rows[i]) { return Err(InvalidRelation); }
    }
    var consistent := AssertEntityConsistency(Entities(rows));
    if !consistent { return Err(ConflictingEntity); }
    var error, order, grouped := Collect(rows);
    if error.Some? { return Err(error.value); }
    CollectedMeans(rows, order, grouped);
    var groups := Arrange(rows, order, grouped);
    r := Ok(groups);
  }

  // --- Grouping depends on the set of rows only -----------------------------------------------------------------------

  ghost predicate SameRows(xs: seq<Candidate>, ys: seq<Candidate>)
  {
    forall c :: c in xs <==> c in ys
  }

  lemma EvidenceOfSameRows(xs: seq<Candidate>, ys: seq<Candidate>, identity: string)
    requires SameRows(xs, ys)
    ensures EvidenceFor(xs, identity) == EvidenceFor(ys, identity)
  {
    hide Candidate.Identity;
    EvidenceOfFewer(xs, ys, identity);
    EvidenceOfFewer(ys, xs, identity);
  }

  lemma EvidenceOfFewer(xs: seq<Candidate>, ys: seq<Candidate>, identity: string)
    requires forall c | c in xs :: c in ys
    ensures EvidenceFor(xs, identity) <= EvidenceFor(ys, identity)
  {
    hide Candidate.Identity;
    forall e | e in EvidenceFor(xs, identity) ensures e in EvidenceFor(ys, identity) {
      var i :| 0 <= i < |xs| && xs[i].Identity() == identity && e in xs[i].evidence;
      assert xs[i] in ys;
      var j :| 0 <= j < |ys| && ys[j] == xs[i];
    }
  }

  lemma {:induction false} EntityOfRow(rows: seq<Candidate>, e: Entity)
    ensures e in Entities(rows) <==> exists c | c in rows :: e == c.subject || e == c.target
  {
    if rows != [] {
      var init, last := rows[..|rows| - 1], rows[|rows| - 1];
      EntityOfRow(init, e);
      assert rows == init + [last];
      if e == last.subject || e == last.target { assert last in rows; }
    }
  }

  lemma GroupableFewer(xs: seq<Candidate>, ys: seq<Candidate>)
    requires Groupable(ys) && SameRows(xs, ys)
    ensures Groupable(xs)
  {
    hide Candidate.Identity, Typed, EvidenceFor, Candidate.Attributes;
    forall i | 0 <= i < |xs| ensures Typed(xs[i]) && |EvidenceFor(xs, xs[i].Identity())| <= MaxEvidence {
      assert xs[i] in ys;
      var j :| 0 <= j < |ys| && ys[j] == xs[i];
      EvidenceOfSameRows(xs, ys, xs[i].Identity());
    }
    EntitiesOfFewer(xs, ys);
    AgreeFewer(xs, ys);
  }

  lemma AgreeFewer(xs: seq<Candidate>, ys: seq<Candidate>)
    requires CandidatesAgree(ys) && forall c | c in xs :: c in ys
    ensures CandidatesAgree(xs)
  {
    hide Candidate.Identity, Candidate.Attributes;
    forall i, j | 0 <= i < |xs| && 0 <= j < |xs| && xs[i].Identity() == xs[j].Identity()
      ensures xs[i].Attributes() == xs[j].Attributes()
    {
      assert xs[i] in ys && xs[j] in ys;
      var k :| 0 <= k < |ys| && ys[k] == xs[i];
      var l :| 0 <= l < |ys| && ys[l] == xs[j];
    }
  }

  lemma EntitiesOfFewer(xs: seq<Candidate>, ys: seq<Candidate>)
    requires EntitiesAgree(Entities(ys)) && forall c | c in xs :: c in ys
    ensures EntitiesAgree(Entities(xs))
  {
    var es, fs := Entities(xs), Entities(ys);
    forall i | 0 <= i < |es| ensures es[i] in fs {
      EntityOfRow(xs, es[i]);
      EntityOfRow(ys, es[i]);
    }
    forall i, j | 0 <= i < |es| && 0 <= j < |es| && es[i].key == es[j].key ensures es[i] == es[j] {
      assert es[i] in fs && es[j] in fs;
      var k :| 0 <= k < |fs| && fs[k] == es[i];
      var l :| 0 <= l < |fs| && fs[l] == es[j];
    }
  }

  lemma SameGroup(xs: seq<Candidate>, ys: seq<Candidate>, g: Group, h: Group)
    requires SameRows(xs, ys) && CandidatesAgree(ys) && GroupOf(xs, g) && GroupOf(ys, h) && g.identity == h.identity
    ensures g == h
  {
    hide Candidate.Identity, EvidenceFor;
    EvidenceOfSameRows(xs, ys, g.identity);
    Order.SortedSetsAreEqual(Itself, g.candidate.evidence, h.candidate.evidence);
    var i :| 0 <= i < |xs| && xs[i].Identity() == g.identity && g.candidate.Attributes() == xs[i].Attributes();
    assert xs[i] in ys;
    var k :| 0 <= k < |ys| && ys[k] == xs[i];
    var j :| 0 <= j < |ys| && ys[j].Identity() == h.identity && h.candidate.Attributes() == ys[j].Attributes();
  }

  lemma GroupsOfFewer(xs: seq<Candidate>, ys: seq<Candidate>, a: seq<Group>, b: seq<Group>, g: Group)
    requires SameRows(xs, ys) && CandidatesAgree(ys) && Grouping(xs, a) && Grouping(ys, b) && g in a
    ensures g in b
  {
    hide Candidate.Identity, Lists;
    assert GroupOf(xs, g);
    var i :| 0 <= i < |xs| && xs[i].Identity() == g.identity;
    assert xs[i] in ys;
    var j :| 0 <= j < |ys| && ys[j] == xs[i];
    assert HasGroup(b, ys[j].Identity());
    var k :| 0 <= k < |b| && b[k].identity == g.identity;
    SameGroup(xs, ys, g, b[k]);
  }

  /** Rows in another order, or repeated, can be grouped just when these can, and have the same grouping. */
  lemma GroupingIgnoresOrder(xs: seq<Candidate>, ys: seq<Candidate>)
    requires SameRows(xs, ys)
    ensures Groupable(xs) <==> Groupable(ys)
    ensures forall a, b | Groupable(xs) && Grouping(xs, a) && Grouping(ys, b) :: a == b
  {
    if Groupable(xs) { GroupableFewer(ys, xs); }
    if Groupable(ys) { GroupableFewer(xs, ys); }
    forall a, b | Groupable(xs) && Grouping(xs, a) && Grouping(ys, b) ensures a == b {
      forall g ensures g in a <==> g in b {
        if g in a { GroupsOfFewer(xs, ys, a, b, g); }
        if g in b { GroupsOfFewer(ys, xs, b, a, g); }
      }
      Order.SortedSetsAreEqual(ByIdentity, a, b);
    }
  }

  // --- Grouping is idempotent --------------------------------------------------------------------------------------------

  function Candidates(groups: seq<Group>): (cs: seq<Candidate>)
    ensures |cs| == |groups| && forall k | 0 <= k < |cs| :: cs[k] == groups[k].candidate
  {
    seq(|groups|, k requires 0 <= k < |groups| => groups[k].candidate)
  }

  lemma AttributesDecide(a: Candidate, b: Candidate)
    requires a.Attributes() == b.Attributes()
    ensures a.Identity() == b.Identity() && Typed(a) == Typed(b) && a.subject == b.subject && a.target == b.target
  {
  }

  lemma GroupRow(rows: seq<Candidate>, g: Group) returns (i: nat)
    requires GroupOf(rows, g)
    ensures i < |rows| && rows[i].Attributes() == g.candidate.Attributes() && rows[i].Identity() == g.identity
    ensures g.candidate.Identity() == g.identity && Typed(g.candidate) == Typed(rows[i])
    ensures g.candidate.subject == rows[i].subject && g.candidate.target == rows[i].target
  {
    hide Candidate.Identity, Typed, Lists;
    i :| 0 <= i < |rows| && rows[i].Identity() == g.identity && g.candidate.Attributes() == rows[i].Attributes();
    AttributesDecide(g.candidate, rows[i]);
  }

  lemma OnlyItsOwn(rows: seq<Candidate>, groups: seq<Group>, k: nat)
    requires Grouping(rows, groups) && k < |groups|
    ensures EvidenceFor(Candidates(groups), groups[k].identity) == EvidenceFor(rows, groups[k].identity)
  {
    hide Candidate.Identity, Typed;
    var cs, g := Candidates(groups), groups[k];
    forall l | 0 <= l < |groups| ensures cs[l].Identity() == groups[l].identity {
      var i := GroupRow(rows, groups[l]);
    }
    forall l | 0 <= l < |groups| && groups[l].identity == g.identity ensures l == k {
      assert ByIdentity(groups[l]) == ByIdentity(groups[k]);
    }
    assert Lists(g.candidate.evidence, EvidenceFor(rows, g.identity));
    forall e ensures e in EvidenceFor(cs, g.identity) <==> e in g.candidate.evidence {
      if e in g.candidate.evidence { assert cs[k].Identity() == g.identity; }
    }
  }

  /** Grouping what grouping returned changes nothing. */
  lemma GroupingIsIdempotent(rows: seq<Candidate>, groups: seq<Group>)
    requires Groupable(rows) && Grouping(rows, groups)
    ensures Groupable(Candidates(groups)) && Grouping(Candidates(groups), groups)
  {
    hide Candidate.Identity, Typed, EvidenceFor, GroupOf, Candidate.Attributes, EntitiesAgree;
    var cs := Candidates(groups);
    forall k | 0 <= k < |groups|
      ensures Typed(cs[k]) && cs[k].Identity() == groups[k].identity && GroupOf(cs, groups[k])
      ensures |EvidenceFor(cs, cs[k].Identity())| <= MaxEvidence
    {
      StillAGroup(rows, groups, k);
    }
    forall k | 0 <= k < |cs| ensures HasGroup(groups, cs[k].Identity()) {
      assert groups[k].identity == cs[k].Identity();
    }
    DistinctAgree(groups);
    EntitiesOfGroups(rows, groups);
  }

  lemma StillAGroup(rows: seq<Candidate>, groups: seq<Group>, k: nat)
    requires Groupable(rows) && Grouping(rows, groups) && k < |groups|
    ensures var cs := Candidates(groups);
      Typed(cs[k]) && cs[k].Identity() == groups[k].identity && GroupOf(cs, groups[k])
      && |EvidenceFor(cs, cs[k].Identity())| <= MaxEvidence
  {
    hide Candidate.Identity, Typed, EvidenceFor, EntitiesAgree, CandidatesAgree;
    var i := GroupRow(rows, groups[k]);
    OnlyItsOwn(rows, groups, k);
    assert Candidates(groups)[k] == groups[k].candidate;
  }

  lemma DistinctAgree(groups: seq<Group>)
    requires Order.DistinctKeys(ByIdentity, groups)
    requires forall k | 0 <= k < |groups| :: groups[k].candidate.Identity() == groups[k].identity
    ensures CandidatesAgree(Candidates(groups))
  {
    hide Candidate.Identity, Candidate.Attributes;
    var cs := Candidates(groups);
    forall k, l | 0 <= k < |cs| && 0 <= l < |cs| && cs[k].Identity() == cs[l].Identity()
      ensures cs[k].Attributes() == cs[l].Attributes()
    {
      assert ByIdentity(groups[k]) == ByIdentity(groups[l]);
    }
  }

  lemma EntitiesOfGroups(rows: seq<Candidate>, groups: seq<Group>)
    requires EntitiesAgree(Entities(rows)) && Grouping(rows, groups)
    ensures EntitiesAgree(Entities(Candidates(groups)))
  {
    hide Candidate.Identity, Lists, Typed;
    var cs := Candidates(groups);
    var es, fs := Entities(cs), Entities(rows);
    forall i | 0 <= i < |es| ensures es[i] in fs {
      EntityOfRow(cs, es[i]);
      var c :| c in cs && (es[i] == c.subject || es[i] == c.target);
      var k :| 0 <= k < |cs| && cs[k] == c;
      var j := GroupRow(rows, groups[k]);
      assert rows[j] in rows;
      EntityOfRow(rows, es[i]);
    }
    forall i, j | 0 <= i < |es| && 0 <= j < |es| && es[i].key == es[j].key ensures es[i] == es[j] {
      assert es[i] in fs && es[j] in fs;
      var k :| 0 <= k < |fs| && fs[k] == es[i];
      var l :| 0 <= l < |fs| && fs[l] == es[j];
    }
  }

  /** Identities are the same text exactly when subject, relation and target are the same. */
  lemma IdentityNames(a: Candidate, b: Candidate)
    ensures a.Identity() == b.Identity()
       <==> a.subject.key == b.subject.key && a.relation == b.relation && a.target.key == b.target.key
  {
    if a.Identity() == b.Identity() {
      JsonText.TripleIsInjective(a.subject.key, a.relation, a.target.key, b.subject.key, b.relation, b.target.key);
    }
  }

  // --- What a typed relation is -------------------------------------------------------------------------------------

  ghost predicate NoReferences(row: Candidate)
  {
    row.subject.reference.None? && row.target.reference.None?
  }

  /** The context of a typed relation: there is one, and only a reported observation has an observation time. */
  ghost predicate InContext(row: Candidate)
  {
    row.context.Some? && (row.context.value.timeRole == "OBSERVATION_TIME" ==> row.context.value.recordNature == "REPORTED_OBSERVATION")
  }

  ghost predicate From(row: Candidate, kinds: seq<string>)
  {
    row.subject.kind in kinds
  }

  ghost predicate To(row: Candidate, kinds: seq<string>)
  {
    row.target.kind in kinds
  }

  /** The relations of the registry, one by one: what they lead from and to. */
  lemma TypedByRelation(row: Candidate)
    ensures row.relation == "IDENTITY_MATCH" ==>
      (Typed(row) <==>
         && row.subject.reference.Some? && row.target.reference.Some? && row.subject.reference.value != row.target.reference.value
         && row.subject.kind == row.target.kind && InContext(row) && row.context.value.recordNature == "SOURCE_RELATION"
         && From(row, ["PERSON", "ORGANIZATION", "ENTERPRISE", "MONITORING_POINT", "RIVER_REACH", "BASIN", "PLACE", "EXTERNAL_ENTITY"]))
    ensures row.relation == "EXPRESSES_CLAIM" ==>
      (Typed(row) <==> NoReferences(row) && InContext(row) && From(row, ["PERSON", "ORGANIZATION"]) && To(row, ["CLAIM"]))
    ensures row.relation == "REPORTS_CLAIM" ==>
      (Typed(row) <==> NoReferences(row) && InContext(row) && From(row, ["DOCUMENT"]) && To(row, ["CLAIM"]))
    ensures row.relation == "ABOUT_ENTITY" ==>
      (Typed(row) <==> NoReferences(row) && InContext(row) && From(row, ["CLAIM", "EVENT", "DOCUMENT", "POLICY", "MODEL_RUN"]))
    ensures row.relation == "OBSERVES_ENTITY" ==>
      (Typed(row) <==> NoReferences(row) && row.context.Some? && row.context.value.recordNature == "REPORTED_OBSERVATION"
                       && From(row, ["OBSERVATION"])
                       && To(row, ["MONITORING_POINT", "RIVER_REACH", "BASIN", "PLACE", "ENTERPRISE", "EXTERNAL_ENTITY"]))
  {
  }

  lemma OtherTypedRelations(row: Candidate)
    ensures row.relation == "OCCURRED_IN" ==>
      (Typed(row) <==> NoReferences(row) && InContext(row) && From(row, ["EVENT"]) && To(row, ["RIVER_REACH", "BASIN", "PLACE"]))
    ensures row.relation == "CITES_SOURCE" ==>
      (Typed(row) <==> NoReferences(row) && InContext(row) && From(row, ["DOCUMENT", "CLAIM"]) && To(row, ["DOCUMENT"]))
    ensures row.relation == "DERIVED_FROM" ==>
      (Typed(row) <==> NoReferences(row) && InContext(row) && From(row, ["DOCUMENT", "CLAIM", "OBSERVATION", "MODEL_RUN"])
                       && To(row, ["DOCUMENT", "OBSERVATION", "MODEL_RUN", "EXTERNAL_ENTITY"]))
    ensures row.relation == "APPLIES_TO" ==>
      (Typed(row) <==> NoReferences(row) && InContext(row) && From(row, ["POLICY", "CLAIM"]))
    ensures row.relation == "USES_DATA" ==>
      (Typed(row) <==> NoReferences(row) && InContext(row) && From(row, ["MODEL_RUN"])
                       && To(row, ["DOCUMENT", "OBSERVATION", "EXTERNAL_ENTITY"]))
  {
  }

  /** A relation outside the registry has no references and joins two entities of the legacy kinds. */
  lemma LegacyRelations(row: Candidate)
    requires row.relation !in ["IDENTITY_MATCH", "EXPRESSES_CLAIM", "REPORTS_CLAIM", "ABOUT_ENTITY", "OBSERVES_ENTITY",
                               "OCCURRED_IN", "CITES_SOURCE", "DERIVED_FROM", "APPLIES_TO", "USES_DATA"]
    ensures var kinds := ["ENTERPRISE", "MONITORING_POINT", "INDICATOR_RECORD", "RIVER_REACH", "BASIN", "EXTERNAL_ENTITY"];
      Typed(row) <==> NoReferences(row) && From(row, kinds) && To(row, kinds)
  {
  }
}
