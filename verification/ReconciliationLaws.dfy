/** What a reconciliation means: a partition of the records, and a summary that depends only on which
    signatures were observed with which values on which side. */
module ReconciliationLaws {
  import opened Outcomes
  import opened Decimals
  import opened Sequences
  import opened Reconciliation

  // --- The groups partition the records ------------------------------------------------------------------

  /** Entry `i` belongs to group `k`. */
  ghost predicate Home(es: seq<Entry>, i: nat, k: nat)
    requires i < |es|
  {
    k < |Openers(es)| && (Openers(es)[k] == i || Together(es[Openers(es)[k]], es[i]))
  }

  lemma HomeExists(es: seq<Entry>, i: nat) returns (k: nat)
    requires i < |es|
    ensures Home(es, i, k)
  {
    EveryEntryHasOpener(es, i);
    var o: nat :| IsOpenerOf(es, i, o);
    k :| 0 <= k < |Openers(es)| && Openers(es)[k] == o;
  }

  /** Two records are in the same group iff they are the same record or are complete with the same
      signature; with `i == j` this says that every record is in exactly one group. */
  lemma ShareGroupIffSameSignature(es: seq<Entry>, i: nat, k: nat, j: nat, l: nat)
    requires i < |es| && j < |es| && Home(es, i, k) && Home(es, j, l)
    ensures k == l <==> i == j || Together(es[i], es[j])
  {
    var a, b := Openers(es)[k], Openers(es)[l];
    if i == j || Together(es[i], es[j]) {
      if Together(es[a], es[b]) {
        SameSignatureSameOpener(es, k, l);
      } else {
        assert a == i == j == b;
        OpenersAscend(es);
      }
    }
  }

  /** The entries before position `n` that belong to group `k`, in order. */
  ghost function HomedIn(es: seq<Entry>, k: nat, n: nat): seq<Entry>
    requires n <= |es|
  {
    if n == 0 then [] else HomedIn(es, k, n - 1) + (if Home(es, n - 1, k) then [es[n - 1]] else [])
  }

  lemma {:induction false} HomedInIs(es: seq<Entry>, k: nat, n: nat)
    requires n <= |es| && k < |Openers(es)|
    ensures var o := Openers(es)[k];
      HomedIn(es, k, n)
      == if es[o].Incomplete() then (if o < n then [es[o]] else []) else Keep(Shares(es[o].signature), es[..n])
  {
    hide Home, Openers, Entry.Incomplete;
    if n > 0 {
      HomedInIs(es, k, n - 1);
      assert es[..n][..n - 1] == es[..n - 1];
      HomeOf(es, k, n - 1);
    }
  }

  lemma HomeOf(es: seq<Entry>, k: nat, i: nat)
    requires i < |es| && k < |Openers(es)|
    ensures var o := Openers(es)[k];
      Home(es, i, k) <==> if es[o].Incomplete() then i == o else Shares(es[o].signature)(es[i])
  {
  }

  /** A group's members are exactly the records that belong to it, in order and with repetitions. */
  lemma MembersAreThoseAtHome(revises: bool, es: seq<Entry>, k: nat)
    requires k < |SettledGroups(revises, es)|
    ensures SettledGroups(revises, es)[k].members == Members(HomedIn(es, k, |es|))
  {
    HomedInIs(es, k, |es|);
    assert es[..|es|] == es;
  }

  // --- Status and value ------------------------------------------------------------------------------------

  lemma {:induction false} FirstOnIsMember(ms: seq<Member>, side: Side)
    ensures FirstOn(ms, side).None? <==> ValuesOn(ms, side) == {}
    ensures FirstOn(ms, side).Some? ==> FirstOn(ms, side).value.value in ValuesOn(ms, side)
  {
    if ms != [] {
      FirstOnIsMember(ms[1..], side);
      assert ms == [ms[0]] + ms[1..];
      assert ValuesOn(ms, side) == ValuesOn(ms[1..], side) + (if ms[0].side == side then {ms[0].value} else {});
    }
  }

  lemma OnlyElement<T>(s: set<T>, x: T)
    requires |s| == 1 && x in s
    ensures s == {x}
  {
    assert |s - {x}| == 0;
  }

  /** The status of a complete group is decided by the values its signature was observed with on each
      side, and the value it stands for is the only value observed, or the only one on the right when the
      right revises the left; a conflict stands for no value. */
  lemma GroupStandsForItsFacts(revises: bool, es: seq<Entry>, k: nat)
    requires k < |Openers(es)| && !es[Openers(es)[k]].Incomplete()
    ensures var g, s := SettledGroups(revises, es)[k], es[Openers(es)[k]].signature;
      var left, right := ValuesOf(FactsOn(es, Left), s), ValuesOf(FactsOn(es, Right), s);
      (g.status == StatusOf(revises, left, right)
       && (g.status == Revised ==> right == {g.value} && g.value !in left)
       && (g.status in {Unchanged, LeftOnly, Added} ==> left + right == {g.value})
       && (g.status == Conflict ==> g.value == None && g.selectedRecordId == None))
  {
    GroupFacts(es, k);
    var open := OpenGroup(es, k);
    hide OpenGroup, ValuesOn, ValuesOf, FactsOn, Openers, StatusOf, Selected;
    StandsFor(revises, open);
  }

  /** The value of a settled group. */
  lemma StandsFor(revises: bool, open: Group)
    requires open.status != Incomplete
    ensures var g, left, right := Settled(revises, open), ValuesOn(open.members, Left), ValuesOn(open.members, Right);
      (g.status == StatusOf(revises, left, right)
       && (g.status == Revised ==> right == {g.value} && g.value !in left)
       && (g.status in {Unchanged, LeftOnly, Added} ==> left + right == {g.value})
       && (g.status == Conflict ==> g.value == None && g.selectedRecordId == None))
  {
    var g, left, right := Settled(revises, open), ValuesOn(open.members, Left), ValuesOn(open.members, Right);
    hide ValuesOn, FirstOn;
    FirstOnIsMember(open.members, Left);
    FirstOnIsMember(open.members, Right);
    if g.status == Revised {
      OnlyElement(right, g.value);
      if g.value in left { OnlyElement(left, g.value); }
    } else if g.status in {Unchanged, LeftOnly, Added} {
      OnlyElement(left + right, g.value);
    }
  }

  /** The group shows the first member of a side: its record and its value. */
  ghost predicate ShowsFirstOn(g: Group, side: Side)
  {
    exists i | 0 <= i < |g.members| ::
      && g.members[i].side == side && (forall j | 0 <= j < i :: g.members[j].side != side)
      && g.selectedRecordId == Some(g.members[i].recordId) && g.value == g.members[i].value
  }

  /** The status of a complete group, by what its signature was observed with on each side, and whose record
      it shows. */
  lemma StatusSaysWhatWasObserved(revises: bool, es: seq<Entry>, k: nat)
    requires k < |Openers(es)| && !es[Openers(es)[k]].Incomplete()
    ensures var g, s := SettledGroups(revises, es)[k], es[Openers(es)[k]].signature;
      var left, right := ValuesOf(FactsOn(es, Left), s), ValuesOf(FactsOn(es, Right), s);
      && (g.status == Unchanged <==> exists v | v in left :: left == {v} && right == {v})
      && (g.status == LeftOnly <==> right == {} && exists v | v in left :: left == {v})
      && (g.status == Added <==> left == {} && exists v | v in right :: right == {v})
      && (g.status == Revised <==> revises && exists a, b | a in left && b in right :: a != b && left == {a} && right == {b})
      && (g.status == Conflict <==> g.status !in {Unchanged, LeftOnly, Added, Revised})
      && g.status != Incomplete
      && (g.status in {Unchanged, LeftOnly} ==> ShowsFirstOn(g, Left))
      && (g.status in {Added, Revised} ==> ShowsFirstOn(g, Right))
      && (g.status == Conflict ==> g.value == None && g.selectedRecordId == None)
  {
    GroupFacts(es, k);
    SomethingObserved(es, Openers(es)[k]);
    var open := OpenGroup(es, k);
    hide OpenGroup, ValuesOn, ValuesOf, FactsOn, Openers, Selected, ShowsFirstOn;
    var left, right := ValuesOn(open.members, Left), ValuesOn(open.members, Right);
    StatusBySets(revises, left, right);
    hide StatusOf;
    ShownMember(revises, open);
  }

  lemma SomethingObserved(es: seq<Entry>, i: nat)
    requires i < |es| && !es[i].Incomplete()
    ensures ValuesOf(FactsOn(es, Left), es[i].signature) != {} || ValuesOf(FactsOn(es, Right), es[i].signature) != {}
  {
    assert Fact(es[i].signature, es[i].value) in FactsOn(es, es[i].side);
    assert es[i].value in ValuesOf(FactsOn(es, es[i].side), es[i].signature);
  }

  lemma Single<T>(values: set<T>)
    ensures |values| == 1 <==> exists v | v in values :: values == {v}
    ensures |values| == 0 <==> values == {}
  {
    if |values| == 1 {
      var v :| v in values;
      OnlyElement(values, v);
    }
  }

  lemma StatusBySets(revises: bool, left: set<Option<string>>, right: set<Option<string>>)
    requires left != {} || right != {}
    ensures var status := StatusOf(revises, left, right);
      && (status == Unchanged <==> exists v | v in left :: left == {v} && right == {v})
      && (status == LeftOnly <==> right == {} && exists v | v in left :: left == {v})
      && (status == Added <==> left == {} && exists v | v in right :: right == {v})
      && (status == Revised <==> revises && exists a, b | a in left && b in right :: a != b && left == {a} && right == {b})
      && status in {Unchanged, LeftOnly, Added, Revised, Conflict}
  {
    Single(left);
    Single(right);
    Single(left + right);
    if |left + right| == 1 {
      var v :| v in left + right && left + right == {v};
      assert left <= {v} && right <= {v};
      assert left != {} ==> left == {v};
      assert right != {} ==> right == {v};
    }
    if v :| v in left && left == {v} && right == {v} { assert left + right == {v}; }
    if right == {} { assert left + right == left; }
    if left == {} { assert left + right == right; }
    if a, b :| a in left && b in right && a != b && left == {a} && right == {b} { assert left + right == {a, b}; }
    if |left| == 1 && |right| == 1 && |left + right| != 1 {
      var a :| a in left && left == {a};
      var b :| b in right && right == {b};
      assert a == b ==> left + right == {a};
    }
  }

  lemma {:induction false} FirstOnIsFirst(ms: seq<Member>, side: Side) returns (i: nat)
    requires FirstOn(ms, side).Some?
    ensures i < |ms| && FirstOn(ms, side) == Some(ms[i]) && ms[i].side == side
    ensures forall j | 0 <= j < i :: ms[j].side != side
  {
    if ms[0].side == side {
      i := 0;
    } else {
      var rest := FirstOnIsFirst(ms[1..], side);
      i := rest + 1;
      forall j | 0 <= j < i ensures ms[j].side != side {
        if j > 0 { assert ms[1..][j - 1] == ms[j]; }
      }
    }
  }

  lemma ShownMember(revises: bool, open: Group)
    requires open.status != Incomplete
    requires ValuesOn(open.members, Left) != {} || ValuesOn(open.members, Right) != {}
    ensures var g, left, right := Settled(revises, open), ValuesOn(open.members, Left), ValuesOn(open.members, Right);
      && g.status == StatusOf(revises, left, right) && g.members == open.members
      && (g.status in {Unchanged, LeftOnly} ==> ShowsFirstOn(g, Left))
      && (g.status in {Added, Revised} ==> ShowsFirstOn(g, Right))
      && (g.status == Conflict ==> g.value == None && g.selectedRecordId == None)
  {
    var g, ms := Settled(revises, open), open.members;
    FirstOnIsMember(ms, Left);
    FirstOnIsMember(ms, Right);
    StatusBySets(revises, ValuesOn(ms, Left), ValuesOn(ms, Right));
    hide ValuesOn, FirstOn, StatusOf;
    if g.status in {Unchanged, LeftOnly} { var i := FirstOnIsFirst(ms, Left); }
    if g.status in {Added, Revised} { var i := FirstOnIsFirst(ms, Right); }
  }

  /** A record that is incomplete stands alone, for no value. */
  lemma IncompleteStandsAlone(revises: bool, es: seq<Entry>, k: nat)
    requires k < |Openers(es)|
    ensures var g, e := SettledGroups(revises, es)[k], es[Openers(es)[k]];
      && (g.status == Incomplete <==> e.Incomplete())
      && (e.Incomplete() ==> g.value == None && g.selectedRecordId == None
                             && g.members == [Member(side := e.side, recordId := e.recordId, index := e.index, value := e.value)])
      && g.groupIndex == k && g.measure == e.signature.measure && g.unit == e.signature.unit
      && |g.keys| == |e.signature.keys|
      && forall i | 0 <= i < |g.keys| :: g.keys[i] == (if e.signature.keys[i].Some? then e.signature.keys[i].value else "")
  {
    var open := OpenGroup(es, k);
    if !es[Openers(es)[k]].Incomplete() {
      StatusSaysWhatWasObserved(revises, es, k);
    } else {
      assert GroupEntries(es, Openers(es)[k]) == [es[Openers(es)[k]]];
    }
    hide StatusOf, ValuesOn, Selected, Openers, ShowsFirstOn;
  }

  // --- Every group is counted once ---------------------------------------------------------------------------

  ghost function Counts(revises: bool, left: set<Fact>, right: set<Fact>, all: set<Signature>): nat
  {
    CountOf(revises, left, right, all, Unchanged) + CountOf(revises, left, right, all, LeftOnly)
    + CountOf(revises, left, right, all, Added) + CountOf(revises, left, right, all, Revised)
    + CountOf(revises, left, right, all, Conflict)
  }

  lemma {:induction false} StatusesPartition(revises: bool, left: set<Fact>, right: set<Fact>, all: set<Signature>)
    ensures |all| == Counts(revises, left, right, all)
  {
    if s :| s in all {
      hide CountOf;
      var rest := all - {s};
      StatusesPartition(revises, left, right, rest);
      assert rest + {s} == all;
      CountsOneMore(revises, left, right, rest, s);
    } else {
      assert all == {};
    }
  }

  lemma CountsOneMore(revises: bool, left: set<Fact>, right: set<Fact>, rest: set<Signature>, s: Signature)
    requires s !in rest
    ensures Counts(revises, left, right, rest + {s}) == Counts(revises, left, right, rest) + 1
  {
    hide CountOf, ValuesOf;
    CountOneMore(revises, left, right, rest, s, Unchanged);
    CountOneMore(revises, left, right, rest, s, LeftOnly);
    CountOneMore(revises, left, right, rest, s, Added);
    CountOneMore(revises, left, right, rest, s, Revised);
    CountOneMore(revises, left, right, rest, s, Conflict);
  }

  lemma SignaturesGrow(es: seq<Entry>, e: Entry)
    ensures var facts := FactsOn(es, Left) + FactsOn(es, Right);
      SignaturesOf(FactsOn(es + [e], Left) + FactsOn(es + [e], Right))
      == SignaturesOf(facts) + (if e.Incomplete() then {} else {e.signature})
  {
    var facts := FactsOn(es, Left) + FactsOn(es, Right);
    var more := FactsOn(es + [e], Left) + FactsOn(es + [e], Right);
    var added := if e.Incomplete() then {} else {Fact(e.signature, e.value)};
    assert more == facts + added;
    forall s ensures s in SignaturesOf(facts + added) <==> s in SignaturesOf(facts) || s in SignaturesOf(added) {
      if s in SignaturesOf(facts) {
        var f :| f in facts && f.signature == s;
        assert f in facts + added;
      }
      if s in SignaturesOf(added) {
        var f :| f in added && f.signature == s;
        assert f in facts + added;
      }
    }
    assert SignaturesOf(added) == if e.Incomplete() then {} else {e.signature} by {
      if !e.Incomplete() { assert Fact(e.signature, e.value) in added; }
    }
  }

  lemma OpensIffNewSignature(es: seq<Entry>, e: Entry)
    ensures Opens(es + [e], |es|)
       <==> e.Incomplete() || e.signature !in SignaturesOf(FactsOn(es, Left) + FactsOn(es, Right))
  {
    var all := es + [e];
    var facts := FactsOn(es, Left) + FactsOn(es, Right);
    if !Opens(all, |es|) {
      var j :| 0 <= j < |es| && Together(all[j], all[|es|]);
      assert Fact(es[j].signature, es[j].value) in facts;
    }
    if !e.Incomplete() && e.signature in SignaturesOf(facts) {
      var f :| f in facts && f.signature == e.signature;
      var other :| other in es && !other.Incomplete() && Fact(other.signature, other.value) == f;
      var j :| 0 <= j < |es| && es[j] == other;
      assert all[j] == other;
      assert !Opens(all, |es|);
    }
  }

  lemma SetGrows(s: set<Signature>, x: Signature)
    ensures |s + {x}| == if x in s then |s| else |s| + 1
  {
    if x in s { assert s + {x} == s; }
  }

  lemma {:induction false} GroupCount(es: seq<Entry>)
    ensures |Openers(es)| == |SignaturesOf(FactsOn(es, Left) + FactsOn(es, Right))| + |Keep(IsIncomplete, es)|
  {
    if es != [] {
      var init, e := es[..|es| - 1], es[|es| - 1];
      GroupCount(init);
      assert es == init + [e];
      hide FactsOn, SignaturesOf, Opens, Openers, Keep;
      GroupCountNext(init, e);
    }
  }

  lemma GroupCountNext(init: seq<Entry>, e: Entry)
    requires |Openers(init)| == |SignaturesOf(FactsOn(init, Left) + FactsOn(init, Right))| + |Keep(IsIncomplete, init)|
    ensures var es := init + [e];
      |Openers(es)| == |SignaturesOf(FactsOn(es, Left) + FactsOn(es, Right))| + |Keep(IsIncomplete, es)|
  {
    hide FactsOn, SignaturesOf, Opens, Openers, Keep;
    OpenersOfAppend(init, e);
    OpensIffNewSignature(init, e);
    SignaturesGrow(init, e);
    CountGrows(init, e);
    SetGrows(SignaturesOf(FactsOn(init, Left) + FactsOn(init, Right)), e.signature);
    hide Entry.Incomplete;
  }

  /** The groups with a status. */
  ghost function GroupsWith(revises: bool, es: seq<Entry>, status: Status): set<nat>
  {
    set k | 0 <= k < |SettledGroups(revises, es)| && SettledGroups(revises, es)[k].status == status
  }

  ghost function SignaturesAt(es: seq<Entry>, at: set<nat>): set<Signature>
    requires forall k | k in at :: k < |Openers(es)|
  {
    set k | k in at :: es[Openers(es)[k]].signature
  }

  lemma {:induction false} AsManySignatures(es: seq<Entry>, at: set<nat>)
    requires forall k | k in at :: k < |Openers(es)| && !es[Openers(es)[k]].Incomplete()
    ensures |SignaturesAt(es, at)| == |at|
  {
    hide Openers, Entry.Incomplete;
    if at != {} {
      var k :| k in at;
      AsManySignatures(es, at - {k});
      if l :| l in at - {k} && es[Openers(es)[l]].signature == es[Openers(es)[k]].signature {
        SameSignatureSameOpener(es, l, k);
      }
      assert SignaturesAt(es, at) == SignaturesAt(es, at - {k}) + {es[Openers(es)[k]].signature};
    }
  }

  /** The counts of the summary are numbers of groups. */
  lemma CountsAreGroups(revises: bool, es: seq<Entry>, status: Status)
    requires status != Incomplete
    ensures CountOf(revises, FactsOn(es, Left), FactsOn(es, Right), SignaturesOf(FactsOn(es, Left) + FactsOn(es, Right)), status)
         == |GroupsWith(revises, es, status)|
  {
    var left, right := FactsOn(es, Left), FactsOn(es, Right);
    var all, groups := SignaturesOf(left + right), GroupsWith(revises, es, status);
    AllSeen(es);
    forall k | 0 <= k < |Openers(es)| ensures k in groups ==> !es[Openers(es)[k]].Incomplete() {
      IncompleteStandsAlone(revises, es, k);
    }
    AsManySignatures(es, groups);
    forall k | 0 <= k < |Openers(es)| && !es[Openers(es)[k]].Incomplete()
      ensures k in groups <==> StatusOf(revises, ValuesOf(left, es[Openers(es)[k]].signature), ValuesOf(right, es[Openers(es)[k]].signature)) == status
    {
      GroupStandsForItsFacts(revises, es, k);
    }
    hide StatusOf, ValuesOf, FactsOn, SignaturesOf, Openers, OpenGroup, Settled;
    assert WithStatus(revises, left, right, all, status) == SignaturesAt(es, groups);
  }

  /** The summary in terms of the groups: how many there are of each status, and the relation of the files
      they add up to. */
  lemma SummarySaysWhatGroupsAre(revises: bool, es: seq<Entry>)
    ensures var s := SummaryOfEntries(revises, es);
      && s.unchangedCount == |GroupsWith(revises, es, Unchanged)| && s.leftOnlyCount == |GroupsWith(revises, es, LeftOnly)|
      && s.addedCount == |GroupsWith(revises, es, Added)| && s.revisedCount == |GroupsWith(revises, es, Revised)|
      && s.conflictCount == |GroupsWith(revises, es, Conflict)| && s.incompleteRecordCount == |GroupsWith(revises, es, Incomplete)|
      && var resolved := s.conflictCount == 0 && s.incompleteRecordCount == 0;
      && s.candidateObservationCount == (if resolved then Some(|SettledGroups(revises, es)|) else None)
      && (s.relation == Unresolved <==> !resolved)
      && (s.relation == Revision <==> resolved && s.revisedCount != 0)
      && (s.relation == FormatCopyCandidate <==>
            resolved && s.revisedCount == 0 && s.unchangedCount != 0 && s.leftOnlyCount + s.addedCount == 0)
      && (s.relation == Overlap <==>
            resolved && s.revisedCount == 0 && s.unchangedCount != 0 && s.leftOnlyCount + s.addedCount != 0)
      && (s.relation == Disjoint <==> resolved && s.revisedCount == 0 && s.unchangedCount == 0)
  {
    CountsAreGroups(revises, es, Unchanged);
    CountsAreGroups(revises, es, LeftOnly);
    CountsAreGroups(revises, es, Added);
    CountsAreGroups(revises, es, Revised);
    CountsAreGroups(revises, es, Conflict);
    IncompleteGroups(revises, es);
    GroupCount(es);
    hide CountOf, GroupsWith, FactsOn, SignaturesOf, Keep, SettledGroups, Openers;
  }

  lemma IncompleteGroups(revises: bool, es: seq<Entry>)
    ensures |GroupsWith(revises, es, Incomplete)| == |Keep(IsIncomplete, es)|
  {
    var at := IncompleteAt(es, |es|);
    forall k | 0 <= k < |Openers(es)| ensures k in GroupsWith(revises, es, Incomplete) <==> Openers(es)[k] in at {
      IncompleteStandsAlone(revises, es, k);
    }
    OpenersOpen(es);
    OpenersAscend(es);
    forall i | i in at ensures i in Openers(es) { assert Opens(es, i); }
    hide Openers, SettledGroups, Entry.Incomplete;
    AsManyOpeners(es, GroupsWith(revises, es, Incomplete), at);
    IncompleteAtCount(es, |es|);
    assert es[..|es|] == es;
  }

  ghost function IncompleteAt(es: seq<Entry>, n: nat): set<nat>
    requires n <= |es|
  {
    set i | 0 <= i < n && es[i].Incomplete()
  }

  lemma {:induction false} IncompleteAtCount(es: seq<Entry>, n: nat)
    requires n <= |es|
    ensures |IncompleteAt(es, n)| == |Keep(IsIncomplete, es[..n])|
  {
    if n > 0 {
      IncompleteAtCount(es, n - 1);
      assert es[..n][..n - 1] == es[..n - 1];
      assert IncompleteAt(es, n) == IncompleteAt(es, n - 1) + (if es[n - 1].Incomplete() then {n - 1} else {});
      hide Entry.Incomplete;
    }
  }

  lemma {:induction false} AsManyOpeners(es: seq<Entry>, groups: set<nat>, at: set<nat>)
    requires forall k | k in groups :: k < |Openers(es)| && Openers(es)[k] in at
    requires forall i | i in at :: exists k :: k in groups && k < |Openers(es)| && Openers(es)[k] == i
    requires forall k, l | 0 <= k < l < |Openers(es)| :: Openers(es)[k] < Openers(es)[l]
    ensures |groups| == |at|
    decreases |groups|
  {
    hide Openers;
    if k :| k in groups {
      forall i | i in at - {Openers(es)[k]}
        ensures exists l :: l in groups - {k} && l < |Openers(es)| && Openers(es)[l] == i
      {
        var l :| l in groups && l < |Openers(es)| && Openers(es)[l] == i;
        assert l in groups - {k};
      }
      AsManyOpeners(es, groups - {k}, at - {Openers(es)[k]});
    } else {
      assert at == {};
    }
  }

  /** Every group is counted under exactly one status, and every record is either counted for its group
      or is a duplicate. */
  lemma CountsCoverGroups(revises: bool, es: seq<Entry>)
    ensures var s := SummaryOfEntries(revises, es);
      |SettledGroups(revises, es)| == s.unchangedCount + s.leftOnlyCount + s.addedCount + s.revisedCount
                                      + s.conflictCount + s.incompleteRecordCount
  {
    GroupCount(es);
    var left, right := FactsOn(es, Left), FactsOn(es, Right);
    StatusesPartition(revises, left, right, SignaturesOf(left + right));
    hide CountOf, FactsOn, SignaturesOf, Openers, Keep, RelationOf;
  }

  // --- Permuting records ----------------------------------------------------------------------------------------

  /** Two arrangements of the same elements, without the last element of the first. */
  lemma WithoutLast<T>(xs: seq<T>, ys: seq<T>) returns (init: seq<T>, x: T, a: seq<T>, b: seq<T>)
    requires multiset(xs) == multiset(ys) && xs != []
    ensures xs == init + [x] && ys == a + [x] + b && multiset(init) == multiset(a + b) && |init| < |xs|
  {
    init, x := xs[..|xs| - 1], xs[|xs| - 1];
    assert xs == init + [x];
    assert x in multiset(ys);
    var j :| 0 <= j < |ys| && ys[j] == x;
    a, b := ys[..j], ys[j + 1..];
    assert ys == a + [x] + b;
    Around(a, x, b);
    Around(init, x, []);
    assert init + [x] + [] == xs && init + [] == init;
  }

  lemma Around<T>(a: seq<T>, x: T, b: seq<T>)
    ensures multiset(a + b) == multiset(a + [x] + b) - multiset{x}
  {
  }

  lemma SameLength<T>(xs: seq<T>, ys: seq<T>)
    requires multiset(xs) == multiset(ys)
    ensures |xs| == |ys|
  {
    assert |xs| == |multiset(xs)| == |multiset(ys)| == |ys|;
  }

  lemma KeepAround<T>(p: T -> bool, a: seq<T>, x: T, b: seq<T>)
    ensures |Keep(p, a + [x] + b)| == |Keep(p, a + b)| + (if p(x) then 1 else 0)
  {
    KeepAppend(p, a + [x], b);
    KeepAppend(p, a, [x]);
    KeepAppend(p, a, b);
    assert [x][..0] == [];
    assert |Keep(p, [x])| == if p(x) then 1 else 0;
  }

  lemma {:induction false} KeepPermuted<T>(p: T -> bool, xs: seq<T>, ys: seq<T>)
    requires multiset(xs) == multiset(ys)
    ensures |Keep(p, xs)| == |Keep(p, ys)|
    decreases |xs|
  {
    SameLength(xs, ys);
    if xs != [] {
      var init, x, a, b := WithoutLast(xs, ys);
      KeepPermuted(p, init, a + b);
      KeepAround(p, a, x, b);
    }
  }

  lemma SummaryIgnoresOrder(revises: bool, es: seq<Entry>, fs: seq<Entry>)
    requires multiset(es) == multiset(fs)
    ensures SummaryOfEntries(revises, es) == SummaryOfEntries(revises, fs)
  {
    KeepPermuted(IsComplete, es, fs);
    KeepPermuted(IsIncomplete, es, fs);
    forall e ensures e in es <==> e in fs {
      assert e in es <==> e in multiset(es);
      assert e in fs <==> e in multiset(fs);
    }
    assert FactsOn(es, Left) == FactsOn(fs, Left) && FactsOn(es, Right) == FactsOn(fs, Right);
    hide Keep, FactsOn, SummaryOf;
  }

  lemma {:induction false} EntriesPermuted(platform: Platform, plan: Plan, side: Side, xs: seq<Record>, ys: seq<Record>)
    requires multiset(xs) == multiset(ys) && Valid(platform, plan, side, xs)
    ensures Valid(platform, plan, side, ys)
    ensures multiset(EntriesOf(platform, plan, side, xs)) == multiset(EntriesOf(platform, plan, side, ys))
    decreases |xs|
  {
    SameLength(xs, ys);
    if xs != [] {
      hide EntryOf, Valid, EntriesOf;
      var init, x, a, b := WithoutLast(xs, ys);
      LastIsValid(platform, plan, side, init, x);
      EntriesPermuted(platform, plan, side, init, a + b);
      EntriesSplit(platform, plan, side, a, x, b);
      EntriesLast(platform, plan, side, init, x);
    }
  }

  lemma EntriesLast(platform: Platform, plan: Plan, side: Side, init: seq<Record>, x: Record)
    requires Valid(platform, plan, side, init) && EntryOf(platform, plan, side, x).Some?
    ensures Valid(platform, plan, side, init + [x])
    ensures multiset(EntriesOf(platform, plan, side, init + [x]))
         == multiset(EntriesOf(platform, plan, side, init)) + multiset{EntryOf(platform, plan, side, x).value}
  {
    hide EntryOf, Valid, EntriesOf;
    assert init + [x] + [] == init + [x] && init + [] == init;
    EntriesSplit(platform, plan, side, init, x, []);
  }

  lemma LastIsValid(platform: Platform, plan: Plan, side: Side, init: seq<Record>, x: Record)
    requires Valid(platform, plan, side, init + [x])
    ensures Valid(platform, plan, side, init) && EntryOf(platform, plan, side, x).Some?
  {
    hide EntryOf;
    forall i | 0 <= i < |init| ensures EntryOf(platform, plan, side, init[i]).Some? { assert (init + [x])[i] == init[i]; }
    assert (init + [x])[|init|] == x;
  }

  lemma EntriesSplit(platform: Platform, plan: Plan, side: Side, a: seq<Record>, x: Record, b: seq<Record>)
    requires Valid(platform, plan, side, a + b) && EntryOf(platform, plan, side, x).Some?
    ensures Valid(platform, plan, side, a + [x] + b)
    ensures multiset(EntriesOf(platform, plan, side, a + [x] + b))
         == multiset(EntriesOf(platform, plan, side, a + b)) + multiset{EntryOf(platform, plan, side, x).value}
  {
    hide EntryOf;
    forall i | 0 <= i < |a| ensures EntryOf(platform, plan, side, a[i]).Some? { assert (a + b)[i] == a[i]; }
    forall i | 0 <= i < |b| ensures EntryOf(platform, plan, side, b[i]).Some? { assert (a + b)[|a| + i] == b[i]; }
    var ea, eb := EntriesOf(platform, plan, side, a), EntriesOf(platform, plan, side, b);
    var e := EntryOf(platform, plan, side, x).value;
    assert EntriesOf(platform, plan, side, a + b) == ea + eb;
    assert EntriesOf(platform, plan, side, a + [x] + b) == ea + [e] + eb;
  }

  function SummaryIn(r: Result<Report, Error>): Result<Summary, Error>
  {
    match r
    case Ok(report) => Ok(report.summary)
    case Err(e) => Err(e)
  }

  /** Permuting the records of each side changes neither the outcome nor the summary. */
  lemma SummaryIgnoresRecordOrder(platform: Platform, plan: Plan, left: seq<Record>, right: seq<Record>,
                                  left': seq<Record>, right': seq<Record>)
    requires multiset(left) == multiset(left') && multiset(right) == multiset(right')
    ensures SummaryIn(Reconciled(platform, plan, left, right)) == SummaryIn(Reconciled(platform, plan, left', right'))
  {
    assert |left| == |multiset(left)| == |multiset(left')| == |left'|;
    assert |right| == |multiset(right)| == |multiset(right')| == |right'|;
    if Valid(platform, plan, Left, left) { EntriesPermuted(platform, plan, Left, left, left'); }
    if Valid(platform, plan, Left, left') { EntriesPermuted(platform, plan, Left, left', left); }
    if Valid(platform, plan, Right, right) { EntriesPermuted(platform, plan, Right, right, right'); }
    if Valid(platform, plan, Right, right') { EntriesPermuted(platform, plan, Right, right', right); }
    hide EntryOf, SummaryOfEntries, SettledGroups, Valid;
    if Valid(platform, plan, Left, left) && Valid(platform, plan, Right, right) {
      SummaryIgnoresOrder(plan.rightRevisesLeft,
                          EntriesOf(platform, plan, Left, left) + EntriesOf(platform, plan, Right, right),
                          EntriesOf(platform, plan, Left, left') + EntriesOf(platform, plan, Right, right'));
    }
  }

  // --- Swapping the sides -------------------------------------------------------------------------------------------

  function SwappedKey(k: Key): Key
  {
    k.(leftField := k.rightField, rightField := k.leftField)
  }

  /** The plan for the same comparison with the two files exchanged. */
  function Swapped(plan: Plan): Plan
  {
    plan.(keys := seq(|plan.keys|, i requires 0 <= i < |plan.keys| => SwappedKey(plan.keys[i])),
          left := plan.right, right := plan.left)
  }

  function Other(side: Side): Side
  {
    if side == Left then Right else Left
  }

  function Turned(e: Entry): Entry
  {
    e.(side := Other(e.side))
  }

  lemma EntryOfSwapped(platform: Platform, plan: Plan, side: Side, record: Record)
    ensures EntryOf(platform, plan, side, record).None? == EntryOf(platform, Swapped(plan), Other(side), record).None?
    ensures EntryOf(platform, plan, side, record).Some? ==>
      EntryOf(platform, Swapped(plan), Other(side), record).value == Turned(EntryOf(platform, plan, side, record).value)
  {
    hide ConversionFor, BindingOf, TextOf, ReadDecimal, ReadDecimalText, Convert, DecimalText;
    var swapped := Swapped(plan);
    forall i | 0 <= i < |plan.keys|
      ensures KeyOf(platform, swapped.keys[i], Other(side), record) == KeyOf(platform, plan.keys[i], side, record)
    {
    }
    assert seq(|plan.keys|, i requires 0 <= i < |plan.keys| => KeyOf(platform, plan.keys[i], side, record))
        == seq(|swapped.keys|, i requires 0 <= i < |swapped.keys| => KeyOf(platform, swapped.keys[i], Other(side), record));
  }

  lemma EntriesOfSwapped(platform: Platform, plan: Plan, side: Side, records: seq<Record>)
    ensures Valid(platform, Swapped(plan), Other(side), records) == Valid(platform, plan, side, records)
    ensures Valid(platform, plan, side, records) ==>
      var es, fs := EntriesOf(platform, plan, side, records), EntriesOf(platform, Swapped(plan), Other(side), records);
      (|es| == |fs| && (forall i | 0 <= i < |es| :: fs[i] == Turned(es[i]) && es[i].side == side))
  {
    hide EntryOf, Swapped;
    forall i | 0 <= i < |records|
      ensures EntryOf(platform, plan, side, records[i]).None? == EntryOf(platform, Swapped(plan), Other(side), records[i]).None?
      ensures EntryOf(platform, plan, side, records[i]).Some? ==>
        EntryOf(platform, Swapped(plan), Other(side), records[i]).value == Turned(EntryOf(platform, plan, side, records[i]).value)
    {
      EntryOfSwapped(platform, plan, side, records[i]);
    }
  }

  ghost predicate AreTurned(es: seq<Entry>, fs: seq<Entry>)
  {
    |es| == |fs| && forall i | 0 <= i < |es| :: fs[i] == Turned(es[i])
  }

  lemma FactsOfTurned(es: seq<Entry>, fs: seq<Entry>, side: Side)
    requires AreTurned(es, fs)
    ensures FactsOn(fs, Other(side)) == FactsOn(es, side)
  {
    forall f | f in FactsOn(fs, Other(side)) ensures f in FactsOn(es, side) {
      var e :| e in fs && !e.Incomplete() && e.side == Other(side) && Fact(e.signature, e.value) == f;
      var i :| 0 <= i < |fs| && fs[i] == e;
      assert es[i] in es && !es[i].Incomplete();
    }
    forall f | f in FactsOn(es, side) ensures f in FactsOn(fs, Other(side)) {
      var e :| e in es && !e.Incomplete() && e.side == side && Fact(e.signature, e.value) == f;
      var i :| 0 <= i < |es| && es[i] == e;
      assert fs[i] in fs && !fs[i].Incomplete();
    }
  }

  lemma {:induction false} CountsOfTurned(es: seq<Entry>, fs: seq<Entry>)
    requires AreTurned(es, fs)
    ensures |Keep(IsComplete, es)| == |Keep(IsComplete, fs)| && |Keep(IsIncomplete, es)| == |Keep(IsIncomplete, fs)|
  {
    if es != [] { CountsOfTurned(es[..|es| - 1], fs[..|fs| - 1]); }
  }

  function MirroredStatus(status: Status): Status
  {
    match status
    case LeftOnly => Added
    case Added => LeftOnly
    case _ => status
  }

  /** LEFT_ONLY and ADDED exchanged, everything else the same. */
  function Mirrored(s: Summary): Summary
  {
    s.(leftOnlyCount := s.addedCount, addedCount := s.leftOnlyCount)
  }

  lemma MirroredStatuses(revises: bool, left: set<Fact>, right: set<Fact>, all: set<Signature>, status: Status)
    requires all == SignaturesOf(left + right)
    ensures CountOf(revises, right, left, all, status) == CountOf(revises, left, right, all, MirroredStatus(status))
  {
    forall s | s in all
      ensures StatusOf(revises, ValuesOf(right, s), ValuesOf(left, s))
           == MirroredStatus(StatusOf(revises, ValuesOf(left, s), ValuesOf(right, s)))
    {
      var f :| f in left + right && f.signature == s;
      assert f.value in ValuesOf(left, s) + ValuesOf(right, s);
      assert ValuesOf(left, s) + ValuesOf(right, s) == ValuesOf(right, s) + ValuesOf(left, s);
    }
    hide StatusOf, ValuesOf;
    assert WithStatus(revises, right, left, all, status) == WithStatus(revises, left, right, all, MirroredStatus(status));
  }

  lemma SummaryOfMirrored(revises: bool, left: set<Fact>, right: set<Fact>, complete: nat, incomplete: nat)
    ensures SummaryOf(revises, right, left, complete, incomplete) == Mirrored(SummaryOf(revises, left, right, complete, incomplete))
  {
    assert left + right == right + left;
    var all := SignaturesOf(left + right);
    MirroredStatuses(revises, left, right, all, Unchanged);
    MirroredStatuses(revises, left, right, all, LeftOnly);
    MirroredStatuses(revises, left, right, all, Added);
    MirroredStatuses(revises, left, right, all, Revised);
    MirroredStatuses(revises, left, right, all, Conflict);
    hide CountOf, SignaturesOf;
  }

  lemma SummaryOfTurned(revises: bool, es: seq<Entry>, fs: seq<Entry>)
    requires AreTurned(es, fs)
    ensures SummaryOfEntries(revises, fs) == Mirrored(SummaryOfEntries(revises, es))
  {
    FactsOfTurned(es, fs, Left);
    FactsOfTurned(es, fs, Right);
    CountsOfTurned(es, fs);
    SummaryOfMirrored(revises, FactsOn(es, Left), FactsOn(es, Right), |Keep(IsComplete, es)|, |Keep(IsIncomplete, es)|);
    hide FactsOn, Keep, SummaryOf;
  }

  lemma SummaryOfSwapped(platform: Platform, plan: Plan, left: seq<Record>, right: seq<Record>)
    requires Valid(platform, plan, Left, left) && Valid(platform, plan, Right, right)
    ensures Valid(platform, Swapped(plan), Right, left) && Valid(platform, Swapped(plan), Left, right)
    ensures SummaryOfEntries(plan.rightRevisesLeft, EntriesOf(platform, Swapped(plan), Left, right) + EntriesOf(platform, Swapped(plan), Right, left))
         == Mirrored(SummaryOfEntries(plan.rightRevisesLeft, EntriesOf(platform, plan, Left, left) + EntriesOf(platform, plan, Right, right)))
  {
    hide SummaryOfEntries, EntryOf, Mirrored, Swapped, Valid, Turned;
    EntriesOfSwapped(platform, plan, Left, left);
    EntriesOfSwapped(platform, plan, Right, right);
    var l, r := EntriesOf(platform, plan, Left, left), EntriesOf(platform, plan, Right, right);
    var l', r' := EntriesOf(platform, Swapped(plan), Right, left), EntriesOf(platform, Swapped(plan), Left, right);
    hide EntriesOf;
    SummaryOfTurned(plan.rightRevisesLeft, l + r, l' + r');
    assert multiset(l' + r') == multiset(r' + l');
    SummaryIgnoresOrder(plan.rightRevisesLeft, l' + r', r' + l');
  }

  /** Exchanging the files exchanges LEFT_ONLY with ADDED in the summary and changes nothing else, whether
      or not the right may revise the left; only which value a revised group stands for depends on it. */
  lemma SwappingSidesMirrorsSummary(platform: Platform, plan: Plan, left: seq<Record>, right: seq<Record>)
    ensures SummaryIn(Reconciled(platform, Swapped(plan), right, left))
         == match Reconciled(platform, plan, left, right)
            case Ok(report) => Ok(Mirrored(report.summary))
            case Err(e) => Err(e)
  {
    assert Swapped(plan).rightRevisesLeft == plan.rightRevisesLeft;
    hide SummaryOfEntries, SettledGroups, EntriesOf, Mirrored, Swapped, Valid;
    EntriesOfSwapped(platform, plan, Left, left);
    EntriesOfSwapped(platform, plan, Right, right);
    if Valid(platform, plan, Left, left) && Valid(platform, plan, Right, right) {
      SummaryOfSwapped(platform, plan, left, right);
    }
  }
}
