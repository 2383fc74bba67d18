/**
 The current-revision view of relation assertions: rows superseded by another row of the same
 source, status and endpoints are hidden, unless the supersedes links run in a circle.
 */
module RelationRevisions {
  import opened Outcomes

  datatype Row = Row(assertionId: string, supersedesId: Option<string>, dataItemId: string, status: string,
                     subjectKey: string, objectKey: string, predicateName: string)

  datatype View = View(items: seq<Row>, hiddenCount: nat, branchCount: nat, deferred: bool)

  // --- Links ---------------------------------------------------------------------------------

  /** The row a lookup by id finds: the last one with that id. */
  function ById(rows: seq<Row>, id: string): Option<Row>
  {
    if rows == [] then None
    else if rows[|rows| - 1].assertionId == id then Some(rows[|rows| - 1])
    else ById(rows[..|rows| - 1], id)
  }

  predicate Supersedes(next: Row, previous: Row)
  {
    && previous.assertionId != next.assertionId
    && previous.dataItemId == next.dataItemId
    && previous.status == next.status
    && next.status in {"APPROVED", "PENDING_REVIEW"}
    && previous.subjectKey == next.subjectKey
    && previous.objectKey == next.objectKey
    && previous.predicateName == next.predicateName
  }

  function Referenced(next: Row): string
  {
    if next.supersedesId.Some? then next.supersedesId.value else ""
  }

  type Links = map<string, string>

  /** The links that the first `n` rows set, looked up among all rows. */
  function LinksUpTo(rows: seq<Row>, n: nat): Links
    requires n <= |rows|
  {
    if n == 0 then map[]
    else
      var next := rows[n - 1];
      match ById(rows, Referenced(next))
      case Some(previous) =>
        if Supersedes(next, previous) then LinksUpTo(rows, n - 1)[next.assertionId := previous.assertionId]
        else LinksUpTo(rows, n - 1)
      case None => LinksUpTo(rows, n - 1)
  }

  function LinksOf(rows: seq<Row>): Links
  {
    LinksUpTo(rows, |rows|)
  }

  ghost predicate IdsOf(rows: seq<Row>, id: string)
  {
    exists i | 0 <= i < |rows| :: rows[i].assertionId == id
  }

  ghost predicate DistinctIds(rows: seq<Row>)
  {
    forall i, j | 0 <= i < j < |rows| :: rows[i].assertionId != rows[j].assertionId
  }

  lemma {:induction false} ByIdFinds(rows: seq<Row>, id: string)
    ensures ById(rows, id).Some? <==> IdsOf(rows, id)
    ensures ById(rows, id).Some? ==> ById(rows, id).value in rows && ById(rows, id).value.assertionId == id
  {
    if rows != [] && rows[|rows| - 1].assertionId != id {
      var init := rows[..|rows| - 1];
      ByIdFinds(init, id);
      if IdsOf(init, id) {
        var i :| 0 <= i < |init| && init[i].assertionId == id;
        assert rows[i].assertionId == id;
      }
      if IdsOf(rows, id) {
        var i :| 0 <= i < |rows| && rows[i].assertionId == id;
        assert init[i].assertionId == id;
      }
    }
  }

  lemma {:induction false} LinksJoinRows(rows: seq<Row>, n: nat, id: string)
    requires n <= |rows| && id in LinksUpTo(rows, n)
    ensures IdsOf(rows, id) && IdsOf(rows, LinksUpTo(rows, n)[id]) && LinksUpTo(rows, n)[id] != id
  {
    ByIdFinds(rows, Referenced(rows[n - 1]));
    assert IdsOf(rows, rows[n - 1].assertionId);
    if id in LinksUpTo(rows, n - 1) { LinksJoinRows(rows, n - 1, id); }
  }

  lemma {:induction false} LinksOfDistinctRows(rows: seq<Row>, n: nat)
    requires DistinctIds(rows) && n <= |rows|
    ensures forall i, j | 0 <= i < n && 0 <= j < |rows| ::
              (rows[i].assertionId in LinksUpTo(rows, n) && LinksUpTo(rows, n)[rows[i].assertionId] == rows[j].assertionId)
              <==> (Referenced(rows[i]) == rows[j].assertionId && Supersedes(rows[i], rows[j]))
    ensures forall i | n <= i < |rows| :: rows[i].assertionId !in LinksUpTo(rows, n)
  {
    if n > 0 {
      LinksOfDistinctRows(rows, n - 1);
      ByIdFinds(rows, Referenced(rows[n - 1]));
    }
  }

  /** With distinct ids, a link is exactly a supersedes reference between two rows that agree. */
  lemma LinkIsAgreeingReference(rows: seq<Row>, i: nat, j: nat)
    requires DistinctIds(rows) && i < |rows| && j < |rows|
    ensures (rows[i].assertionId in LinksOf(rows) && LinksOf(rows)[rows[i].assertionId] == rows[j].assertionId)
       <==> (Referenced(rows[i]) == rows[j].assertionId && Supersedes(rows[i], rows[j]))
  {
    LinksOfDistinctRows(rows, |rows|);
  }

  // --- Cycles ----------------------------------------------------------------------------------

  /** The id reached by following `k` links from `id`. */
  function Follow(links: Links, id: string, k: nat): Option<string>
  {
    if k == 0 then Some(id)
    else match Follow(links, id, k - 1)
      case None => None
      case Some(previous) => if previous in links then Some(links[previous]) else None
  }

  /** Following one link or more from `a` leads to `b`. */
  ghost predicate Leads(links: Links, a: string, b: string)
  {
    exists j: nat :: j > 0 && Follow(links, a, j) == Some(b)
  }

  ghost predicate OnCycle(links: Links, id: string)
  {
    Leads(links, id, id)
  }

  lemma {:induction false} FollowAdds(links: Links, id: string, j: nat, k: nat)
    requires Follow(links, id, j).Some?
    ensures Follow(links, id, j + k) == Follow(links, Follow(links, id, j).value, k)
  {
    if k > 0 { FollowAdds(links, id, j, k - 1); }
  }

  lemma {:induction false} FollowDefinedEarlier(links: Links, id: string, j: nat, k: nat)
    requires j <= k && Follow(links, id, k).Some?
    ensures Follow(links, id, j).Some?
  {
    if j < k { FollowDefinedEarlier(links, id, j, k - 1); }
  }

  /** A path of followed links without repetition. */
  ghost predicate IsTrail(links: Links, path: seq<string>)
  {
    && path != []
    && (forall i | 0 <= i < |path| :: Follow(links, path[0], i) == Some(path[i]))
    && (forall i, j | 0 <= i < j < |path| :: path[i] != path[j])
  }

  /** When a trail runs back into itself, the part from there on is a cycle. */
  lemma TrailEndIsCycle(links: Links, path: seq<string>, s: nat, i: nat)
    requires IsTrail(links, path) && s <= i < |path|
    requires Follow(links, path[0], |path|) == Some(path[s])
    ensures OnCycle(links, path[i])
  {
    var n := |path|;
    FollowAdds(links, path[0], i, n - i);
    FollowAdds(links, path[0], s, i - s);
    FollowAdds(links, path[i], n - i, i - s);
    assert Follow(links, path[i], n - s) == Some(path[i]);
  }

  lemma {:induction false} LeastPeriod(links: Links, id: string, k: nat) returns (p: nat)
    requires k > 0 && Follow(links, id, k) == Some(id)
    ensures 0 < p <= k && Follow(links, id, p) == Some(id)
    ensures forall j | 0 < j < p :: Follow(links, id, j) != Some(id)
    decreases k
  {
    if j :| 0 < j < k && Follow(links, id, j) == Some(id) {
      p := LeastPeriod(links, id, j);
    } else {
      p := k;
    }
  }

  /** A trail from a node on a cycle comes back to that node and to no other. */
  lemma TrailFromCycleReturnsToStart(links: Links, path: seq<string>)
    requires IsTrail(links, path) && OnCycle(links, path[0])
    requires match Follow(links, path[0], |path|)
             case None => true
             case Some(id) => id in path
    ensures Follow(links, path[0], |path|) == Some(path[0])
  {
    var x, n := path[0], |path|;
    var k: nat :| k > 0 && Follow(links, x, k) == Some(x);
    var p := LeastPeriod(links, x, k);
    assert p >= n;
    FollowDefinedEarlier(links, x, n, p);
    var s :| 0 <= s < n && path[s] == Follow(links, x, n).value;
    FollowAdds(links, x, n, p - n);
    FollowAdds(links, x, s, p - n);
    assert Follow(links, x, s + p - n) == Some(x);
    assert s == n - p || s + p - n == 0;
  }

  method FindCycles(links: Links) returns (cycles: set<string>)
    ensures forall id :: id in cycles <==> OnCycle(links, id)
  {
    cycles := {};
    var remaining := links.Keys;
    while remaining != {}
      invariant remaining <= links.Keys
      invariant forall id | id in cycles :: OnCycle(links, id)
      invariant forall id | id in links.Keys - remaining && OnCycle(links, id) :: id in cycles
      decreases |remaining|
    {
      var first :| first in remaining;
      var path, repeated := FollowTrail(links, first);
      if repeated.Some? {
        ghost var before := cycles;
        cycles := cycles + set i | repeated.value <= i < |path| :: path[i];
        forall id | id in cycles ensures OnCycle(links, id) {
          if id !in before {
            var i :| repeated.value <= i < |path| && path[i] == id;
            TrailEndIsCycle(links, path, repeated.value, i);
          }
        }
      }
      if OnCycle(links, first) {
        TrailFromCycleReturnsToStart(links, path);
        assert path[0] == first && repeated.value == 0;
      }
      remaining := remaining - {first};
    }
    forall id | OnCycle(links, id) ensures id in cycles {
      CycleNodesAreKeys(links, id);
    }
  }

  lemma CycleNodesAreKeys(links: Links, id: string)
    requires OnCycle(links, id)
    ensures id in links && OnCycle(links, links[id])
  {
    var k: nat :| k > 0 && Follow(links, id, k) == Some(id);
    FollowDefinedEarlier(links, id, 1, k);
    assert Follow(links, id, 1) == if id in links then Some(links[id]) else None;
    FollowAdds(links, id, 1, k - 1);
    FollowAdds(links, links[id], k - 1, 1);
    assert Follow(links, links[id], k) == Some(links[id]);
  }

  lemma TrailExtends(links: Links, first: string, path: seq<string>, id: string)
    requires path != [] ==> IsTrail(links, path) && path[0] == first
    requires Follow(links, first, |path|) == Some(id) && id !in path
    ensures IsTrail(links, path + [id]) && (path + [id])[0] == first
    ensures Follow(links, first, |path| + 1) == if id in links then Some(links[id]) else None
  {
  }

  /** Following links until they end or repeat; `repeated` is where the trail runs back into itself. */
  method FollowTrail(links: Links, first: string) returns (path: seq<string>, repeated: Option<nat>)
    ensures IsTrail(links, path) && path[0] == first
    ensures match repeated
            case None => Follow(links, first, |path|) == None
            case Some(s) => s < |path| && Follow(links, first, |path|) == Some(path[s])
  {
    hide IsTrail, Follow, Marks, IdsFrom, Left;
    FirstIsInside(links, first);
    var seen: map<string, nat> := map[];
    path := [];
    var id := Some(first);
    FollowNothing(links, first);
    MarksNothing();
    while id.Some? && id.value !in seen
      invariant id == Follow(links, first, |path|)
      invariant path == [] ==> id == Some(first)
      invariant path != [] ==> path[0] == first && IsTrail(links, path)
      invariant Marks(seen, path)
      invariant seen.Keys <= IdsFrom(links, first) && (id.Some? ==> id.value in IdsFrom(links, first))
      decreases Left(IdsFrom(links, first), seen.Keys)
    {
      FewerLeft(IdsFrom(links, first), seen.Keys, id.value);
      assert seen[id.value := |path|].Keys == seen.Keys + {id.value};
      LinkStaysInside(links, first, id.value);
      MarksExtend(seen, path, id.value);
      TrailExtends(links, first, path, id.value);
      seen := seen[id.value := |path|];
      path := path + [id.value];
      id := if id.value in links then Some(links[id.value]) else None;
    }
    repeated := None;
    if id.Some? {
      MarkOf(seen, path, id.value);
      repeated := Some(seen[id.value]);
    }
  }

  /** Each id of the path is marked with its position, and nothing else is marked. */
  ghost predicate Marks(seen: map<string, nat>, path: seq<string>)
  {
    && (forall i | 0 <= i < |path| :: path[i] in seen && seen[path[i]] == i)
    && (forall v | v in seen :: seen[v] < |path| && path[seen[v]] == v)
  }

  lemma MarksNothing()
    ensures Marks(map[], [])
  {
  }

  lemma MarksExtend(seen: map<string, nat>, path: seq<string>, id: string)
    requires Marks(seen, path) && id !in seen
    ensures Marks(seen[id := |path|], path + [id]) && id !in path
  {
  }

  lemma MarkOf(seen: map<string, nat>, path: seq<string>, id: string)
    requires Marks(seen, path) && id in seen
    ensures seen[id] < |path| && path[seen[id]] == id
  {
  }

  ghost function IdsFrom(links: Links, first: string): set<string>
  {
    links.Keys + links.Values + {first}
  }

  lemma FirstIsInside(links: Links, first: string)
    ensures first in IdsFrom(links, first)
  {
  }

  lemma LinkStaysInside(links: Links, first: string, id: string)
    ensures id in links ==> links[id] in IdsFrom(links, first)
  {
  }

  ghost function Left(all: set<string>, taken: set<string>): nat
  {
    |all - taken|
  }

  lemma FewerLeft(all: set<string>, taken: set<string>, v: string)
    requires v in all && v !in taken
    ensures Left(all, taken + {v}) < Left(all, taken)
  {
    assert all - taken == (all - (taken + {v})) + {v};
  }

  lemma FollowNothing(links: Links, id: string)
    ensures Follow(links, id, 0) == Some(id)
  {
  }

  // --- The view -----------------------------------------------------------------------------------

  /** An id that some row outside every cycle supersedes. */
  ghost predicate Hidden(links: Links, id: string)
  {
    exists next :: next in links && links[next] == id && !OnCycle(links, next) && !OnCycle(links, id)
  }

  /** The rows whose links supersede `id`, outside every cycle. */
  ghost function Successors(links: Links, id: string): set<string>
  {
    set next | next in links && links[next] == id && !OnCycle(links, next) && !OnCycle(links, id)
  }

  method CountSuccessors(links: Links, cycles: set<string>) returns (successors: map<string, nat>)
    requires forall id :: id in cycles <==> OnCycle(links, id)
    ensures forall id :: id in successors <==> Hidden(links, id)
    ensures forall id | id in successors :: successors[id] == |Successors(links, id)|
  {
    hide Counted, OnCycle, Hidden, Successors;
    successors := map[];
    forall id { CountNone(links, id); }
    var remaining := links.Keys;
    while remaining != {}
      invariant remaining <= links.Keys
      invariant forall id :: id in successors <==> Counted(links, remaining, id) != {}
      invariant forall id | id in successors :: successors[id] == |Counted(links, remaining, id)|
      decreases |remaining|
    {
      var next :| next in remaining;
      var previous := links[next];
      var left := remaining - {next};
      forall id { CountStep(links, cycles, remaining, next, id); }
      if next !in cycles && previous !in cycles {
        successors := successors[previous := (if previous in successors then successors[previous] else 0) + 1];
      }
      remaining := left;
    }
    forall id ensures (id in successors <==> Hidden(links, id)) && Counted(links, {}, id) == Successors(links, id) {
      AllCounted(links, id);
    }
  }

  lemma CountNone(links: Links, id: string)
    ensures Counted(links, links.Keys, id) == {}
  {
  }

  lemma CountStep(links: Links, cycles: set<string>, remaining: set<string>, next: string, id: string)
    requires next in remaining && remaining <= links.Keys
    requires forall id :: id in cycles <==> OnCycle(links, id)
    ensures var before, after := Counted(links, remaining, id), Counted(links, remaining - {next}, id);
            if id == links[next] && next !in cycles && id !in cycles
            then after == before + {next} && |after| == |before| + 1
            else after == before
  {
    hide OnCycle;
    var before, after := Counted(links, remaining, id), Counted(links, remaining - {next}, id);
    if id == links[next] && next !in cycles && id !in cycles { assert after == before + {next}; }
  }

  lemma AllCounted(links: Links, id: string)
    ensures Counted(links, {}, id) == Successors(links, id)
    ensures Hidden(links, id) <==> Successors(links, id) != {}
  {
    if Hidden(links, id) {
      var next :| next in links && links[next] == id && !OnCycle(links, next) && !OnCycle(links, id);
      assert next in Successors(links, id);
    }
  }

  ghost function Counted(links: Links, remaining: set<string>, id: string): set<string>
  {
    set next | next in links && next !in remaining && links[next] == id && !OnCycle(links, next) && !OnCycle(links, id)
  }

  /** The rows whose ids are not hidden, in order. */
  ghost function Visible(links: Links, rows: seq<Row>): seq<Row>
  {
    if rows == [] then []
    else
      var last := rows[|rows| - 1];
      Visible(links, rows[..|rows| - 1]) + (if Hidden(links, last.assertionId) then [] else [last])
  }

  ghost function Branches(links: Links): set<string>
  {
    set next | next in links && |Successors(links, links[next])| > 1 :: links[next]
  }

  lemma BranchesAreCounted(links: Links, successors: map<string, nat>)
    requires forall id :: id in successors <==> Hidden(links, id)
    requires forall id | id in successors :: successors[id] == |Successors(links, id)|
    ensures (set id | id in successors && successors[id] > 1) == Branches(links)
  {
    hide OnCycle;
    forall id ensures id in successors && successors[id] > 1 <==> id in Branches(links) {
      if id in Branches(links) { assert Successors(links, id) != {}; }
    }
  }

  method SelectRelationRevisions(rows: seq<Row>, current: bool, complete: bool) returns (view: View)
    ensures view.deferred == (current && !complete)
    ensures !current || view.deferred ==> view.items == rows && view.hiddenCount == 0 && view.branchCount == 0
    ensures current && complete ==>
              && view.items == Visible(LinksOf(rows), rows)
              && view.hiddenCount == |rows| - |view.items|
              && view.branchCount == |Branches(LinksOf(rows))|
    ensures current && complete && DistinctIds(rows) ==>
              && (forall j | 0 <= j < |rows| :: rows[j] in view.items <==> RevisionsOf(rows, j) == {})
              && view.branchCount == |Forks(rows)|
  {
    hide OnCycle, ById, Referenced, Supersedes, Successors, Hidden, RevisionsOf;
    var deferred := current && !complete;
    if !current || deferred { return View(rows, 0, 0, deferred); }
    var links: Links := map[];
    var i := 0;
    while i < |rows|
      invariant 0 <= i <= |rows| && links == LinksUpTo(rows, i)
    {
      var next := rows[i];
      var previous := ById(rows, Referenced(next));
      if previous.Some? && Supersedes(next, previous.value) {
        links := links[next.assertionId := previous.value.assertionId];
      }
      i := i + 1;
    }
    var cycles := FindCycles(links);
    var successors := CountSuccessors(links, cycles);
    var items: seq<Row> := [];
    i := 0;
    while i < |rows|
      invariant 0 <= i <= |rows| && items == Visible(links, rows[..i]) && |items| <= i
    {
      assert rows[..i + 1][..i] == rows[..i];
      if rows[i].assertionId !in successors { items := items + [rows[i]]; }
      i := i + 1;
    }
    assert rows[..i] == rows;
    var branches := set id | id in successors && successors[id] > 1;
    BranchesAreCounted(links, successors);
    view := View(items, |rows| - |items|, |branches|, false);
    if DistinctIds(rows) { ViewByRows(rows); }
  }

  lemma ViewByRows(rows: seq<Row>)
    requires DistinctIds(rows)
    ensures forall j | 0 <= j < |rows| :: rows[j] in Visible(LinksOf(rows), rows) <==> RevisionsOf(rows, j) == {}
    ensures |Branches(LinksOf(rows))| == |Forks(rows)|
  {
    forall j | 0 <= j < |rows| { HiddenIffRevised(rows, j); }
    BranchesAreForks(rows);
  }

  // --- What the view promises ------------------------------------------------------------------------

  lemma {:induction false} VisibleRows(links: Links, rows: seq<Row>, r: Row)
    ensures r in Visible(links, rows) <==> r in rows && !Hidden(links, r.assertionId)
  {
    if rows != [] {
      VisibleRows(links, rows[..|rows| - 1], r);
      assert rows == rows[..|rows| - 1] + [rows[|rows| - 1]];
    }
  }

  /** Rows on a cycle of supersedes links are never hidden. */
  lemma CyclicRowsStayVisible(rows: seq<Row>, r: Row)
    requires r in rows && OnCycle(LinksOf(rows), r.assertionId)
    ensures r in Visible(LinksOf(rows), rows)
  {
    VisibleRows(LinksOf(rows), rows, r);
  }

  /** Climbing from a hidden id along its successors ends at one that nobody supersedes: climbing
      forever would close a cycle. `below` holds the ids already climbed. */
  lemma {:induction false} ClimbToVisible(links: Links, id: string, below: set<string>) returns (top: string, k: nat)
    requires Hidden(links, id) && id !in below
    requires below <= links.Keys + links.Values
    requires forall b | b in below :: Leads(links, id, b)
    ensures top in links && !Hidden(links, top) && k > 0 && Follow(links, top, k) == Some(id)
    decreases Left(links.Keys + links.Values, below)
  {
    var next :| next in links && links[next] == id && !OnCycle(links, next) && !OnCycle(links, id);
    assert Follow(links, next, 0) == Some(next);
    assert Follow(links, next, 1) == Some(id);
    if !Hidden(links, next) {
      top, k := next, 1;
    } else {
      var above := below + {id};
      forall b | b in above ensures Leads(links, next, b) {
        if b in below {
          var j: nat :| j > 0 && Follow(links, id, j) == Some(b);
          FollowAdds(links, next, 1, j);
          assert Follow(links, next, 1 + j) == Some(b);
        }
      }
      assert next in above ==> OnCycle(links, next);
      assert id in links.Values;
      FewerLeft(links.Keys + links.Values, below, id);
      top, k := ClimbToVisible(links, next, above);
      FollowAdds(links, top, k, 1);
      k := k + 1;
    }
  }

  /** Every hidden row has a visible row that supersedes it, directly or through other rows. */
  lemma HiddenRowHasVisibleSuccessor(rows: seq<Row>, r: Row) returns (v: Row, k: nat)
    requires r in rows && r !in Visible(LinksOf(rows), rows)
    ensures v in Visible(LinksOf(rows), rows) && k > 0
    ensures Follow(LinksOf(rows), v.assertionId, k) == Some(r.assertionId)
  {
    var links := LinksOf(rows);
    VisibleRows(links, rows, r);
    var top;
    top, k := ClimbToVisible(links, r.assertionId, {});
    LinksJoinRows(rows, |rows|, top);
    var i :| 0 <= i < |rows| && rows[i].assertionId == top;
    v := rows[i];
    VisibleRows(links, rows, v);
  }

  /** Rows are never all hidden. */
  lemma NonEmptyViewOfNonEmptyRows(rows: seq<Row>)
    requires rows != []
    ensures Visible(LinksOf(rows), rows) != []
  {
    if Visible(LinksOf(rows), rows) == [] {
      var v, _ := HiddenRowHasVisibleSuccessor(rows, rows[0]);
    }
  }

  // --- The view in terms of the rows themselves ------------------------------------------------------

  /** What a revision of a row is: it names the row in its supersedes field (no name reads as the empty id),
      is another row of the same data item and status, and says something about the same subject, object and
      predicate; only approved and pending rows are revised. */
  ghost predicate Revises(next: Row, previous: Row)
  {
    && (next.supersedesId == Some(previous.assertionId) || (next.supersedesId == None && previous.assertionId == ""))
    && next.assertionId != previous.assertionId && next.dataItemId == previous.dataItemId
    && (next.status == previous.status == "APPROVED" || next.status == previous.status == "PENDING_REVIEW")
    && (next.subjectKey, next.predicateName, next.objectKey)
       == (previous.subjectKey, previous.predicateName, previous.objectKey)
  }

  /** A walk from row to row, each a revision of the next. */
  ghost predicate RevisionWalk(rows: seq<Row>, walk: seq<nat>)
  {
    && walk != [] && (forall k | 0 <= k < |walk| :: walk[k] < |rows|)
    && (forall k | 0 <= k < |walk| - 1 :: Revises(rows[walk[k]], rows[walk[k + 1]]))
  }

  ghost predicate OnCircle(rows: seq<Row>, i: nat)
  {
    exists walk :: RevisionWalk(rows, walk) && |walk| > 1 && walk[0] == walk[|walk| - 1] == i
  }

  lemma LinkIsRevision(rows: seq<Row>, i: nat, j: nat)
    requires DistinctIds(rows) && i < |rows| && j < |rows|
    ensures (rows[i].assertionId in LinksOf(rows) && LinksOf(rows)[rows[i].assertionId] == rows[j].assertionId)
       <==> Revises(rows[i], rows[j])
  {
    hide LinksOf;
    LinkIsAgreeingReference(rows, i, j);
  }

  lemma {:induction false} WalkFollowsLinks(rows: seq<Row>, walk: seq<nat>, k: nat)
    requires DistinctIds(rows) && RevisionWalk(rows, walk) && k < |walk|
    ensures Follow(LinksOf(rows), rows[walk[0]].assertionId, k) == Some(rows[walk[k]].assertionId)
  {
    hide LinksOf, Revises;
    if k > 0 {
      WalkFollowsLinks(rows, walk, k - 1);
      assert Revises(rows[walk[k - 1]], rows[walk[k - 1 + 1]]);
      LinkIsRevision(rows, walk[k - 1], walk[k]);
    }
  }

  lemma {:induction false} LinksMakeAWalk(rows: seq<Row>, i: nat, k: nat) returns (walk: seq<nat>)
    requires DistinctIds(rows) && i < |rows| && Follow(LinksOf(rows), rows[i].assertionId, k).Some?
    ensures RevisionWalk(rows, walk) && |walk| == k + 1 && walk[0] == i
    ensures Follow(LinksOf(rows), rows[i].assertionId, k) == Some(rows[walk[k]].assertionId)
  {
    hide LinksOf, Revises;
    if k == 0 {
      walk := [i];
    } else {
      var init := LinksMakeAWalk(rows, i, k - 1);
      var _, j := LinkBetweenRows(rows, rows[init[k - 1]].assertionId);
      LinkIsRevision(rows, init[k - 1], j);
      walk := init + [j];
      assert forall l | 0 <= l < |walk| - 1 :: Revises(rows[walk[l]], rows[walk[l + 1]]);
    }
  }

  lemma LinkBetweenRows(rows: seq<Row>, id: string) returns (i: nat, j: nat)
    requires id in LinksOf(rows)
    ensures i < |rows| && rows[i].assertionId == id
    ensures j < |rows| && rows[j].assertionId == LinksOf(rows)[id]
  {
    LinksJoinRows(rows, |rows|, id);
    i :| 0 <= i < |rows| && rows[i].assertionId == id;
    j :| 0 <= j < |rows| && rows[j].assertionId == LinksOf(rows)[id];
  }

  lemma CircleIsCycle(rows: seq<Row>, i: nat)
    requires DistinctIds(rows) && i < |rows|
    ensures OnCircle(rows, i) <==> OnCycle(LinksOf(rows), rows[i].assertionId)
  {
    hide LinksOf, RevisionWalk;
    if OnCircle(rows, i) {
      var walk :| RevisionWalk(rows, walk) && |walk| > 1 && walk[0] == walk[|walk| - 1] == i;
      WalkFollowsLinks(rows, walk, |walk| - 1);
    }
    if OnCycle(LinksOf(rows), rows[i].assertionId) {
      var k: nat :| k > 0 && Follow(LinksOf(rows), rows[i].assertionId, k) == Some(rows[i].assertionId);
      var walk := LinksMakeAWalk(rows, i, k);
      WalkEndsAtARow(rows, walk);
    }
  }

  lemma WalkEndsAtARow(rows: seq<Row>, walk: seq<nat>)
    requires RevisionWalk(rows, walk)
    ensures walk[0] < |rows| && walk[|walk| - 1] < |rows|
  {
  }

  /** The rows that revise row `j`, leaving out circles. */
  ghost function RevisionsOf(rows: seq<Row>, j: nat): set<nat>
    requires j < |rows|
  {
    set i | 0 <= i < |rows| && Revises(rows[i], rows[j]) && !OnCircle(rows, i) && !OnCircle(rows, j)
  }

  /** The current view, row by row: a row is hidden exactly when another row revises it and neither of the
      two lies on a circle of revisions. */
  lemma HiddenIffRevised(rows: seq<Row>, j: nat)
    requires DistinctIds(rows) && j < |rows|
    ensures rows[j] !in Visible(LinksOf(rows), rows) <==> RevisionsOf(rows, j) != {}
  {
    hide LinksOf, OnCycle, OnCircle, Revises;
    VisibleRows(LinksOf(rows), rows, rows[j]);
    SuccessorsAreRevisions(rows, j);
  }

  function IdsAt(rows: seq<Row>, at: set<nat>): set<string>
    requires forall i | i in at :: i < |rows|
  {
    set i | i in at :: rows[i].assertionId
  }

  lemma {:induction false} AsManyIds(rows: seq<Row>, at: set<nat>)
    requires DistinctIds(rows) && forall i | i in at :: i < |rows|
    ensures |IdsAt(rows, at)| == |at|
  {
    if at != {} {
      var i :| i in at;
      AsManyIds(rows, at - {i});
      assert rows[i].assertionId !in IdsAt(rows, at - {i});
      assert IdsAt(rows, at) == IdsAt(rows, at - {i}) + {rows[i].assertionId};
    }
  }

  lemma SuccessorsAreRevisions(rows: seq<Row>, j: nat)
    requires DistinctIds(rows) && j < |rows|
    ensures Hidden(LinksOf(rows), rows[j].assertionId) <==> RevisionsOf(rows, j) != {}
    ensures |Successors(LinksOf(rows), rows[j].assertionId)| == |RevisionsOf(rows, j)|
  {
    hide LinksOf, OnCycle, OnCircle, Revises;
    var links, id := LinksOf(rows), rows[j].assertionId;
    CircleIsCycle(rows, j);
    forall i | 0 <= i < |rows|
      ensures i in RevisionsOf(rows, j) <==> rows[i].assertionId in Successors(links, id)
    {
      CircleIsCycle(rows, i);
      LinkIsRevision(rows, i, j);
    }
    forall next | next in Successors(links, id) ensures next in IdsAt(rows, RevisionsOf(rows, j)) {
      var i, _ := LinkBetweenRows(rows, next);
      assert i in RevisionsOf(rows, j);
    }
    assert Successors(links, id) == IdsAt(rows, RevisionsOf(rows, j));
    AsManyIds(rows, RevisionsOf(rows, j));
    HiddenHasSuccessors(links, id);
  }

  lemma HiddenHasSuccessors(links: Links, id: string)
    ensures Hidden(links, id) <==> |Successors(links, id)| > 0
  {
    hide OnCycle;
    if Hidden(links, id) {
      var next :| next in links && links[next] == id && !OnCycle(links, next) && !OnCycle(links, id);
      assert next in Successors(links, id);
    }
    if |Successors(links, id)| > 0 { var next := SomeSuccessor(links, id); }
  }

  /** The rows with more than one revision off every circle. */
  ghost function Forks(rows: seq<Row>): set<nat>
  {
    set j | 0 <= j < |rows| && |RevisionsOf(rows, j)| > 1
  }

  /** The branches that the view reports are the rows with more than one revision. */
  lemma BranchesAreForks(rows: seq<Row>)
    requires DistinctIds(rows)
    ensures |Branches(LinksOf(rows))| == |Forks(rows)|
  {
    hide LinksOf, RevisionsOf, Successors;
    var links := LinksOf(rows);
    forall j | 0 <= j < |rows| ensures |Successors(links, rows[j].assertionId)| == |RevisionsOf(rows, j)| {
      SuccessorsAreRevisions(rows, j);
    }
    forall id | id in Branches(links) ensures id in IdsAt(rows, Forks(rows)) {
      var next :| next in links && |Successors(links, links[next])| > 1 && links[next] == id;
      var _, j := LinkBetweenRows(rows, next);
      assert j in Forks(rows);
    }
    forall j | j in Forks(rows) ensures rows[j].assertionId in Branches(links) {
      var next := SomeSuccessor(links, rows[j].assertionId);
    }
    assert Branches(links) == IdsAt(rows, Forks(rows));
    AsManyIds(rows, Forks(rows));
  }

  lemma SomeSuccessor(links: Links, id: string) returns (next: string)
    requires |Successors(links, id)| > 0
    ensures next in links && links[next] == id && !OnCycle(links, next) && !OnCycle(links, id)
  {
    next :| next in Successors(links, id);
  }

  /** Even with repeated ids a row is hidden only by another row that revises the row of its id. */
  lemma HiddenRowIsRevised(rows: seq<Row>, r: Row)
    requires r in rows && r !in Visible(LinksOf(rows), rows)
    ensures exists next, previous ::
              next in rows && previous in rows && previous.assertionId == r.assertionId && Revises(next, previous)
  {
    VisibleRows(LinksOf(rows), rows, r);
    var id :| id in LinksOf(rows) && LinksOf(rows)[id] == r.assertionId;
    LinkComesFromARevision(rows, |rows|, id);
  }

  lemma {:induction false} LinkComesFromARevision(rows: seq<Row>, n: nat, id: string)
    requires n <= |rows| && id in LinksUpTo(rows, n)
    ensures exists next, previous :: next in rows && previous in rows && next.assertionId == id
                                     && previous.assertionId == LinksUpTo(rows, n)[id] && Revises(next, previous)
  {
    var next := rows[n - 1];
    ByIdFinds(rows, Referenced(next));
    var previous := ById(rows, Referenced(next));
    if previous.Some? && Supersedes(next, previous.value) && next.assertionId == id {
      assert Revises(next, previous.value);
    } else {
      LinkComesFromARevision(rows, n - 1, id);
    }
  }
}
