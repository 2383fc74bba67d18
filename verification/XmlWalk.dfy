/** Walking an XML tree with an explicit stack, in document order, with a path for every element. */
module XmlWalk {
  import opened Outcomes

  datatype Attribute = Attribute(name: string, value: string)

  datatype Element = Element(tag: string, text: Option<string>, attributes: seq<Attribute>, tail: Option<string>,
                             children: seq<Element>)

  /** The `index`-th sibling of that name. */
  datatype Step = Step(name: string, index: nat)

  datatype Node = Node(element: Element, path: seq<Step>)

  datatype Record = Record(tag: string, text: Option<string>, attributes: seq<Attribute>, path: seq<Step>, tail: Option<string>)

  datatype Error = CapacityLimit | ColumnLimit | SizeLimit

  /** What a walk yields before it ends or fails. */
  datatype Outcome = Outcome(records: seq<Record>, error: Option<Error>)

  const MaxDepth := 64
  const MaxName := 512
  const MaxText := 1000000

  function RecordOf(n: Node): Record
  {
    Record(n.element.tag, n.element.text, n.element.attributes, n.path, n.element.tail)
  }

  function LengthOf(s: Option<string>): nat
  {
    if s.Some? then |s.value| else 0
  }

  function ValueLengths(attributes: seq<Attribute>): nat
  {
    if attributes == [] then 0 else |attributes[0].value| + ValueLengths(attributes[1..])
  }

  function Refusal(n: Node): Option<Error>
  {
    if |n.path| > MaxDepth then Some(CapacityLimit)
    else if |n.element.tag| > MaxName || exists i | 0 <= i < |n.element.attributes| :: |n.element.attributes[i].name| > MaxName then
      Some(ColumnLimit)
    else if LengthOf(n.element.text) + LengthOf(n.element.tail) + ValueLengths(n.element.attributes) > MaxText then Some(SizeLimit)
    else None
  }

  // --- The recursive order ----------------------------------------------------------------------------------

  /** How many of the first `n` elements have the tag. */
  function Count(es: seq<Element>, tag: string, n: nat): nat
    requires n <= |es|
  {
    if n == 0 then 0 else Count(es, tag, n - 1) + (if es[n - 1].tag == tag then 1 else 0)
  }

  function StepTo(e: Element, i: nat): Step
    requires i < |e.children|
  {
    Step(e.children[i].tag, Count(e.children, e.children[i].tag, i) + 1)
  }

  function Child(n: Node, i: nat): Node
    requires i < |n.element.children|
  {
    Node(n.element.children[i], n.path + [StepTo(n.element, i)])
  }

  /** An element, then its children's subtrees in document order. */
  function Preorder(e: Element, path: seq<Step>): seq<Node>
    decreases e, |e.children| + 1
  {
    [Node(e, path)] + PreorderFrom(e, path, 0)
  }

  function PreorderFrom(e: Element, path: seq<Step>, i: nat): seq<Node>
    requires i <= |e.children|
    decreases e, |e.children| - i
  {
    if i == |e.children| then []
    else Preorder(e.children[i], path + [StepTo(e, i)]) + PreorderFrom(e, path, i + 1)
  }

  /** The records of the nodes up to the first that is refused. */
  function Visited(ns: seq<Node>): Outcome
  {
    if ns == [] then Outcome([], None)
    else if Refusal(ns[0]).Some? then Outcome([], Refusal(ns[0]))
    else
      var rest := Visited(ns[1..]);
      Outcome([RecordOf(ns[0])] + rest.records, rest.error)
  }

  function Root(e: Element): seq<Step>
  {
    [Step(e.tag, 1)]
  }

  // --- The stack --------------------------------------------------------------------------------------------

  /** What a stack still has to visit; its top is its last node. */
  function Pending(stack: seq<Node>): seq<Node>
  {
    if stack == [] then []
    else
      var top := stack[|stack| - 1];
      Preorder(top.element, top.path) + Pending(stack[..|stack| - 1])
  }

  /** The children of a node from the `i`-th on, last first. */
  function Pushed(n: Node, i: nat): seq<Node>
    requires i <= |n.element.children|
    decreases |n.element.children| - i
  {
    if i == |n.element.children| then [] else Pushed(n, i + 1) + [Child(n, i)]
  }

  lemma {:induction false} PushedArePending(rest: seq<Node>, n: Node, i: nat)
    requires i <= |n.element.children|
    ensures Pending(rest + Pushed(n, i)) == PreorderFrom(n.element, n.path, i) + Pending(rest)
    decreases |n.element.children| - i
  {
    if i == |n.element.children| {
      assert rest + [] == rest;
    } else {
      hide Pending;
      PushedArePending(rest, n, i + 1);
      var child, more, later := Child(n, i), Pushed(n, i + 1), PreorderFrom(n.element, n.path, i + 1);
      assert PreorderFrom(n.element, n.path, i) == Preorder(child.element, child.path) + later;
      hide Preorder, PreorderFrom;
      PendingPush(rest + more, child);
      Associates(rest, more, [child]);
      Associates(Preorder(child.element, child.path), later, Pending(rest));
    }
  }

  lemma Associates(a: seq<Node>, b: seq<Node>, c: seq<Node>)
    ensures a + (b + c) == (a + b) + c
  {
  }

  lemma PendingPush(stack: seq<Node>, n: Node)
    ensures Pending(stack + [n]) == Preorder(n.element, n.path) + Pending(stack)
  {
    hide Preorder;
    assert (stack + [n])[..|stack|] == stack;
  }

  function Reversed(ns: seq<Node>): seq<Node>
  {
    seq(|ns|, i requires 0 <= i < |ns| => ns[|ns| - 1 - i])
  }

  lemma {:induction false} ReversedArePushed(n: Node, children: seq<Node>, i: nat)
    requires |children| == |n.element.children| && i <= |children|
    requires forall j | 0 <= j < |children| :: children[j] == Child(n, j)
    ensures Pushed(n, i) == Reversed(children[i..])
    decreases |children| - i
  {
    if i < |children| {
      ReversedArePushed(n, children, i + 1);
      assert Reversed(children[i..]) == Reversed(children[i + 1..]) + [children[i]];
    }
  }

  lemma VisitedNext(ns: seq<Node>, n: Node, rest: seq<Node>)
    requires ns == [n] + rest
    ensures Visited(ns) == if Refusal(n).Some? then Outcome([], Refusal(n))
                           else Outcome([RecordOf(n)] + Visited(rest).records, Visited(rest).error)
  {
  }

  /** The children of a node with their paths, in document order, counted by name. */
  method ChildNodes(n: Node) returns (children: seq<Node>)
    ensures |children| == |n.element.children|
    ensures forall j | 0 <= j < |children| :: children[j] == Child(n, j)
  {
    var counters: map<string, nat> := map[];
    children := [];
    for i := 0 to |n.element.children|
      invariant |children| == i
      invariant forall j | 0 <= j < i :: children[j] == Child(n, j)
      invariant forall tag :: (if tag in counters then counters[tag] else 0) == Count(n.element.children, tag, i)
    {
      var child := n.element.children[i];
      counters := counters[child.tag := (if child.tag in counters then counters[child.tag] else 0) + 1];
      children := children + [Node(child, n.path + [Step(child.tag, counters[child.tag])])];
    }
  }

  /** The explicit-stack walk terminates and yields exactly the recursive preorder, up to the first element
      that exceeds a limit. */
  method XmlContent(root: Element) returns (outcome: Outcome)
    ensures outcome == Visited(Preorder(root, Root(root)))
  {
    var records: seq<Record> := [];
    var stack := [Node(root, Root(root))];
    assert Pending(stack) == Preorder(root, Root(root)) by {
      assert stack[..0] == [];
      assert Preorder(root, Root(root)) + [] == Preorder(root, Root(root));
    }
    while stack != []
      invariant Visited(Preorder(root, Root(root)))
             == Outcome(records + Visited(Pending(stack)).records, Visited(Pending(stack)).error)
      decreases |Pending(stack)|
    {
      var n := stack[|stack| - 1];
      var rest := stack[..|stack| - 1];
      var after := PreorderFrom(n.element, n.path, 0) + Pending(rest);
      assert Pending(stack) == [n] + after;
      VisitedNext(Pending(stack), n, after);
      var refusal := Refusal(n);
      if refusal.Some? {
        return Outcome(records, refusal);
      }
      records := records + [RecordOf(n)];
      var children := ChildNodes(n);
      ReversedArePushed(n, children, 0);
      assert children[0..] == children;
      PushedArePending(rest, n, 0);
      stack := rest + Reversed(children);
    }
    outcome := Outcome(records, None);
  }

  // --- Paths are addresses -------------------------------------------------------------------------------------

  lemma {:induction false} CountGrows(es: seq<Element>, tag: string, m: nat, n: nat)
    requires m <= n <= |es|
    ensures Count(es, tag, m) <= Count(es, tag, n)
    decreases n
  {
    if m < n { CountGrows(es, tag, m, n - 1); }
  }

  /** Siblings have different steps. */
  lemma StepsDiffer(e: Element, i: nat, j: nat)
    requires i < j < |e.children|
    ensures StepTo(e, i) != StepTo(e, j)
  {
    CountGrows(e.children, e.children[i].tag, i + 1, j);
  }

  /** The child that a step leads to, searching from the `i`-th on. */
  function Find(e: Element, step: Step, i: nat): (r: Option<nat>)
    requires i <= |e.children|
    ensures r.Some? ==> i <= r.value < |e.children| && StepTo(e, r.value) == step
    decreases |e.children| - i
  {
    if i == |e.children| then None else if StepTo(e, i) == step then Some(i) else Find(e, step, i + 1)
  }

  /** The element that a path leads to from `e`. */
  function Resolve(e: Element, path: seq<Step>): Option<Element>
    decreases |path|
  {
    if path == [] then Some(e)
    else
      var i := Find(e, path[0], 0);
      if i.None? then None else Resolve(e.children[i.value], path[1..])
  }

  lemma {:induction false} FindsStep(e: Element, i: nat, from: nat)
    requires from <= i < |e.children|
    ensures Find(e, StepTo(e, i), from) == Some(i)
    decreases i - from
  {
    if from < i {
      StepsDiffer(e, from, i);
      FindsStep(e, i, from + 1);
    }
  }

  lemma ResolveStep(e: Element, i: nat, more: seq<Step>)
    requires i < |e.children|
    ensures Resolve(e, [StepTo(e, i)] + more) == Resolve(e.children[i], more)
  {
    FindsStep(e, i, 0);
    assert ([StepTo(e, i)] + more)[1..] == more;
  }

  /** A node lies below `e` when its path extends that of `e` and the rest leads from `e` to its element. */
  ghost predicate Below(e: Element, path: seq<Step>, n: Node)
  {
    |path| <= |n.path| && n.path[..|path|] == path && Resolve(e, n.path[|path|..]) == Some(n.element)
  }

  lemma BelowChild(e: Element, path: seq<Step>, i: nat, n: Node)
    requires i < |e.children| && Below(e.children[i], path + [StepTo(e, i)], n)
    ensures Below(e, path, n) && |n.path| > |path| && n.path[|path|] == StepTo(e, i)
  {
    var more := n.path[|path| + 1..];
    assert n.path[..|path| + 1] == path + [StepTo(e, i)];
    assert n.path[|path|] == (n.path[..|path| + 1])[|path|];
    assert n.path[|path|..] == [StepTo(e, i)] + more;
    assert n.path[..|path|] == n.path[..|path| + 1][..|path|];
    ResolveStep(e, i, more);
  }

  lemma {:induction false} PreorderIsBelow(e: Element, path: seq<Step>, k: nat)
    requires k < |Preorder(e, path)|
    ensures Below(e, path, Preorder(e, path)[k])
    decreases e, |e.children| + 1
  {
    if k > 0 { var j := PreorderFromIsBelow(e, path, 0, k - 1); }
  }

  lemma {:induction false} PreorderFromIsBelow(e: Element, path: seq<Step>, i: nat, k: nat) returns (j: nat)
    requires i <= |e.children| && k < |PreorderFrom(e, path, i)|
    ensures i <= j < |e.children|
    ensures var n := PreorderFrom(e, path, i)[k];
            Below(e, path, n) && |n.path| > |path| && n.path[|path|] == StepTo(e, j)
    decreases e, |e.children| - i
  {
    var first := Preorder(e.children[i], path + [StepTo(e, i)]);
    if k < |first| {
      PreorderIsBelow(e.children[i], path + [StepTo(e, i)], k);
      BelowChild(e, path, i, first[k]);
      j := i;
    } else {
      j := PreorderFromIsBelow(e, path, i + 1, k - |first|);
    }
  }

  /** Every path of the walk leads back to its own element. */
  lemma PathsResolve(root: Element, k: nat)
    requires k < |Preorder(root, Root(root))|
    ensures var n := Preorder(root, Root(root))[k];
            |n.path| >= 1 && n.path[..1] == Root(root) && Resolve(root, n.path[1..]) == Some(n.element)
  {
    PreorderIsBelow(root, Root(root), k);
  }

  lemma {:induction false} PathsDiffer(e: Element, path: seq<Step>, k: nat, l: nat)
    requires k < l < |Preorder(e, path)|
    ensures Preorder(e, path)[k].path != Preorder(e, path)[l].path
    decreases e, |e.children| + 1
  {
    if k == 0 {
      var j := PreorderFromIsBelow(e, path, 0, l - 1);
    } else {
      PathsFromDiffer(e, path, 0, k - 1, l - 1);
    }
  }

  lemma {:induction false} PathsFromDiffer(e: Element, path: seq<Step>, i: nat, k: nat, l: nat)
    requires i <= |e.children| && k < l < |PreorderFrom(e, path, i)|
    ensures PreorderFrom(e, path, i)[k].path != PreorderFrom(e, path, i)[l].path
    decreases e, |e.children| - i
  {
    var first := Preorder(e.children[i], path + [StepTo(e, i)]);
    if l < |first| {
      PathsDiffer(e.children[i], path + [StepTo(e, i)], k, l);
    } else if k >= |first| {
      PathsFromDiffer(e, path, i + 1, k - |first|, l - |first|);
    } else {
      PreorderIsBelow(e.children[i], path + [StepTo(e, i)], k);
      BelowChild(e, path, i, first[k]);
      var j := PreorderFromIsBelow(e, path, i + 1, l - |first|);
      StepsDiffer(e, i, j);
    }
  }

  lemma {:induction false} VisitedRecords(ns: seq<Node>, k: nat)
    requires k < |Visited(ns).records|
    ensures k < |ns| && Visited(ns).records[k] == RecordOf(ns[k]) && Refusal(ns[k]).None?
  {
    if k > 0 { VisitedRecords(ns[1..], k - 1); }
  }

  lemma {:induction false} VisitedAll(ns: seq<Node>)
    ensures var n := |Visited(ns).records|;
      n <= |ns| && (Visited(ns).error.None? <==> n == |ns|)
      && (Visited(ns).error.Some? ==> Visited(ns).error == Refusal(ns[n]))
  {
    if ns != [] && Refusal(ns[0]).None? { VisitedAll(ns[1..]); }
  }

  /** Emitted records have different paths, each leading to the element it describes; without an error
      every element is emitted. */
  lemma EmittedPathsAreAddresses(root: Element, k: nat, l: nat)
    requires var records := Visited(Preorder(root, Root(root))).records; k < l < |records|
    ensures var ns, records := Preorder(root, Root(root)), Visited(Preorder(root, Root(root))).records;
      records[k].path != records[l].path && l < |ns| && records[l] == RecordOf(ns[l]) && |ns[l].path| >= 1
      && Resolve(root, ns[l].path[1..]) == Some(ns[l].element)
    ensures var o := Visited(Preorder(root, Root(root)));
      o.error.None? <==> |o.records| == |Preorder(root, Root(root))|
  {
    var ns := Preorder(root, Root(root));
    VisitedRecords(ns, k);
    VisitedRecords(ns, l);
    VisitedAll(ns);
    PathsDiffer(root, Root(root), k, l);
    PathsResolve(root, l);
  }

  // --- What a record tells and where a walk stops -----------------------------------------------------------------

  /** An emitted record tells its own path and the tag, text, attributes and tail of the element there. */
  lemma EmittedRecordsTell(root: Element, k: nat)
    requires k < |Visited(Preorder(root, Root(root))).records|
    ensures var r := Visited(Preorder(root, Root(root))).records[k];
      && |r.path| >= 1 && r.path[0] == Step(root.tag, 1) && Resolve(root, r.path[1..]).Some?
      && var e := Resolve(root, r.path[1..]).value;
      && r.tag == e.tag && r.text == e.text && r.attributes == e.attributes && r.tail == e.tail
  {
    var ns := Preorder(root, Root(root));
    VisitedRecords(ns, k);
    PathsResolve(root, k);
    assert ns[k].path[..1][0] == ns[k].path[0];
  }

  /** The total length of the values of the first `n` attributes. */
  ghost function LengthUpTo(attributes: seq<Attribute>, n: nat): nat
    requires n <= |attributes|
  {
    if n == 0 then 0 else LengthUpTo(attributes, n - 1) + |attributes[n - 1].value|
  }

  lemma {:induction false} LengthFromFront(attributes: seq<Attribute>, n: nat)
    requires 0 < n <= |attributes|
    ensures LengthUpTo(attributes, n) == |attributes[0].value| + LengthUpTo(attributes[1..], n - 1)
  {
    if n > 1 {
      LengthFromFront(attributes, n - 1);
      assert attributes[1..][n - 2] == attributes[n - 1];
    }
  }

  lemma {:induction false} ValueLengthsAdd(attributes: seq<Attribute>)
    ensures ValueLengths(attributes) == LengthUpTo(attributes, |attributes|)
  {
    if attributes != [] {
      ValueLengthsAdd(attributes[1..]);
      LengthFromFront(attributes, |attributes|);
    }
  }

  ghost function TextLength(e: Element): nat
  {
    (if e.text.Some? then |e.text.value| else 0) + (if e.tail.Some? then |e.tail.value| else 0)
    + LengthUpTo(e.attributes, |e.attributes|)
  }

  ghost predicate NameTooLong(e: Element)
  {
    |e.tag| > 512 || exists a | a in e.attributes :: |a.name| > 512
  }

  lemma RefusalMeans(n: Node)
    ensures Refusal(n) == Some(CapacityLimit) <==> |n.path| > 64
    ensures Refusal(n) == Some(ColumnLimit) <==> |n.path| <= 64 && NameTooLong(n.element)
    ensures Refusal(n) == Some(SizeLimit) <==> |n.path| <= 64 && !NameTooLong(n.element) && TextLength(n.element) > 1000000
  {
    ValueLengthsAdd(n.element.attributes);
    if a :| a in n.element.attributes && |a.name| > 512 {
      var i :| 0 <= i < |n.element.attributes| && n.element.attributes[i] == a;
    }
  }

  /** A walk stops at the first element, in document order, that lies deeper than 64, has a name longer than
      512 or more than a million characters of text, and reports which; every element before it is within
      all limits. */
  lemma WalkStopsAt(root: Element, k: nat)
    requires k < |Preorder(root, Root(root))|
    ensures var ns, o := Preorder(root, Root(root)), Visited(Preorder(root, Root(root)));
      && (k < |o.records| ==> |ns[k].path| <= 64 && !NameTooLong(ns[k].element) && TextLength(ns[k].element) <= 1000000)
      && (k == |o.records| ==>
            && (o.error == Some(CapacityLimit) <==> |ns[k].path| > 64)
            && (o.error == Some(ColumnLimit) <==> |ns[k].path| <= 64 && NameTooLong(ns[k].element))
            && (o.error == Some(SizeLimit) <==>
                  |ns[k].path| <= 64 && !NameTooLong(ns[k].element) && TextLength(ns[k].element) > 1000000))
  {
    var ns := Preorder(root, Root(root));
    VisitedAll(ns);
    RefusalMeans(ns[k]);
    if k < |Visited(ns).records| { VisitedRecords(ns, k); }
    hide Preorder, Refusal, NameTooLong, TextLength, Visited;
  }
}
