/** From trace lines to spans and their children (cmd/agentgo-trace/main.go). */
module TraceForest {
  import opened Options
  import opened Seqs
  import StableSort

  datatype Line = Line(
    event: string, span: string, parent: string, trace: string, run: string, session: string, at: int)

  datatype Node = Node(span: string, parent: string, trace: string, first: int, start: Option<int>) {
    function At(): int {
      if start.Some? then start.value else first
    }
  }

  type NodeMap = map<string, Node>

  /** A list of ids for an id: a node's children, or the spans below a missing parent. */
  type Links = map<string, seq<string>>

  predicate Starts(event: string) {
    event == "run_start" || event == "model_start" || event == "tool_start"
  }

  predicate Named(event: string) {
    || Starts(event) || event == "run_end" || event == "model_end" || event == "tool_end"
    || event == "segment_start" || event == "segment_end"
  }

  predicate TooFine(event: string) {
    event == "model_delta" || event == "model_wire" || event == "resource" || event == "permission" || event == "step"
  }

  predicate Counts(l: Line) {
    Named(l.event) || (!TooFine(l.event) && !(l.span == "" && l.run == ""))
  }

  /** Lines written before flows were traced share one node per run. */
  function Key(l: Line): (k: string)
    ensures k != ""
  {
    if l.span == "" then "run:" + l.run + ":" + l.session else l.span
  }

  function Touched(n: Node, l: Line): Node {
    n.(parent := if n.parent == "" then l.parent else n.parent,
       trace := if n.trace == "" then l.trace else n.trace,
       start := if Starts(l.event) then Some(l.at) else n.start)
  }

  function Added(nodes: NodeMap, l: Line): NodeMap {
    var k := Key(l);
    nodes[k := Touched(if k in nodes then nodes[k] else Node(l.span, l.parent, l.trace, l.at, None), l)]
  }

  function Nodes(lines: seq<Line>): NodeMap {
    if lines == [] then map[]
    else
      var l := lines[|lines| - 1];
      if Counts(l) then Added(Nodes(lines[..|lines| - 1]), l) else Nodes(lines[..|lines| - 1])
  }

  // ------------------------------------------------ what a node says

  function About(lines: seq<Line>, k: string): seq<Line> {
    if lines == [] then []
    else
      var l := lines[|lines| - 1];
      About(lines[..|lines| - 1], k) + if Counts(l) && Key(l) == k then [l] else []
  }

  /** The first parent any line gives, and the first trace; "" when none does. */
  function FirstParent(ls: seq<Line>): string {
    if ls == [] then "" else if ls[0].parent != "" then ls[0].parent else FirstParent(ls[1..])
  }

  function FirstTrace(ls: seq<Line>): string {
    if ls == [] then "" else if ls[0].trace != "" then ls[0].trace else FirstTrace(ls[1..])
  }

  /** When the last line that starts the span was written. */
  function LastStart(ls: seq<Line>): Option<int> {
    if ls == [] then None
    else if Starts(ls[|ls| - 1].event) then Some(ls[|ls| - 1].at)
    else LastStart(ls[..|ls| - 1])
  }

  function Summary(ls: seq<Line>): Node
    requires ls != []
  {
    Node(ls[0].span, FirstParent(ls), FirstTrace(ls), ls[0].at, LastStart(ls))
  }

  lemma {:induction false} FirstSnoc(ls: seq<Line>, l: Line)
    ensures FirstParent(ls + [l]) == if FirstParent(ls) == "" then l.parent else FirstParent(ls)
    ensures FirstTrace(ls + [l]) == if FirstTrace(ls) == "" then l.trace else FirstTrace(ls)
  {
    if ls == [] {
      assert (ls + [l])[1..] == [];
    } else {
      assert (ls + [l])[1..] == ls[1..] + [l];
      FirstSnoc(ls[1..], l);
    }
  }

  lemma SummarySnoc(ls: seq<Line>, l: Line)
    ensures Summary(ls + [l]) ==
      Touched(if ls == [] then Node(l.span, l.parent, l.trace, l.at, None) else Summary(ls), l)
  {
    FirstSnoc(ls, l);
    assert (ls + [l])[..|ls|] == ls;
    assert ls == [] ==> ls + [l] == [l] && LastStart(ls) == None;
  }

  /** There is a node for exactly the keys some counted line has; it takes its span and
      first time from the first of those lines, its start from the last that starts it,
      and its parent and trace from the first that give one. */
  lemma {:induction false} NodeOfItsLines(lines: seq<Line>, k: string)
    ensures k in Nodes(lines) <==> About(lines, k) != []
    ensures k in Nodes(lines) ==> Nodes(lines)[k] == Summary(About(lines, k))
  {
    hide Summary, Touched, Counts, Key;
    if lines != [] {
      var front, l := lines[..|lines| - 1], lines[|lines| - 1];
      NodeOfItsLines(front, k);
      SummarySnoc(About(front, k), l);
      assert About(front, k) + [] == About(front, k);
    }
  }

  /** The line is counted and is about the span k, or, with no span, about the legacy run k. */
  predicate IsAbout(l: Line, k: string) {
    && k == (if l.span != "" then l.span else "run:" + l.run + ":" + l.session)
    && (|| l.event in {"run_start", "run_end", "model_start", "model_end", "tool_start", "tool_end"}
        || l.event in {"segment_start", "segment_end"}
        || (&& l.event !in {"model_delta", "model_wire", "resource", "permission", "step"}
            && (l.span != "" || l.run != "")))
  }

  lemma IsAboutMeans(l: Line, k: string)
    ensures IsAbout(l, k) <==> Counts(l) && Key(l) == k
  {
  }

  /** `given` is what the first line about k that gives anything gives, or "". */
  ghost predicate FirstGiven(lines: seq<Line>, k: string, field: Line -> string, given: string) {
    && (given == "" ==> forall i :: 0 <= i < |lines| && IsAbout(lines[i], k) ==> field(lines[i]) == "")
    && (given != "" ==>
         exists i :: 0 <= i < |lines| && IsAbout(lines[i], k) && field(lines[i]) == given
                     && forall j :: 0 <= j < i && IsAbout(lines[j], k) ==> field(lines[j]) == "")
  }

  ghost predicate FirstSeen(lines: seq<Line>, k: string, span: string, at: int) {
    exists i :: 0 <= i < |lines| && IsAbout(lines[i], k) && lines[i].span == span && lines[i].at == at
                && forall j :: 0 <= j < i ==> !IsAbout(lines[j], k)
  }

  ghost predicate LastStarted(lines: seq<Line>, k: string, start: Option<int>) {
    && (start.None? ==>
         forall i :: 0 <= i < |lines| && IsAbout(lines[i], k) ==>
           lines[i].event !in {"run_start", "model_start", "tool_start"})
    && (start.Some? ==>
         exists i :: 0 <= i < |lines| && IsAbout(lines[i], k) && lines[i].at == start.value
                     && lines[i].event in {"run_start", "model_start", "tool_start"}
                     && forall j :: i < j < |lines| && IsAbout(lines[j], k) ==>
                          lines[j].event !in {"run_start", "model_start", "tool_start"})
  }

  /** The same said of the file itself: which lines make a node, and which of them its
      span, times, parent and trace come from. */
  lemma {:induction false} NodeMeaning(lines: seq<Line>, k: string)
    ensures k in Nodes(lines) <==> exists i :: 0 <= i < |lines| && IsAbout(lines[i], k)
    ensures k in Nodes(lines) ==>
      var n := Nodes(lines)[k];
      && FirstSeen(lines, k, n.span, n.first)
      && FirstGiven(lines, k, (l: Line) => l.parent, n.parent)
      && FirstGiven(lines, k, (l: Line) => l.trace, n.trace)
      && LastStarted(lines, k, n.start)
  {
    hide Counts, Key, IsAbout, FirstSeen, FirstGiven, LastStarted;
    if lines != [] {
      var front, l := lines[..|lines| - 1], lines[|lines| - 1];
      assert lines == front + [l];
      NodeMeaning(front, k);
      IsAboutMeans(l, k);
      OneMoreLine(front, l, k);
      var parent, trace := (x: Line) => x.parent, (x: Line) => x.trace;
      if k in Nodes(front) {
        var n := Nodes(front)[k];
        OneMoreSeen(front, l, k, n.span, n.first);
        OneMoreGiven(front, l, k, parent, n.parent);
        OneMoreGiven(front, l, k, trace, n.trace);
        OneMoreStart(front, l, k, n.start);
      } else {
        NoLineYet(front, k, parent);
        NoLineYet(front, k, trace);
        OneMoreGiven(front, l, k, parent, "");
        OneMoreGiven(front, l, k, trace, "");
        OneMoreStart(front, l, k, None);
      }
    }
  }

  lemma OneMoreLine(front: seq<Line>, l: Line, k: string)
    ensures var lines := front + [l];
      && ((exists i :: 0 <= i < |lines| && IsAbout(lines[i], k)) <==>
           (exists i :: 0 <= i < |front| && IsAbout(front[i], k)) || IsAbout(l, k))
      && (IsAbout(l, k) && (forall i :: 0 <= i < |front| ==> !IsAbout(front[i], k)) ==>
           FirstSeen(lines, k, l.span, l.at))
  {
    hide IsAbout;
    var lines := front + [l];
    assert lines[|front|] == l && forall i :: 0 <= i < |front| ==> lines[i] == front[i];
  }

  lemma OneMoreSeen(front: seq<Line>, l: Line, k: string, span: string, at: int)
    requires FirstSeen(front, k, span, at)
    ensures FirstSeen(front + [l], k, span, at)
  {
    hide IsAbout;
    var lines := front + [l];
    assert forall i :: 0 <= i < |front| ==> lines[i] == front[i];
  }

  lemma OneMoreGiven(front: seq<Line>, l: Line, k: string, field: Line -> string, given: string)
    requires FirstGiven(front, k, field, given)
    ensures FirstGiven(front + [l], k, field, if given == "" && IsAbout(l, k) then field(l) else given)
  {
    hide IsAbout;
    var lines := front + [l];
    assert lines[|front|] == l && forall i :: 0 <= i < |front| ==> lines[i] == front[i];
  }

  lemma OneMoreStart(front: seq<Line>, l: Line, k: string, start: Option<int>)
    requires LastStarted(front, k, start)
    ensures LastStarted(front + [l], k, if IsAbout(l, k) && Starts(l.event) then Some(l.at) else start)
  {
    hide IsAbout;
    var lines := front + [l];
    assert lines[|front|] == l && forall i :: 0 <= i < |front| ==> lines[i] == front[i];
  }

  lemma NoLineYet(front: seq<Line>, k: string, field: Line -> string)
    requires forall i :: 0 <= i < |front| ==> !IsAbout(front[i], k)
    ensures FirstGiven(front, k, field, "") && LastStarted(front, k, None)
  {
  }

  lemma {:induction false} ParentIsGiven(ls: seq<Line>)
    ensures FirstParent(ls) == "" || exists l :: l in ls && l.parent == FirstParent(ls)
  {
    if ls != [] {
      ParentIsGiven(ls[1..]);
      assert ls[0] in ls && forall l :: l in ls[1..] ==> l in ls;
    }
  }

  /** An id as the tracer writes them: never the key of a legacy run. */
  predicate PlainId(id: string) {
    !("run:" <= id)
  }

  /** What the forest is indexed by: a node that can be found as a parent is found under
      its own span. */
  ghost predicate Keyed(nodes: NodeMap) {
    && "" !in nodes
    && (forall k :: k in nodes && nodes[k].span != "" ==> nodes[k].span == k)
    && (forall k :: k in nodes && nodes[k].parent in nodes ==> nodes[nodes[k].parent].span == nodes[k].parent)
  }

  lemma {:induction false} AboutHasKey(lines: seq<Line>, k: string)
    ensures forall l :: l in About(lines, k) ==> l in lines && Key(l) == k
    ensures k == "" ==> About(lines, k) == []
  {
    if lines != [] {
      AboutHasKey(lines[..|lines| - 1], k);
    }
  }

  lemma PlainIdsKeyTheForest(lines: seq<Line>)
    requires forall l :: l in lines ==> PlainId(l.span) && PlainId(l.parent)
    ensures Keyed(Nodes(lines))
  {
    hide *;
    forall k ensures k in Nodes(lines) ==> KeyedAt(k, Nodes(lines)[k]) {
      PlainNode(lines, k);
    }
    KeyedEverywhere(Nodes(lines));
  }

  /** A node stands under its span, or under the key of a legacy run, and its parent is
      no such key. */
  predicate KeyedAt(k: string, n: Node) {
    k != "" && PlainId(n.parent) && (if n.span == "" then !PlainId(k) else n.span == k)
  }

  lemma KeyedEverywhere(nodes: NodeMap)
    requires forall k :: k in nodes ==> KeyedAt(k, nodes[k])
    ensures Keyed(nodes)
  {
  }

  lemma PlainNode(lines: seq<Line>, k: string)
    requires forall l :: l in lines ==> PlainId(l.span) && PlainId(l.parent)
    ensures k in Nodes(lines) ==> KeyedAt(k, Nodes(lines)[k])
  {
    hide Nodes, About, FirstParent, FirstTrace, LastStart;
    NodeOfItsLines(lines, k);
    AboutHasKey(lines, k);
    var ls := About(lines, k);
    if ls != [] {
      ParentIsGiven(ls);
      assert ls[0] in ls;
      assert "run:" <= "run:" + ls[0].run + ":" + ls[0].session;
    }
  }

  // ------------------------------------------------ children

  /** Ranks ids by the time of their node. */
  function Time(nodes: NodeMap): string -> int {
    (k: string) => if k in nodes then nodes[k].At() else 0
  }

  /** Every node's children, each once, in the order of their times. */
  ghost predicate Kids(nodes: NodeMap, children: Links) {
    && children.Keys == nodes.Keys
    && (forall k :: k in nodes ==> Distinct(children[k]) && StableSort.Ordered(children[k], Time(nodes)))
    && (forall k, c :: k in nodes ==> (c in children[k] <==> c in nodes && nodes[c].parent == k))
  }

  /** A node's time is that of its start, and of its first line while no start is known. */
  lemma KidsInTime(nodes: NodeMap, children: Links, k: string, i: nat, j: nat)
    requires Kids(nodes, children) && k in nodes && i < j < |children[k]|
    ensures children[k][i] in nodes && children[k][j] in nodes
    ensures var a, b := nodes[children[k][i]], nodes[children[k][j]];
      (if a.start.Some? then a.start.value else a.first) <= (if b.start.Some? then b.start.value else b.first)
  {
    hide Distinct;
    var cs, time := children[k], Time(nodes);
    assert cs[i] in cs && cs[j] in cs;
    assert time(cs[i]) <= time(cs[j]);
  }

  class Flows {
    var nodes: NodeMap
    var children: Links

    constructor (lines: seq<Line>)
      ensures nodes == Nodes(lines) && Kids(nodes, children)
    {
      nodes, children := map[], map[];
      new;
      hide Kids, Linked, Added, Counts, About;
      var i := 0;
      while i < |lines|
        invariant i <= |lines| && nodes == Nodes(lines[..i]) && children == map[]
      {
        assert lines[..i + 1][..i] == lines[..i];
        if Counts(lines[i]) {
          nodes := Added(nodes, lines[i]);
        }
        i := i + 1;
      }
      assert lines[..|lines|] == lines;
      NodeOfItsLines(lines, "");
      NoEmptyKey(lines);
      LinkChildren();
      SortChildren();
    }

    /** Each node is appended to its parent's children, in whatever order they come. */
    method LinkChildren()
      requires "" !in nodes && children == map[]
      modifies this`children
      ensures Linked(nodes, children)
    {
      hide LinkedExcept;
      var rest := nodes.Keys;
      children := map k | k in nodes :: [];
      LinkNone(nodes, children);
      while rest != {}
        invariant rest <= nodes.Keys && LinkedExcept(nodes, children, rest)
        decreases |rest|
      {
        var n :| n in rest;
        var p := nodes[n].parent;
        LinkOne(nodes, children, rest, n);
        if p != "" && p in nodes {
          children := children[p := children[p] + [n]];
        }
        rest := rest - {n};
      }
    }

    method SortChildren()
      requires Linked(nodes, children)
      modifies this`children
      ensures Kids(nodes, children)
    {
      hide Linked, Kids, SortedExcept;
      ghost var linked := children;
      SortNone(nodes, linked);
      var rest := nodes.Keys;
      while rest != {}
        invariant rest <= nodes.Keys && SortedExcept(nodes, linked, children, rest)
        decreases |rest|
      {
        var n :| n in rest;
        SortOne(nodes, linked, children, rest, n);
        children := children[n := StableSort.Sort(children[n], Time(nodes))];
        rest := rest - {n};
      }
      SortedAll(nodes, linked, children);
    }
  }

  ghost predicate LinkedExcept(nodes: NodeMap, children: Links, rest: set<string>) {
    && children.Keys == nodes.Keys
    && (forall k :: k in nodes ==> Distinct(children[k]))
    && (forall k, c :: k in nodes ==> (c in children[k] <==> c in nodes && c !in rest && nodes[c].parent == k))
  }

  ghost predicate Linked(nodes: NodeMap, children: Links) {
    LinkedExcept(nodes, children, {})
  }

  ghost predicate SortedExcept(nodes: NodeMap, linked: Links, children: Links, rest: set<string>) {
    && children.Keys == nodes.Keys == linked.Keys
    && (forall k :: k in nodes ==>
          children[k] == if k in rest then linked[k] else StableSort.Sort(linked[k], Time(nodes)))
  }

  lemma LinkOne(nodes: NodeMap, children: Links, rest: set<string>, n: string)
    requires "" !in nodes && n in rest && rest <= nodes.Keys && LinkedExcept(nodes, children, rest)
    ensures children.Keys == nodes.Keys
    ensures var p := nodes[n].parent;
      LinkedExcept(nodes, if p in nodes then children[p := children[p] + [n]] else children, rest - {n})
  {
  }

  lemma LinkNone(nodes: NodeMap, children: Links)
    requires children == map k | k in nodes :: []
    ensures LinkedExcept(nodes, children, nodes.Keys)
  {
  }

  lemma SortNone(nodes: NodeMap, linked: Links)
    requires Linked(nodes, linked)
    ensures SortedExcept(nodes, linked, linked, nodes.Keys)
  {
  }

  lemma SortOne(nodes: NodeMap, linked: Links, children: Links, rest: set<string>, n: string)
    requires n in rest && rest <= nodes.Keys && SortedExcept(nodes, linked, children, rest)
    ensures n in children
    ensures SortedExcept(nodes, linked, children[n := StableSort.Sort(children[n], Time(nodes))], rest - {n})
  {
  }

  lemma SortedAll(nodes: NodeMap, linked: Links, children: Links)
    requires Linked(nodes, linked) && SortedExcept(nodes, linked, children, {})
    ensures Kids(nodes, children)
  {
    hide StableSort.Sort, StableSort.Ordered;
    forall k | k in nodes ensures Distinct(children[k]) && StableSort.Ordered(children[k], Time(nodes))
      && forall c :: c in children[k] <==> c in linked[k]
    {
      SortedKids(linked[k], Time(nodes));
    }
  }

  lemma NoEmptyKey(lines: seq<Line>)
    ensures "" !in Nodes(lines)
  {
    NodeOfItsLines(lines, "");
    AboutHasKey(lines, "");
  }

  lemma SortedKids(s: seq<string>, time: string -> int)
    requires Distinct(s)
    ensures var t := StableSort.Sort(s, time);
      Distinct(t) && StableSort.Ordered(t, time) && forall c :: c in t <==> c in s
  {
    var t := StableSort.Sort(s, time);
    StableSort.SortOrders(s, time);
    StableSort.SortKeeps(s, time);
    DistinctCounts(s);
    forall c ensures c in t <==> c in s {
      assert c in multiset(t) <==> c in multiset(s);
    }
    DistinctIfCounts(t);
  }

  lemma {:induction false} DistinctCounts(s: seq<string>)
    requires Distinct(s)
    ensures forall c :: multiset(s)[c] <= 1
  {
    if s != [] {
      DistinctCounts(s[..|s| - 1]);
      assert s == s[..|s| - 1] + [s[|s| - 1]];
      assert s[|s| - 1] !in s[..|s| - 1];
    }
  }

  lemma {:induction false} DistinctIfCounts(s: seq<string>)
    requires forall c :: multiset(s)[c] <= 1
    ensures Distinct(s)
  {
    if s != [] {
      var front, last := s[..|s| - 1], s[|s| - 1];
      assert s == front + [last];
      assert multiset(s) == multiset(front) + multiset{last};
      forall c ensures multiset(front)[c] <= 1 {
        assert multiset(s)[c] >= multiset(front)[c];
      }
      DistinctIfCounts(front);
      assert multiset(s)[last] == multiset(front)[last] + 1;
      assert last in front <==> last in multiset(front);
    }
  }
}
