/** Printing one trace as a forest (cmd/agentgo-trace/main.go, printFlow). Parent links
    come from files and may point anywhere, in circles included. */
module TraceFlow {
  import opened TraceForest
  import opened Options
  import opened Seqs
  import StableSort

  // ------------------------------------------------ parent links

  /** Each span but the first has the one before it as its parent. */
  ghost predicate Chain(nodes: NodeMap, p: seq<string>) {
    && p != []
    && (forall i :: 0 <= i < |p| ==> p[i] in nodes)
    && (forall i :: 0 < i < |p| ==> nodes[p[i]].parent == p[i - 1])
  }

  ghost predicate Loop(nodes: NodeMap, p: seq<string>) {
    Chain(nodes, p) && |p| > 1 && p[0] == p[|p| - 1]
  }

  ghost predicate OnCycle(nodes: NodeMap, s: string) {
    exists p :: Loop(nodes, p) && p[0] == s
  }

  lemma {:induction false} BackToTheStart(nodes: NodeMap, p: seq<string>, i: nat, j: nat)
    requires Chain(nodes, p) && i < j < |p| && p[i] == p[j]
    ensures Loop(nodes, p[..j - i + 1])
    decreases i
  {
    if i > 0 {
      BackToTheStart(nodes, p, i - 1, j - 1);
    }
  }

  lemma RepeatMeansCycle(nodes: NodeMap, p: seq<string>, i: nat, j: nat)
    requires Chain(nodes, p) && i < j < |p| && p[i] == p[j]
    ensures OnCycle(nodes, p[0])
  {
    BackToTheStart(nodes, p, i, j);
    assert p[..j - i + 1][0] == p[0];
  }

  lemma ChainDistinct(nodes: NodeMap, p: seq<string>)
    requires Chain(nodes, p) && !OnCycle(nodes, p[0])
    ensures Distinct(p) && |p| <= |nodes|
  {
    hide OnCycle;
    forall i, j | 0 <= i < j < |p| ensures p[i] != p[j] {
      if p[i] == p[j] {
        RepeatMeansCycle(nodes, p, i, j);
        assert false;
      }
    }
    DistinctFits(p, nodes.Keys);
  }

  lemma {:induction false} DistinctFits(p: seq<string>, keys: set<string>)
    requires Distinct(p) && forall k :: k in p ==> k in keys
    ensures |p| <= |keys|
  {
    if p != [] {
      var last := p[|p| - 1];
      assert last !in p[..|p| - 1];
      DistinctFits(p[..|p| - 1], keys - {last});
    }
  }

  /** Off the cycles there is one way down to a span. */
  lemma {:induction false} OneWayDown(nodes: NodeMap, p: seq<string>, q: seq<string>)
    requires Chain(nodes, p) && Chain(nodes, q) && p[0] == q[0] && p[|p| - 1] == q[|q| - 1]
    requires !OnCycle(nodes, p[0])
    ensures p == q
    decreases |p|
  {
    if |p| == 1 || |q| == 1 {
      assert |q| == 1 || Loop(nodes, q);
      assert |p| == 1 || Loop(nodes, p);
    } else {
      OneWayDown(nodes, p[..|p| - 1], q[..|q| - 1]);
      assert p == p[..|p| - 1] + [p[|p| - 1]] && q == q[..|q| - 1] + [q[|q| - 1]];
    }
  }

  // ------------------------------------------------ the walk

  /** `path` leads down to a span the walk has come to. */
  ghost predicate At(nodes: NodeMap, children: Links, path: seq<string>) {
    Kids(nodes, children) && Chain(nodes, path) && !OnCycle(nodes, path[0])
  }

  function Children(children: Links, path: seq<string>): seq<string> {
    if path != [] && path[|path| - 1] in children then children[path[|path| - 1]] else []
  }

  lemma Deeper(nodes: NodeMap, children: Links, path: seq<string>, c: string)
    requires At(nodes, children, path) && c in Children(children, path)
    ensures At(nodes, children, path + [c]) && |path| < |nodes|
  {
    KidOfLast(nodes, children, path, c);
    hide OnCycle, Kids, Children;
    assert (path + [c])[0] == path[0];
    ChainDistinct(nodes, path + [c]);
  }

  lemma KidOfLast(nodes: NodeMap, children: Links, path: seq<string>, c: string)
    requires Kids(nodes, children) && Chain(nodes, path)
    ensures c in Children(children, path) <==> c in nodes && nodes[c].parent == path[|path| - 1]
    ensures c in nodes && nodes[c].parent == path[|path| - 1] ==> Chain(nodes, path + [c])
    ensures Distinct(Children(children, path))
  {
    hide Kids;
    KidsOf(nodes, children, path[|path| - 1], c);
  }

  lemma KidsOf(nodes: NodeMap, children: Links, k: string, c: string)
    requires Kids(nodes, children) && k in nodes
    ensures k in children && Distinct(children[k])
    ensures c in children[k] <==> c in nodes && nodes[c].parent == k
  {
    hide Distinct, StableSort.Ordered;
  }

  /** What the walk prints from the last span of `path` down: itself, then each child's
      part in the children's order. */
  function Printed(nodes: NodeMap, children: Links, path: seq<string>): seq<string>
    requires At(nodes, children, path)
    decreases |nodes| - |path|, 1, 0
  {
    hide OnCycle, Kids, Children;
    ChainDistinct(nodes, path);
    [path[|path| - 1]] + PrintedBelow(nodes, children, path, Children(children, path))
  }

  function PrintedBelow(nodes: NodeMap, children: Links, path: seq<string>, cs: seq<string>): seq<string>
    requires At(nodes, children, path)
    requires forall c :: c in cs ==> c in Children(children, path)
    decreases |nodes| - |path|, 0, |cs|
  {
    hide At, Children;
    if cs == [] then []
    else
      Deeper(nodes, children, path, cs[|cs| - 1]);
      PrintedBelow(nodes, children, path, cs[..|cs| - 1]) + Printed(nodes, children, path + [cs[|cs| - 1]])
  }

  ghost predicate Below(nodes: NodeMap, path: seq<string>, k: string) {
    exists q :: Chain(nodes, q) && path <= q && q[|q| - 1] == k
  }

  ghost predicate BelowSome(nodes: NodeMap, path: seq<string>, cs: seq<string>, k: string) {
    exists c :: c in cs && Below(nodes, path + [c], k)
  }

  lemma BelowOrItself(nodes: NodeMap, children: Links, path: seq<string>, k: string)
    requires At(nodes, children, path)
    ensures Below(nodes, path, k) <==> k == path[|path| - 1] || BelowSome(nodes, path, Children(children, path), k)
  {
    hide OnCycle, Kids, Children;
    if k == path[|path| - 1] {
      assert path <= path;
    } else if Below(nodes, path, k) {
      var q :| Chain(nodes, q) && path <= q && q[|q| - 1] == k;
      var c := q[|path|];
      assert path + [c] <= q;
      KidOfLast(nodes, children, path, c);
      assert Below(nodes, path + [c], k);
    } else {
      SomeIsBelow(nodes, path, Children(children, path), k);
    }
  }

  lemma SomeIsBelow(nodes: NodeMap, path: seq<string>, cs: seq<string>, k: string)
    ensures BelowSome(nodes, path, cs, k) ==> Below(nodes, path, k)
  {
    if BelowSome(nodes, path, cs, k) {
      var c :| c in cs && Below(nodes, path + [c], k);
      var q :| Chain(nodes, q) && path + [c] <= q && q[|q| - 1] == k;
      assert path <= path + [c];
    }
  }

  /** A span lies below one child only, and never below itself. */
  lemma OneBranch(nodes: NodeMap, path: seq<string>, c: string, d: string, k: string)
    requires Chain(nodes, path) && !OnCycle(nodes, path[0]) && Below(nodes, path + [c], k)
    ensures Below(nodes, path + [d], k) ==> c == d
    ensures k != path[|path| - 1]
  {
    hide OnCycle;
    var p :| Chain(nodes, p) && path + [c] <= p && p[|p| - 1] == k;
    assert p[0] == path[0] && p[|path|] == c by {
      assert p[0] == (path + [c])[0] && p[|path|] == (path + [c])[|path|];
    }
    if k == path[|path| - 1] {
      OneWayDown(nodes, p, path);
    }
    if Below(nodes, path + [d], k) {
      var q :| Chain(nodes, q) && path + [d] <= q && q[|q| - 1] == k;
      assert q[0] == (path + [d])[0] && q[|path|] == (path + [d])[|path|];
      OneWayDown(nodes, p, q);
    }
  }

  lemma DistinctConcat(a: seq<string>, b: seq<string>)
    requires Distinct(a) && Distinct(b) && forall k :: k in a ==> k !in b
    ensures Distinct(a + b)
  {
    forall i, j | 0 <= i < j < |a + b| ensures (a + b)[i] != (a + b)[j] {
      assert i < |a| <= j ==> a[i] in a && b[j - |a|] in b;
    }
  }

  /** The walk prints exactly what lies below where it starts, each span once. */
  lemma {:induction false} PrintsWhatIsBelow(nodes: NodeMap, children: Links, path: seq<string>)
    requires At(nodes, children, path)
    ensures forall k :: k in Printed(nodes, children, path) <==> Below(nodes, path, k)
    ensures Distinct(Printed(nodes, children, path))
    decreases |nodes| - |path|, 1, 0
  {
    hide OnCycle, Kids, Children, PrintedBelow, Below, BelowSome;
    var cs := Children(children, path);
    KidOfLast(nodes, children, path, path[0]);
    PrintsBelowAll(nodes, children, path, cs);
    forall k ensures k == path[|path| - 1] || BelowSome(nodes, path, cs, k) <==> Below(nodes, path, k) {
      BelowOrItself(nodes, children, path, k);
    }
    NotBelowItself(nodes, path, cs);
    DistinctConcat([path[|path| - 1]], PrintedBelow(nodes, children, path, cs));
  }

  lemma NotBelowItself(nodes: NodeMap, path: seq<string>, cs: seq<string>)
    requires Chain(nodes, path) && !OnCycle(nodes, path[0])
    ensures !BelowSome(nodes, path, cs, path[|path| - 1])
  {
    hide OnCycle, Below;
    if BelowSome(nodes, path, cs, path[|path| - 1]) {
      var c :| c in cs && Below(nodes, path + [c], path[|path| - 1]);
      OneBranch(nodes, path, c, c, path[|path| - 1]);
    }
  }

  lemma {:induction false} PrintsBelowAll(nodes: NodeMap, children: Links, path: seq<string>, cs: seq<string>)
    requires At(nodes, children, path) && Distinct(cs)
    requires forall c :: c in cs ==> c in Children(children, path)
    ensures forall k :: k in PrintedBelow(nodes, children, path, cs) <==> BelowSome(nodes, path, cs, k)
    ensures Distinct(PrintedBelow(nodes, children, path, cs))
    decreases |nodes| - |path|, 0, |cs|
  {
    hide At, Children, Printed, Below;
    if cs != [] {
      var front, last := cs[..|cs| - 1], cs[|cs| - 1];
      assert cs == front + [last];
      PrintsBelowAll(nodes, children, path, front);
      Deeper(nodes, children, path, last);
      PrintsWhatIsBelow(nodes, children, path + [last]);
      forall k | k in PrintedBelow(nodes, children, path, front) ensures k !in Printed(nodes, children, path + [last]) {
        LastApart(nodes, children, path, front, last, k);
      }
      DistinctConcat(PrintedBelow(nodes, children, path, front), Printed(nodes, children, path + [last]));
    }
  }

  lemma LastApart(nodes: NodeMap, children: Links, path: seq<string>, front: seq<string>, last: string, k: string)
    requires At(nodes, children, path) && Distinct(front + [last]) && BelowSome(nodes, path, front, k)
    ensures !Below(nodes, path + [last], k)
  {
    hide Kids, Children, OnCycle, Below;
    var c :| c in front && Below(nodes, path + [c], k);
    var i :| 0 <= i < |front| && front[i] == c;
    assert (front + [last])[i] == c && (front + [last])[|front|] == last;
    OneBranch(nodes, path, c, last, k);
  }

  /** When the walk ends: from a span off the cycles no way down is longer than the
      number of spans; from one on a cycle it goes down for ever. */
  lemma WalkEndsIff(nodes: NodeMap, s: string)
    requires s in nodes
    ensures !OnCycle(nodes, s) <==> forall p :: Chain(nodes, p) && p[0] == s ==> |p| <= |nodes|
  {
    if !OnCycle(nodes, s) {
      forall p | Chain(nodes, p) && p[0] == s ensures |p| <= |nodes| {
        ChainDistinct(nodes, p);
      }
    } else {
      var q := EverDeeper(nodes, s, |nodes| + 1);
    }
  }

  lemma {:induction false} EverDeeper(nodes: NodeMap, s: string, n: nat) returns (p: seq<string>)
    requires s in nodes && OnCycle(nodes, s)
    ensures Chain(nodes, p) && p[0] == s && |p| >= n
  {
    if n <= 1 {
      p := [s];
    } else {
      var rest := EverDeeper(nodes, s, n - 1);
      var lap :| Loop(nodes, lap) && lap[0] == s;
      p := lap + rest[1..];
      assert forall i :: |lap| <= i < |p| ==> p[i] == rest[i - |lap| + 1];
    }
  }

  // ------------------------------------------------ the order of the print

  lemma BeforeWithin(a: seq<string>, s: seq<string>, b: seq<string>, x: string, y: string)
    requires StableSort.Before(s, x, y)
    ensures StableSort.Before(a + s + b, x, y)
  {
    var i, j :| 0 <= i < j < |s| && s[i] == x && s[j] == y;
    var all := a + s + b;
    assert all[|a| + i] == x && all[|a| + j] == y;
  }

  lemma BeforeAcross(a: seq<string>, b: seq<string>, x: string, y: string)
    requires x in a && y in b
    ensures StableSort.Before(a + b, x, y)
  {
    var i :| 0 <= i < |a| && a[i] == x;
    var j :| 0 <= j < |b| && b[j] == y;
    assert (a + b)[i] == x && (a + b)[|a| + j] == y;
  }

  /** What a child's part prints stands in the same order in the whole. */
  lemma {:induction false} PartKeepsBefore(nodes: NodeMap, children: Links, path: seq<string>, cs: seq<string>,
      c: string, x: string, y: string)
    requires At(nodes, children, path) && c in cs && forall d :: d in cs ==> d in Children(children, path)
    requires At(nodes, children, path + [c]) && StableSort.Before(Printed(nodes, children, path + [c]), x, y)
    ensures StableSort.Before(PrintedBelow(nodes, children, path, cs), x, y)
    decreases |cs|
  {
    hide At, Children, Printed, StableSort.Before;
    var front, last := cs[..|cs| - 1], cs[|cs| - 1];
    assert cs == front + [last];
    Deeper(nodes, children, path, last);
    var own, part := PrintedBelow(nodes, children, path, front), Printed(nodes, children, path + [last]);
    if c == last {
      BeforeWithin(own, part, [], x, y);
      assert own + part + [] == own + part;
    } else {
      PartKeepsBefore(nodes, children, path, front, c, x, y);
      BeforeWithin([], own, part, x, y);
      assert [] + own + part == own + part;
    }
  }

  /** All of one child's part stands before all of a later child's. */
  lemma {:induction false} PartsInOrder(nodes: NodeMap, children: Links, path: seq<string>, cs: seq<string>,
      c: string, d: string, x: string, y: string)
    requires At(nodes, children, path) && Distinct(cs) && forall e :: e in cs ==> e in Children(children, path)
    requires StableSort.Before(cs, c, d) && Below(nodes, path + [c], x) && Below(nodes, path + [d], y)
    ensures StableSort.Before(PrintedBelow(nodes, children, path, cs), x, y)
    decreases |cs|
  {
    hide At, Children, Printed, Below, PrintedBelow;
    var front, last := cs[..|cs| - 1], cs[|cs| - 1];
    assert cs == front + [last];
    Deeper(nodes, children, path, last);
    var own, part := PrintedBelow(nodes, children, path, front), Printed(nodes, children, path + [last]);
    assert PrintedBelow(nodes, children, path, cs) == own + part by {
      LastPart(nodes, children, path, cs);
    }
    var i, j :| 0 <= i < j < |cs| && cs[i] == c && cs[j] == d;
    assert front[i] == c;
    if j == |front| {
      PrintsBelowAll(nodes, children, path, front);
      PrintsWhatIsBelow(nodes, children, path + [last]);
      assert BelowSome(nodes, path, front, x);
      BeforeAcross(own, part, x, y);
    } else {
      assert front[j] == d;
      PartsInOrder(nodes, children, path, front, c, d, x, y);
      BeforeWithin([], own, part, x, y);
      assert [] + own + part == own + part;
    }
  }

  lemma LastPart(nodes: NodeMap, children: Links, path: seq<string>, cs: seq<string>)
    requires At(nodes, children, path) && cs != [] && forall c :: c in cs ==> c in Children(children, path)
    ensures At(nodes, children, path + [cs[|cs| - 1]])
    ensures PrintedBelow(nodes, children, path, cs)
         == PrintedBelow(nodes, children, path, cs[..|cs| - 1]) + Printed(nodes, children, path + [cs[|cs| - 1]])
  {
    hide At, Children, Printed;
    Deeper(nodes, children, path, cs[|cs| - 1]);
  }

  /** The first span below `path` on the way to a deeper one, and what is below it. */
  lemma NextDown(nodes: NodeMap, children: Links, path: seq<string>, q: seq<string>) returns (c: string)
    requires At(nodes, children, path) && Chain(nodes, q) && path <= q && |path| < |q|
    ensures c == q[|path|] && path + [c] <= q && c in Children(children, path)
    ensures At(nodes, children, path + [c])
  {
    hide OnCycle, Kids, Children;
    c := q[|path|];
    KidOfLast(nodes, children, path, c);
    assert (path + [c])[0] == path[0];
  }

  lemma PrintedParts(nodes: NodeMap, children: Links, path: seq<string>)
    requires At(nodes, children, path)
    ensures Printed(nodes, children, path)
         == [path[|path| - 1]] + PrintedBelow(nodes, children, path, Children(children, path))
  {
    hide At, Children, PrintedBelow;
  }

  /** Wherever the walk has come to, a span is printed before everything below it. */
  lemma {:induction false} PrintsDownwards(nodes: NodeMap, children: Links, path: seq<string>, q: seq<string>,
      r: seq<string>)
    requires At(nodes, children, path) && Chain(nodes, q) && Chain(nodes, r) && path <= q && q < r
    ensures StableSort.Before(Printed(nodes, children, path), q[|q| - 1], r[|r| - 1])
    decreases |q| - |path|
  {
    hide Kids, OnCycle, Children, Printed, PrintedBelow, StableSort.Before;
    var out, cs := Printed(nodes, children, path), Children(children, path);
    var c := NextDown(nodes, children, path, r);
    PrintedParts(nodes, children, path);
    if |q| == |path| {
      assert q == path;
      PrintsWhatIsBelow(nodes, children, path);
      OneBranchDown(nodes, path, r);
      BeforeAcross([path[|path| - 1]], PrintedBelow(nodes, children, path, cs), q[|q| - 1], r[|r| - 1]);
    } else {
      var d := NextDown(nodes, children, path, q);
      PrintsDownwards(nodes, children, path + [d], q, r);
      PartKeepsBefore(nodes, children, path, cs, d, q[|q| - 1], r[|r| - 1]);
      BeforeWithin([path[|path| - 1]], PrintedBelow(nodes, children, path, cs), [], q[|q| - 1], r[|r| - 1]);
      assert out + [] == out;
    }
  }

  lemma OneBranchDown(nodes: NodeMap, path: seq<string>, r: seq<string>)
    requires Chain(nodes, path) && !OnCycle(nodes, path[0]) && Chain(nodes, r) && path <= r && |path| < |r|
    ensures Below(nodes, path, r[|r| - 1]) && r[|r| - 1] != path[|path| - 1]
  {
    hide OnCycle;
    if r[|r| - 1] == path[|path| - 1] {
      OneWayDown(nodes, path, r);
    }
  }

  /** And everything below a child is printed before everything below a later child. */
  lemma {:induction false} PrintsSiblingsInOrder(nodes: NodeMap, children: Links, path: seq<string>, q: seq<string>,
      c: string, d: string, x: string, y: string)
    requires At(nodes, children, path) && Chain(nodes, q) && path <= q && q[|q| - 1] in children
    requires StableSort.Before(children[q[|q| - 1]], c, d) && Below(nodes, q + [c], x) && Below(nodes, q + [d], y)
    ensures StableSort.Before(Printed(nodes, children, path), x, y)
    decreases |q| - |path|
  {
    hide Kids, OnCycle, Children, Printed, PrintedBelow, StableSort.Before, Below;
    var cs := Children(children, path);
    PrintedParts(nodes, children, path);
    if |q| == |path| {
      assert q == path;
      AllKids(nodes, children, path);
      PartsInOrder(nodes, children, path, cs, c, d, x, y);
    } else {
      var e := NextDown(nodes, children, path, q);
      PrintsSiblingsInOrder(nodes, children, path + [e], q, c, d, x, y);
      PartKeepsBefore(nodes, children, path, cs, e, x, y);
    }
    var out := Printed(nodes, children, path);
    BeforeWithin([path[|path| - 1]], PrintedBelow(nodes, children, path, cs), [], x, y);
    assert out + [] == out;
  }

  lemma AllKids(nodes: NodeMap, children: Links, path: seq<string>)
    requires At(nodes, children, path) && path[|path| - 1] in children
    ensures Children(children, path) == children[path[|path| - 1]] && Distinct(Children(children, path))
  {
    hide OnCycle, Kids, Distinct;
    KidOfLast(nodes, children, path, path[0]);
  }

  // ------------------------------------------------ one trace

  /** --trace takes a whole trace id or at least 8 characters of its beginning. */
  predicate Matches(trace: string, id: string) {
    trace == id || (|id| >= 8 && id <= trace)
  }

  predicate Member(nodes: NodeMap, id: string, k: string) {
    k in nodes && Matches(nodes[k].trace, id)
  }

  function Spans(nodes: NodeMap, id: string): set<string> {
    set k | k in nodes && Member(nodes, id, k) :: nodes[k].span
  }

  /** Where the walk starts: a span without a parent, or whose parent is not printed. */
  predicate Start(nodes: NodeMap, id: string, k: string) {
    Member(nodes, id, k) && (nodes[k].parent == "" || nodes[k].parent !in Spans(nodes, id))
  }

  /** The spans of a list that name `p` as their parent. */
  function WithParent(nodes: NodeMap, ms: seq<string>, p: string): seq<string> {
    if ms == [] then []
    else
      var m := ms[|ms| - 1];
      WithParent(nodes, ms[..|ms| - 1], p) + if m in nodes && nodes[m].parent == p then [m] else []
  }

  lemma {:induction false} WithParentFacts(nodes: NodeMap, ms: seq<string>, p: string)
    ensures forall k :: k in WithParent(nodes, ms, p) <==> k in ms && k in nodes && nodes[k].parent == p
    ensures Distinct(ms) ==> Distinct(WithParent(nodes, ms, p))
  {
    if ms != [] {
      WithParentFacts(nodes, ms[..|ms| - 1], p);
      assert ms == ms[..|ms| - 1] + [ms[|ms| - 1]];
    }
  }

  ghost predicate Walkable(nodes: NodeMap, children: Links, starts: seq<string>) {
    Kids(nodes, children) && forall s :: s in starts ==> s in nodes && !OnCycle(nodes, s)
  }

  lemma StartsAt(nodes: NodeMap, children: Links, s: string)
    requires Kids(nodes, children) && s in nodes && !OnCycle(nodes, s)
    ensures At(nodes, children, [s])
  {
  }

  function PrintedFrom(nodes: NodeMap, children: Links, starts: seq<string>): seq<string>
    requires Walkable(nodes, children, starts)
  {
    hide OnCycle, Kids, At;
    if starts == [] then []
    else
      StartsAt(nodes, children, starts[|starts| - 1]);
      PrintedFrom(nodes, children, starts[..|starts| - 1]) + Printed(nodes, children, [starts[|starts| - 1]])
  }

  lemma {:induction false} PrintedFromBoth(nodes: NodeMap, children: Links, a: seq<string>, b: seq<string>)
    requires Walkable(nodes, children, a) && Walkable(nodes, children, b)
    ensures Walkable(nodes, children, a + b)
    ensures PrintedFrom(nodes, children, a + b) == PrintedFrom(nodes, children, a) + PrintedFrom(nodes, children, b)
  {
    hide OnCycle, Kids, At, Printed;
    if b == [] {
      assert a + b == a;
    } else {
      PrintedFromBoth(nodes, children, a, b[..|b| - 1]);
      assert (a + b)[..|a + b| - 1] == a + b[..|b| - 1];
    }
  }

  /** What one start prints keeps its order in the whole. */
  lemma {:induction false} TreeKeepsBefore(nodes: NodeMap, children: Links, starts: seq<string>, s: string,
      x: string, y: string)
    requires Walkable(nodes, children, starts) && s in starts && At(nodes, children, [s])
    requires StableSort.Before(Printed(nodes, children, [s]), x, y)
    ensures StableSort.Before(PrintedFrom(nodes, children, starts), x, y)
  {
    hide OnCycle, Kids, At, Printed, StableSort.Before;
    var front, last := starts[..|starts| - 1], starts[|starts| - 1];
    assert starts == front + [last];
    StartsAt(nodes, children, last);
    var own, part := PrintedFrom(nodes, children, front), Printed(nodes, children, [last]);
    if s == last {
      BeforeWithin(own, part, [], x, y);
      assert own + part + [] == own + part;
    } else {
      TreeKeepsBefore(nodes, children, front, s, x, y);
      BeforeWithin([], own, part, x, y);
      assert [] + own + part == own + part;
    }
  }

  /** Everything below one start is printed before everything below a later one. */
  lemma {:induction false} PrintsStartsInOrder(nodes: NodeMap, children: Links, starts: seq<string>, i: nat, j: nat,
      x: string, y: string)
    requires Walkable(nodes, children, starts) && i < j < |starts|
    requires Below(nodes, [starts[i]], x) && Below(nodes, [starts[j]], y)
    ensures StableSort.Before(PrintedFrom(nodes, children, starts), x, y)
  {
    hide OnCycle, Kids, At, Printed, StableSort.Before, Below;
    var front, last := starts[..|starts| - 1], starts[|starts| - 1];
    StartsAt(nodes, children, last);
    var own, part := PrintedFrom(nodes, children, front), Printed(nodes, children, [last]);
    if j < |front| {
      PrintsStartsInOrder(nodes, children, front, i, j, x, y);
      BeforeWithin([], own, part, x, y);
      assert [] + own + part == own + part;
    } else {
      assert starts[i] == front[i];
      TreePrinted(nodes, children, front, i, x);
      PrintsWhatIsBelow(nodes, children, [last]);
      BeforeAcross(own, part, x, y);
    }
  }

  lemma {:induction false} TreePrinted(nodes: NodeMap, children: Links, starts: seq<string>, i: nat, x: string)
    requires Walkable(nodes, children, starts) && i < |starts| && Below(nodes, [starts[i]], x)
    ensures x in PrintedFrom(nodes, children, starts)
  {
    hide OnCycle, Kids, At, Printed, Below;
    var front, last := starts[..|starts| - 1], starts[|starts| - 1];
    StartsAt(nodes, children, last);
    if i < |front| {
      TreePrinted(nodes, children, front, i, x);
    } else {
      PrintsWhatIsBelow(nodes, children, [last]);
    }
  }

  // ------------------------------------------------ the code

  method Walk(nodes: NodeMap, children: Links, n: string, ghost path: seq<string>) returns (out: seq<string>)
    requires At(nodes, children, path) && path[|path| - 1] == n
    ensures out == Printed(nodes, children, path)
    decreases |nodes| - |path|
  {
    hide OnCycle, Kids, Children, At;
    LastHasChildren(nodes, children, path);
    out := [n];
    var kids := children[n];
    var i := 0;
    while i < |kids|
      invariant i <= |kids|
      invariant out == [n] + PrintedBelow(nodes, children, path, kids[..i])
    {
      Deeper(nodes, children, path, kids[i]);
      var below := Walk(nodes, children, kids[i], path + [kids[i]]);
      assert kids[..i + 1][..i] == kids[..i];
      out := out + below;
      i := i + 1;
    }
    assert kids[..|kids|] == kids;
  }

  lemma LastHasChildren(nodes: NodeMap, children: Links, path: seq<string>)
    requires At(nodes, children, path)
    ensures path != [] && path[|path| - 1] in children && Children(children, path) == children[path[|path| - 1]]
  {
    assert path[|path| - 1] in nodes;
  }

  method WalkEach(nodes: NodeMap, children: Links, starts: seq<string>) returns (out: seq<string>)
    requires Walkable(nodes, children, starts)
    ensures out == PrintedFrom(nodes, children, starts)
  {
    hide OnCycle, Kids, At, Printed;
    out := [];
    var i := 0;
    while i < |starts|
      invariant i <= |starts| && out == PrintedFrom(nodes, children, starts[..i])
    {
      StartsAt(nodes, children, starts[i]);
      var tree := Walk(nodes, children, starts[i], [starts[i]]);
      assert starts[..i + 1][..i] == starts[..i];
      out := out + tree;
      i := i + 1;
    }
    assert starts[..|starts|] == starts;
  }

  /** Go's order of strings. */
  predicate UpTo(a: string, b: string) {
    a == "" || (b != "" && (a[0] < b[0] || (a[0] == b[0] && UpTo(a[1..], b[1..]))))
  }

  lemma {:induction false} UpToEither(a: string, b: string)
    ensures UpTo(a, b) || UpTo(b, a)
  {
    if a != "" && b != "" {
      UpToEither(a[1..], b[1..]);
    }
  }

  lemma {:induction false} UpToThen(a: string, b: string, c: string)
    requires UpTo(a, b) && UpTo(b, c)
    ensures UpTo(a, c)
  {
    if a != "" {
      if a[0] == b[0] == c[0] {
        UpToThen(a[1..], b[1..], c[1..]);
      }
    }
  }

  /** Roots come first, then the spans of each missing parent in the order of the parents'
      ids; spans with the same parent come in the order of their times. */
  ghost predicate InTime(nodes: NodeMap, starts: seq<string>) {
    && (forall k :: k in starts ==> k in nodes)
    && (forall i, j :: 0 <= i < j < |starts| ==> UpTo(nodes[starts[i]].parent, nodes[starts[j]].parent))
    && (forall i, j | 0 <= i < j < |starts| && nodes[starts[i]].parent == nodes[starts[j]].parent ::
          nodes[starts[i]].At() <= nodes[starts[j]].At())
  }

  /** The walk starts at exactly the starts, each once, in the order printed. */
  ghost predicate StartsOf(nodes: NodeMap, id: string, starts: seq<string>) {
    Distinct(starts) && (forall k :: k in starts <==> Start(nodes, id, k)) && InTime(nodes, starts)
  }

  /** By position: an id is whole or at least 8 characters that begin the trace's. */
  lemma InTheTrace(nodes: NodeMap, id: string, k: string)
    ensures Member(nodes, id, k) <==>
      k in nodes && if |id| < 8 then nodes[k].trace == id else exists rest :: nodes[k].trace == id + rest
  {
    if k in nodes {
      var trace := nodes[k].trace;
      if id <= trace {
        assert trace == id + trace[|id|..];
      }
    }
  }

  lemma StartMeaning(nodes: NodeMap, id: string, k: string)
    ensures Start(nodes, id, k) <==>
      Member(nodes, id, k)
      && (nodes[k].parent == "" || forall m :: Member(nodes, id, m) ==> nodes[m].span != nodes[k].parent)
  {
    hide Matches;
  }

  /** Byte by byte: nothing follows, or the first difference is to a larger one. */
  lemma {:induction false} UpToMeaning(a: string, b: string)
    ensures UpTo(a, b) <==> a <= b || exists i :: 0 <= i < |a| && i < |b| && a[i] < b[i] && a[..i] == b[..i]
  {
    if a != "" && b != "" && a[0] == b[0] {
      UpToMeaning(a[1..], b[1..]);
      assert a == [a[0]] + a[1..] && b == [b[0]] + b[1..];
      if i :| 0 <= i < |a| && i < |b| && a[i] < b[i] && a[..i] == b[..i] {
        assert a[1..][..i - 1] == a[..i][1..] && b[1..][..i - 1] == b[..i][1..];
      }
      if i :| 0 <= i < |a| - 1 && i < |b| - 1 && a[1..][i] < b[1..][i] && a[1..][..i] == b[1..][..i] {
        assert a[..i + 1] == [a[0]] + a[1..][..i] && b[..i + 1] == [b[0]] + b[1..][..i];
      }
    } else if a != "" && b != "" && a[0] < b[0] {
      assert a[..0] == b[..0];
    }
  }

  /** The starts of one missing parent stand together, by the time of their start, or of
      their first line while no start is known. */
  lemma StartsInOrder(nodes: NodeMap, id: string, starts: seq<string>, i: nat, j: nat)
    requires StartsOf(nodes, id, starts) && i < j < |starts|
    ensures starts[i] != starts[j] && starts[i] in nodes && starts[j] in nodes
    ensures var a, b := nodes[starts[i]], nodes[starts[j]];
      && UpTo(a.parent, b.parent)
      && (a.parent == b.parent ==>
           (if a.start.Some? then a.start.value else a.first) <= (if b.start.Some? then b.start.value else b.first))
  {
    hide UpTo, Start;
    assert starts[i] in starts && starts[j] in starts;
  }

  method PrintFlow(f: Flows, id: string) returns (found: bool, out: seq<string>, ghost starts: seq<string>)
    requires Kids(f.nodes, f.children)
    requires forall s :: Start(f.nodes, id, s) ==> !OnCycle(f.nodes, s)
    ensures found <==> exists k :: Member(f.nodes, id, k)
    ensures found ==> StartsOf(f.nodes, id, starts) && Walkable(f.nodes, f.children, starts)
    ensures found ==> out == PrintedFrom(f.nodes, f.children, starts)
  {
    hide OnCycle, Kids, Distinct, Spans, Sifted, Begun, PrintedFrom, StartsOf, Matches;
    var nodes := f.nodes;
    var members := Members(nodes, id);
    out, starts := [], [];
    if members == [] {
      return false, out, starts;
    }
    found := true;
    assert Member(nodes, id, members[0]);
    var spans := SpansOf(nodes, id, members);
    var roots, dangling := Sift(nodes, members, spans);
    roots := StableSort.Sort(roots, Time(nodes));
    BeginsWithRoots(nodes, id, members, spans, roots, dangling);
    starts := roots;
    BegunIsWalkable(nodes, f.children, id, spans, dangling, dangling.Keys, starts);
    out := WalkEach(nodes, f.children, roots);
    var rest := dangling.Keys;
    while rest != {}
      invariant rest <= dangling.Keys && Begun(nodes, id, spans, dangling, rest, starts)
      invariant Walkable(nodes, f.children, starts) && out == PrintedFrom(nodes, f.children, starts)
      decreases |rest|
    {
      var p := Least(rest);
      var kids := StableSort.Sort(dangling[p], Time(nodes));
      GoesOn(nodes, id, members, spans, dangling, rest, starts, p);
      BegunIsWalkable(nodes, f.children, id, spans, dangling, rest - {p}, starts + kids);
      var trees := WalkEach(nodes, f.children, kids);
      PrintedFromBoth(nodes, f.children, starts, kids);
      out, starts, rest := out + trees, starts + kids, rest - {p};
    }
    AllBegun(nodes, id, members, spans, dangling, starts);
  }

  /** The next key of sortedKeys. */
  method Least(keys: set<string>) returns (p: string)
    requires keys != {}
    ensures p in keys && forall q :: q in keys ==> UpTo(p, q)
  {
    p :| p in keys;
    var rest := keys - {p};
    UpToEither(p, p);
    while rest != {}
      invariant rest <= keys && p in keys
      invariant forall q :: q in keys && q !in rest ==> UpTo(p, q)
      decreases |rest|
    {
      var k :| k in rest;
      UpToEither(p, k);
      if !UpTo(p, k) {
        forall q | q in keys && q !in rest ensures UpTo(k, q) {
          UpToThen(k, p, q);
        }
        UpToEither(k, k);
        p := k;
      }
      rest := rest - {k};
    }
  }

  method Members(nodes: NodeMap, id: string) returns (members: seq<string>)
    ensures Distinct(members) && forall k :: k in members <==> Member(nodes, id, k)
  {
    hide Matches;
    members := [];
    var rest := nodes.Keys;
    while rest != {}
      invariant rest <= nodes.Keys && Distinct(members)
      invariant forall k :: k in members <==> Member(nodes, id, k) && k !in rest
      decreases |rest|
    {
      var n :| n in rest;
      if Matches(nodes[n].trace, id) {
        members := members + [n];
      }
      rest := rest - {n};
    }
  }

  method SpansOf(nodes: NodeMap, id: string, members: seq<string>) returns (spans: set<string>)
    requires forall k :: k in members <==> Member(nodes, id, k)
    ensures spans == Spans(nodes, id)
  {
    hide Matches;
    spans := {};
    var i := 0;
    while i < |members|
      invariant i <= |members| && spans == set k | k in members[..i] && k in nodes :: nodes[k].span
    {
      assert members[..i + 1] == members[..i] + [members[i]];
      assert members[i] in members;
      spans := spans + {nodes[members[i]].span};
      i := i + 1;
    }
    assert members[..|members|] == members;
  }

  /** Roots, and for each parent that is not printed the spans that name it. */
  ghost predicate Sifted(nodes: NodeMap, ms: seq<string>, spans: set<string>, roots: seq<string>, dangling: Links) {
    && roots == WithParent(nodes, ms, "")
    && (forall p :: p in dangling <==> p != "" && p !in spans && WithParent(nodes, ms, p) != [])
    && (forall p :: p in dangling ==> dangling[p] == WithParent(nodes, ms, p))
  }

  method Sift(nodes: NodeMap, ms: seq<string>, spans: set<string>) returns (roots: seq<string>, dangling: Links)
    requires forall m :: m in ms ==> m in nodes
    ensures Sifted(nodes, ms, spans, roots, dangling)
  {
    roots, dangling := [], map[];
    var i := 0;
    while i < |ms|
      invariant i <= |ms| && Sifted(nodes, ms[..i], spans, roots, dangling)
    {
      assert ms[..i + 1][..i] == ms[..i];
      var n := ms[i];
      var p := nodes[n].parent;
      if p == "" {
        roots := roots + [n];
      } else if p !in spans {
        dangling := dangling[p := (if p in dangling then dangling[p] else []) + [n]];
      }
      i := i + 1;
    }
    assert ms[..|ms|] == ms;
  }

  /** The walk has begun everywhere but below the missing parents in `rest`. */
  ghost predicate Begun(nodes: NodeMap, id: string, spans: set<string>, dangling: Links, rest: set<string>,
      starts: seq<string>) {
    && Distinct(starts) && InTime(nodes, starts)
    && (forall k :: k in starts <==>
          Member(nodes, id, k) && (nodes[k].parent == "" || (nodes[k].parent in dangling && nodes[k].parent !in rest)))
    && "" !in dangling && (forall p :: p in dangling ==> p !in spans)
    && spans == Spans(nodes, id)
    && (forall k, q :: k in starts && q in rest ==> UpTo(nodes[k].parent, q))
  }

  lemma BeginsWithRoots(nodes: NodeMap, id: string, ms: seq<string>, spans: set<string>, roots: seq<string>,
      dangling: Links)
    requires Distinct(ms) && (forall k :: k in ms <==> Member(nodes, id, k)) && spans == Spans(nodes, id)
    requires Sifted(nodes, ms, spans, WithParent(nodes, ms, ""), dangling)
    requires roots == StableSort.Sort(WithParent(nodes, ms, ""), Time(nodes))
    ensures Begun(nodes, id, spans, dangling, dangling.Keys, roots)
  {
    hide Matches, Spans, WithParent, StableSort.Sort;
    WithParentFacts(nodes, ms, "");
    SortedKids(WithParent(nodes, ms, ""), Time(nodes));
    OrderedInTime(nodes, roots, "");
  }

  lemma OrderedInTime(nodes: NodeMap, g: seq<string>, p: string)
    requires StableSort.Ordered(g, Time(nodes)) && forall k :: k in g ==> k in nodes && nodes[k].parent == p
    ensures InTime(nodes, g)
  {
    UpToEither(p, p);
    assert forall i :: 0 <= i < |g| ==> g[i] in g && Time(nodes)(g[i]) == nodes[g[i]].At();
  }

  lemma GoesOn(nodes: NodeMap, id: string, ms: seq<string>, spans: set<string>, dangling: Links, rest: set<string>,
      starts: seq<string>, p: string)
    requires Distinct(ms) && (forall k :: k in ms <==> Member(nodes, id, k))
    requires Sifted(nodes, ms, spans, WithParent(nodes, ms, ""), dangling)
    requires Begun(nodes, id, spans, dangling, rest, starts) && p in rest && rest <= dangling.Keys
    requires forall q :: q in rest ==> UpTo(p, q)
    ensures Begun(nodes, id, spans, dangling, rest - {p}, starts + StableSort.Sort(dangling[p], Time(nodes)))
  {
    hide Matches, Spans, WithParent, StableSort.Sort, InTime, Distinct;
    var g := StableSort.Sort(dangling[p], Time(nodes));
    WithParentFacts(nodes, ms, p);
    SortedKids(dangling[p], Time(nodes));
    OrderedInTime(nodes, g, p);
    DistinctConcat(starts, g);
    InTimeGroup(nodes, starts, g, p);
  }

  lemma InTimeGroup(nodes: NodeMap, starts: seq<string>, g: seq<string>, p: string)
    requires InTime(nodes, starts) && InTime(nodes, g)
    requires forall k :: k in g ==> nodes[k].parent == p
    requires forall k :: k in starts ==> nodes[k].parent != p && UpTo(nodes[k].parent, p)
    ensures InTime(nodes, starts + g)
  {
    var all := starts + g;
    forall i, j | 0 <= i < j < |all|
      ensures UpTo(nodes[all[i]].parent, nodes[all[j]].parent)
      ensures nodes[all[i]].parent == nodes[all[j]].parent ==> nodes[all[i]].At() <= nodes[all[j]].At()
    {
      assert j >= |starts| ==> all[j] == g[j - |starts|] && g[j - |starts|] in g;
      assert i >= |starts| ==> all[i] == g[i - |starts|];
      assert i < |starts| ==> all[i] == starts[i] && starts[i] in starts;
    }
  }

  lemma BegunIsWalkable(nodes: NodeMap, children: Links, id: string, spans: set<string>, dangling: Links,
      rest: set<string>, starts: seq<string>)
    requires Kids(nodes, children) && Begun(nodes, id, spans, dangling, rest, starts)
    requires forall s :: Start(nodes, id, s) ==> !OnCycle(nodes, s)
    ensures Walkable(nodes, children, starts)
  {
    hide Kids, OnCycle, Matches, Spans, Distinct, InTime;
    assert forall k :: k in starts ==> Start(nodes, id, k);
  }

  lemma AllBegun(nodes: NodeMap, id: string, ms: seq<string>, spans: set<string>, dangling: Links, starts: seq<string>)
    requires Distinct(ms) && (forall k :: k in ms <==> Member(nodes, id, k))
    requires Sifted(nodes, ms, spans, WithParent(nodes, ms, ""), dangling)
    requires Begun(nodes, id, spans, dangling, {}, starts)
    ensures StartsOf(nodes, id, starts)
  {
    hide Matches, Spans, Distinct, InTime, WithParent;
    forall k ensures k in starts <==> Start(nodes, id, k) {
      if Member(nodes, id, k) {
        WithParentFacts(nodes, ms, nodes[k].parent);
      }
    }
  }

  // ------------------------------------------------ what is printed

  /** A span and its recorded parent belong to the same trace. */
  ghost predicate SameTrace(nodes: NodeMap) {
    forall k :: k in nodes && nodes[k].parent in nodes ==> nodes[nodes[k].parent].trace == nodes[k].trace
  }

  predicate Top(nodes: NodeMap, k: string) {
    k in nodes && nodes[k].parent !in nodes
  }

  /** Going up from k one comes to a span with no parent in the files. */
  ghost predicate Anchored(nodes: NodeMap, k: string) {
    exists q :: Chain(nodes, q) && Top(nodes, q[0]) && q[|q| - 1] == k
  }

  /** Within one trace the walk starts at the spans nothing recorded stands above, and so
      never on a cycle: it always ends. */
  lemma StartsAreTops(nodes: NodeMap, id: string)
    requires Keyed(nodes) && SameTrace(nodes)
    ensures forall k :: Start(nodes, id, k) <==> Member(nodes, id, k) && Top(nodes, k)
    ensures forall k :: Start(nodes, id, k) ==> !OnCycle(nodes, k)
  {
    hide Matches;
    forall k | k in nodes && OnCycle(nodes, k) ensures nodes[k].parent in nodes {
      var p :| Loop(nodes, p) && p[0] == k;
      assert nodes[p[|p| - 1]].parent == p[|p| - 2];
    }
    forall k | Member(nodes, id, k) && nodes[k].parent in nodes ensures nodes[k].parent in Spans(nodes, id) {
      assert Member(nodes, id, nodes[k].parent);
      assert nodes[nodes[k].parent].span == nodes[k].parent;
    }
  }

  /** A circle of parent links that lies wholly inside the trace or wholly outside it. */
  ghost predicate OnOneSide(nodes: NodeMap, id: string, p: seq<string>) {
    forall i, j :: 0 <= i < |p| && 0 <= j < |p| && Member(nodes, id, p[i]) ==> Member(nodes, id, p[j])
  }

  /** Printing a trace ends exactly when every circle of parent links lies wholly inside
      the trace, where the walk never comes to it, or wholly outside it. */
  lemma PrintEndsIff(nodes: NodeMap, id: string)
    requires Keyed(nodes)
    ensures (forall s :: Start(nodes, id, s) ==> !OnCycle(nodes, s)) <==>
            (forall p :: Loop(nodes, p) ==> OnOneSide(nodes, id, p))
  {
    hide Keyed, Member, Spans;
    if forall s :: Start(nodes, id, s) ==> !OnCycle(nodes, s) {
      forall p | Loop(nodes, p) ensures OnOneSide(nodes, id, p) {
        NoStartNoEntry(nodes, id, p);
      }
    }
    if forall p :: Loop(nodes, p) ==> OnOneSide(nodes, id, p) {
      forall s | Start(nodes, id, s) ensures !OnCycle(nodes, s) {
        NoEntryNoStart(nodes, id, s);
      }
    }
  }

  /** A member starts the walk exactly when its parent is no member. */
  lemma StartsAfterOther(nodes: NodeMap, id: string, k: string)
    requires Keyed(nodes) && Member(nodes, id, k)
    ensures Start(nodes, id, k) <==> !Member(nodes, id, nodes[k].parent)
  {
    hide Matches;
    var up := nodes[k].parent;
    if Member(nodes, id, up) {
      assert nodes[up].span == up;
    }
  }

  lemma NoStartNoEntry(nodes: NodeMap, id: string, p: seq<string>)
    requires Keyed(nodes) && Loop(nodes, p)
    requires forall s :: Start(nodes, id, s) ==> !OnCycle(nodes, s)
    ensures OnOneSide(nodes, id, p)
  {
    hide Keyed, Matches, Start, OnCycle;
    forall k | 0 < k < |p| && Member(nodes, id, p[k]) ensures Member(nodes, id, p[k - 1]) {
      AroundFrom(nodes, p, k);
      StartsAfterOther(nodes, id, p[k]);
    }
    forall i, j | 0 <= i < |p| && 0 <= j < |p| && Member(nodes, id, p[i]) ensures Member(nodes, id, p[j]) {
      AllBefore(nodes, id, p, i, 0);
      AllBefore(nodes, id, p, |p| - 1, j);
    }
  }

  /** A circle can be read from any of its spans. */
  lemma AroundFrom(nodes: NodeMap, p: seq<string>, k: nat)
    requires Loop(nodes, p) && 0 < k < |p|
    ensures OnCycle(nodes, p[k])
  {
    var q := p[k..] + p[1..k + 1];
    assert q[0] == p[k] && q[|q| - 1] == p[k];
    assert forall i :: 0 <= i < |q| ==> q[i] == if i < |p| - k then p[k + i] else p[i - (|p| - k) + 1];
    assert Loop(nodes, q);
  }

  lemma {:induction false} AllBefore(nodes: NodeMap, id: string, p: seq<string>, i: nat, j: nat)
    requires j <= i < |p| && Member(nodes, id, p[i])
    requires forall k :: 0 < k < |p| && Member(nodes, id, p[k]) ==> Member(nodes, id, p[k - 1])
    ensures Member(nodes, id, p[j])
    decreases i
  {
    hide Member;
    if j < i {
      AllBefore(nodes, id, p, i - 1, j);
    }
  }

  lemma NoEntryNoStart(nodes: NodeMap, id: string, s: string)
    requires Keyed(nodes) && Start(nodes, id, s)
    requires forall p :: Loop(nodes, p) ==> OnOneSide(nodes, id, p)
    ensures !OnCycle(nodes, s)
  {
    hide Keyed, Matches, Spans;
    StartsAfterOther(nodes, id, s);
    if p :| Loop(nodes, p) && p[0] == s {
      ParentOnSameSide(nodes, id, p);
      assert false;
    }
  }

  lemma ParentOnSameSide(nodes: NodeMap, id: string, p: seq<string>)
    requires Loop(nodes, p) && OnOneSide(nodes, id, p) && Member(nodes, id, p[0])
    ensures Member(nodes, id, nodes[p[0]].parent)
  {
    hide Matches;
    HasParent(nodes, p, |p| - 1);
    assert Member(nodes, id, p[|p| - 2]);
  }

  lemma HasParent(nodes: NodeMap, p: seq<string>, i: nat)
    requires Chain(nodes, p) && i < |p|
    ensures p[i] in nodes && (i > 0 ==> nodes[p[i]].parent == p[i - 1] && p[i - 1] in nodes)
  {
  }

  lemma {:induction false} OneWayUp(nodes: NodeMap, p: seq<string>, q: seq<string>)
    requires Chain(nodes, p) && Chain(nodes, q) && Top(nodes, p[0]) && Top(nodes, q[0])
    requires p[|p| - 1] == q[|q| - 1]
    ensures p == q
    decreases |p|
  {
    if |p| == 1 || |q| == 1 {
      HasParent(nodes, p, |p| - 1);
      HasParent(nodes, q, |q| - 1);
    } else {
      OneWayUp(nodes, p[..|p| - 1], q[..|q| - 1]);
      assert p == p[..|p| - 1] + [p[|p| - 1]] && q == q[..|q| - 1] + [q[|q| - 1]];
    }
  }

  lemma {:induction false} ChainInTrace(nodes: NodeMap, q: seq<string>)
    requires Chain(nodes, q) && SameTrace(nodes)
    ensures nodes[q[0]].trace == nodes[q[|q| - 1]].trace
  {
    if |q| > 1 {
      ChainInTrace(nodes, q[..|q| - 1]);
      assert nodes[q[|q| - 1]].parent == q[|q| - 2];
    }
  }

  ghost predicate BelowAny(nodes: NodeMap, starts: seq<string>, k: string) {
    exists s :: s in starts && Below(nodes, [s], k)
  }

  lemma {:induction false} PrintsBelowTops(nodes: NodeMap, children: Links, starts: seq<string>)
    requires Walkable(nodes, children, starts) && Distinct(starts) && forall s :: s in starts ==> Top(nodes, s)
    ensures Distinct(PrintedFrom(nodes, children, starts))
    ensures forall k :: k in PrintedFrom(nodes, children, starts) <==> BelowAny(nodes, starts, k)
  {
    hide Kids, OnCycle, At, Printed, Below;
    if starts != [] {
      var front, s := starts[..|starts| - 1], starts[|starts| - 1];
      assert starts == front + [s];
      PrintsBelowTops(nodes, children, front);
      StartsAt(nodes, children, s);
      PrintsWhatIsBelow(nodes, children, [s]);
      forall k | k in PrintedFrom(nodes, children, front) ensures k !in Printed(nodes, children, [s]) {
        TopsApart(nodes, front, s, k);
      }
      DistinctConcat(PrintedFrom(nodes, children, front), Printed(nodes, children, [s]));
    }
  }

  lemma TopsApart(nodes: NodeMap, front: seq<string>, s: string, k: string)
    requires Distinct(front + [s]) && (forall t :: t in front ==> Top(nodes, t)) && Top(nodes, s)
    requires BelowAny(nodes, front, k)
    ensures !Below(nodes, [s], k)
  {
    var t :| t in front && Below(nodes, [t], k);
    var i :| 0 <= i < |front| && front[i] == t;
    assert (front + [s])[i] == t && (front + [s])[|front|] == s;
    var p :| Chain(nodes, p) && [t] <= p && p[|p| - 1] == k;
    assert p[0] == t;
    if Below(nodes, [s], k) {
      var q :| Chain(nodes, q) && [s] <= q && q[|q| - 1] == k;
      assert q[0] == s;
      OneWayUp(nodes, p, q);
    }
  }

  /** Where spans and their parents share a trace, printing a trace ends for any parent
      links, and prints exactly its spans whose parents lead up to a root or to a parent
      that is not in the files, each once. */
  lemma PrintsTheFlow(nodes: NodeMap, children: Links, id: string, starts: seq<string>)
    requires Kids(nodes, children) && Keyed(nodes) && SameTrace(nodes) && StartsOf(nodes, id, starts)
    ensures Walkable(nodes, children, starts)
    ensures Distinct(PrintedFrom(nodes, children, starts))
    ensures forall k :: k in PrintedFrom(nodes, children, starts) <==> Member(nodes, id, k) && Anchored(nodes, k)
  {
    hide Kids, Keyed, OnCycle, Start, Matches, PrintedFrom, InTime;
    StartsAreTops(nodes, id);
    assert forall s :: s in starts ==> Member(nodes, id, s);
    PrintsBelowTops(nodes, children, starts);
    forall k ensures BelowAny(nodes, starts, k) <==> Member(nodes, id, k) && Anchored(nodes, k) {
      AnchoredIsBelow(nodes, id, starts, k);
    }
  }

  lemma AnchoredIsBelow(nodes: NodeMap, id: string, starts: seq<string>, k: string)
    requires SameTrace(nodes) && forall s :: s in starts <==> Member(nodes, id, s) && Top(nodes, s)
    ensures BelowAny(nodes, starts, k) <==> Member(nodes, id, k) && Anchored(nodes, k)
  {
    hide SameTrace, Matches;
    if BelowAny(nodes, starts, k) {
      var s :| s in starts && Below(nodes, [s], k);
      var q :| Chain(nodes, q) && [s] <= q && q[|q| - 1] == k;
      assert q[0] == s;
      ChainInTrace(nodes, q);
    }
    if Member(nodes, id, k) && Anchored(nodes, k) {
      var q :| Chain(nodes, q) && Top(nodes, q[0]) && q[|q| - 1] == k;
      ChainInTrace(nodes, q);
      assert [q[0]] <= q;
      assert q[0] in starts && Below(nodes, [q[0]], k);
    }
  }

  ghost predicate UnderCycle(nodes: NodeMap, k: string) {
    exists q :: Chain(nodes, q) && OnCycle(nodes, q[0]) && q[|q| - 1] == k
  }

  /** What is left out is exactly what hangs below a circle of parent links. */
  lemma LeftOutIff(nodes: NodeMap, k: string)
    requires k in nodes
    ensures Anchored(nodes, k) <==> !UnderCycle(nodes, k)
  {
    hide OnCycle;
    Climb(nodes, [k]);
    if Anchored(nodes, k) && UnderCycle(nodes, k) {
      var p :| Chain(nodes, p) && Top(nodes, p[0]) && p[|p| - 1] == k;
      var q :| Chain(nodes, q) && OnCycle(nodes, q[0]) && q[|q| - 1] == k;
      NoTopAboveACycle(nodes, p, q);
    }
  }

  lemma {:induction false} Climb(nodes: NodeMap, path: seq<string>)
    requires Chain(nodes, path) && Distinct(path)
    ensures Anchored(nodes, path[|path| - 1]) || UnderCycle(nodes, path[|path| - 1])
    decreases |nodes| - |path|
  {
    hide OnCycle;
    var up := nodes[path[0]].parent;
    if up in nodes {
      if i: nat :| i < |path| && path[i] == up {
        Circle(nodes, path, i);
        assert Chain(nodes, path[i..]);
      } else {
        DistinctConcat([up], path);
        DistinctFits([up] + path, nodes.Keys);
        Climb(nodes, [up] + path);
      }
    }
  }

  lemma Circle(nodes: NodeMap, path: seq<string>, i: nat)
    requires Chain(nodes, path) && i < |path| && nodes[path[0]].parent == path[i]
    ensures OnCycle(nodes, path[i])
  {
    var lap := [path[i]] + path[..i + 1];
    assert Loop(nodes, lap) && lap[0] == path[i];
  }

  lemma {:induction false} NoTopAboveACycle(nodes: NodeMap, p: seq<string>, q: seq<string>)
    requires Chain(nodes, p) && Chain(nodes, q) && OnCycle(nodes, q[0])
    requires p[|p| - 1] == q[|q| - 1]
    ensures !Top(nodes, p[0])
    decreases if |p| >= |q| then |p| - |q| + 1 else 0
  {
    if |p| < |q| {
      SameUpwards(nodes, p, q);
      HasParent(nodes, q, |q| - |p|);
    } else {
      var lap :| Loop(nodes, lap) && lap[0] == q[0];
      var longer := lap + q[1..];
      assert forall i :: |lap| <= i < |longer| ==> longer[i] == q[i - |lap| + 1];
      NoTopAboveACycle(nodes, p, longer);
    }
  }

  lemma {:induction false} SameUpwards(nodes: NodeMap, p: seq<string>, q: seq<string>)
    requires Chain(nodes, p) && Chain(nodes, q) && |p| <= |q| && p[|p| - 1] == q[|q| - 1]
    ensures p[0] == q[|q| - |p|]
  {
    if |p| > 1 {
      SameUpwards(nodes, p[..|p| - 1], q[..|q| - 1]);
    }
  }

  /** Across traces it need not end: a trace whose first span names a parent in another
      trace, itself below that span, is walked for ever. */
  lemma CrossTraceLoop()
    ensures var nodes := Nodes([Line("run_start", "r", "p", "A", "", "", 0),
                                Line("run_start", "p", "r", "B", "", "", 1)]);
      Start(nodes, "A", "r") && OnCycle(nodes, "r")
  {
    var l0, l1 := Line("run_start", "r", "p", "A", "", "", 0), Line("run_start", "p", "r", "B", "", "", 1);
    assert [l0, l1][..1] == [l0] && [l0][..0] == [];
    var nodes := Nodes([l0, l1]);
    assert Nodes([l0]) == Added(Nodes([]), l0) && nodes == Added(Nodes([l0]), l1);
    assert nodes["r"] == Node("r", "p", "A", 0, Some(0)) && nodes["p"] == Node("p", "r", "B", 1, Some(1));
    assert Loop(nodes, ["r", "p", "r"]);
  }
}
