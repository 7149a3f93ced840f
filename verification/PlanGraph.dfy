/** A plan is a graph (pkg/agent/plan_dag.go): validation, readiness and the
    depth-first search for a cycle. */
module PlanGraph {
  import opened Options

  datatype Item = Item(text: string, done: bool, note: string, id: string, after: seq<string>)

  /** planIndexByID: the position of each id, the last one winning. */
  function IndexById(items: seq<Item>): (m: map<string, nat>)
    ensures forall id :: id in m ==> m[id] < |items| && items[m[id]].id == id != ""
    ensures forall i :: 0 <= i < |items| && items[i].id != "" ==> items[i].id in m
  {
    if items == [] then map[]
    else
      var n := |items| - 1;
      var before := IndexById(items[..n]);
      if items[n].id == "" then before else before[items[n].id := n]
  }

  ghost predicate UniqueIds(items: seq<Item>) {
    forall i, j :: 0 <= i < j < |items| && items[i].id != "" ==> items[i].id != items[j].id
  }

  ghost predicate KnownRefs(items: seq<Item>) {
    forall i, k :: 0 <= i < |items| && 0 <= k < |items[i].after| ==> items[i].after[k] in IndexById(items)
  }

  /** Step i names step j among the steps it comes after. */
  ghost predicate WaitsFor(items: seq<Item>, i: nat, j: nat) {
    i < |items| && exists k ::
      0 <= k < |items[i].after| && items[i].after[k] in IndexById(items) && IndexById(items)[items[i].after[k]] == j
  }

  /** Every step stands behind all the steps it waits for. */
  ghost predicate IsWorkOrder(items: seq<Item>, order: seq<nat>) {
    && (forall i: nat :: i < |items| ==> i in order)
    && Grounded(items, order)
  }

  ghost predicate Grounded(items: seq<Item>, order: seq<nat>) {
    && (forall p :: 0 <= p < |order| ==> order[p] < |items|)
    && (forall p, j :: 0 <= p < |order| && WaitsFor(items, order[p], j) ==> j in order[..p])
  }

  /** A plan the tools accept: unique ids, no dangling reference, and an order to work in. */
  ghost predicate IsDag(items: seq<Item>) {
    UniqueIds(items) && KnownRefs(items) && exists order :: IsWorkOrder(items, order)
  }

  /** Each step of `c` waits for the next one, and the last for the first. */
  ghost predicate IsCycle(items: seq<Item>, c: seq<nat>) {
    && c != []
    && (forall k :: 0 <= k < |c| ==> c[k] < |items|)
    && (forall k :: 0 <= k < |c| - 1 ==> WaitsFor(items, c[k], c[k + 1]))
    && WaitsFor(items, c[|c| - 1], c[0])
  }

  function FirstAt(order: seq<nat>, x: nat): (p: nat)
    requires x in order
    ensures p < |order| && order[p] == x && x !in order[..p]
  {
    if order[0] == x then 0 else
      var p := 1 + FirstAt(order[1..], x);
      assert order[..p] == [order[0]] + order[1..][..p - 1];
      p
  }

  lemma {:induction false} FirstAtOrBefore(order: seq<nat>, q: nat)
    requires q < |order|
    ensures FirstAt(order, order[q]) <= q
  {
    if order[0] != order[q] {
      FirstAtOrBefore(order[1..], q - 1);
    }
  }

  /** Along a chain of waits the place in a work order only falls. */
  lemma {:induction false} WaitsDescend(items: seq<Item>, order: seq<nat>, c: seq<nat>, k: nat)
    requires IsWorkOrder(items, order) && k < |c|
    requires forall m :: 0 <= m < |c| ==> c[m] < |items|
    requires forall m :: 0 <= m < |c| - 1 ==> WaitsFor(items, c[m], c[m + 1])
    ensures FirstAt(order, c[k]) + k <= FirstAt(order, c[0])
  {
    if k > 0 {
      WaitsDescend(items, order, c, k - 1);
      WaitIsEarlier(items, order, c[k - 1], c[k]);
    }
  }

  lemma WaitIsEarlier(items: seq<Item>, order: seq<nat>, i: nat, j: nat)
    requires IsWorkOrder(items, order) && i < |items| && WaitsFor(items, i, j)
    ensures j < |items| && FirstAt(order, j) < FirstAt(order, i)
  {
    hide WaitsFor;
    var p := FirstAt(order, i);
    assert j in order[..p];
    var q :| 0 <= q < p && order[q] == j;
    FirstAtOrBefore(order, q);
  }

  /** A plan with an order to work in has no circle. */
  lemma DagHasNoCycle(items: seq<Item>, order: seq<nat>, c: seq<nat>)
    requires IsWorkOrder(items, order)
    ensures !IsCycle(items, c)
  {
    if IsCycle(items, c) {
      WaitsDescend(items, order, c, |c| - 1);
      WaitIsEarlier(items, order, c[|c| - 1], c[0]);
      assert false;
    }
  }

  /** Step i names step j: j is the last step to carry an id that i comes after. */
  ghost predicate ComesAfter(items: seq<Item>, i: nat, j: nat) {
    && i < |items| && j < |items|
    && items[j].id != "" && items[j].id in items[i].after
    && forall k :: j < k < |items| ==> items[k].id != items[j].id
  }

  lemma WaitsMeaning(items: seq<Item>, i: nat, j: nat)
    ensures WaitsFor(items, i, j) <==> ComesAfter(items, i, j)
  {
    hide IndexById;
    IndexIsLast(items);
    if ComesAfter(items, i, j) {
      var m := IndexById(items);
      assert items[j].id in m && m[items[j].id] == j;
      var k :| 0 <= k < |items[i].after| && items[i].after[k] == items[j].id;
      assert items[i].after[k] in m && m[items[i].after[k]] == j;
    }
  }

  lemma {:induction false} IndexIsLast(items: seq<Item>)
    ensures forall id, k :: id in IndexById(items) && IndexById(items)[id] < k < |items| ==> items[k].id != id
  {
    if items != [] {
      var n := |items| - 1;
      var before := items[..n];
      IndexIsLast(before);
      forall id, k | id in IndexById(items) && IndexById(items)[id] < k < |items| ensures items[k].id != id {
        if k < n {
          assert before[k] == items[k] && IndexById(before)[id] == IndexById(items)[id];
        }
      }
    }
  }

  /** Each step of `c` comes after the next one, and the last after the first. */
  ghost predicate IsRing(items: seq<Item>, c: seq<nat>) {
    && c != []
    && (forall k :: 0 <= k < |c| - 1 ==> ComesAfter(items, c[k], c[k + 1]))
    && ComesAfter(items, c[|c| - 1], c[0])
  }

  lemma RingIsCycle(items: seq<Item>, c: seq<nat>)
    requires IsRing(items, c)
    ensures IsCycle(items, c)
  {
    hide WaitsFor, IndexById;
    forall k | 0 <= k < |c| - 1 ensures WaitsFor(items, c[k], c[k + 1]) {
      WaitsMeaning(items, c[k], c[k + 1]);
    }
    WaitsMeaning(items, c[|c| - 1], c[0]);
    forall k | 0 <= k < |c| ensures c[k] < |items| {
      if k < |c| - 1 {
        assert ComesAfter(items, c[k], c[k + 1]);
      }
    }
  }

  /** A DAG by its names: no id stands twice, no name is dangling, and no steps come after
      one another in a ring. */
  lemma DagMeaning(items: seq<Item>)
    requires IsDag(items)
    ensures forall i, j :: 0 <= i < j < |items| && items[i].id == items[j].id ==> items[i].id == ""
    ensures forall i, k :: 0 <= i < |items| && 0 <= k < |items[i].after| ==>
      items[i].after[k] != "" && exists j :: 0 <= j < |items| && items[j].id == items[i].after[k]
    ensures forall c :: !IsRing(items, c)
  {
    hide WaitsFor, IsWorkOrder, IsRing, IndexById;
    var order :| IsWorkOrder(items, order);
    forall c ensures !IsRing(items, c) {
      if IsRing(items, c) {
        RingIsCycle(items, c);
        DagHasNoCycle(items, order, c);
      }
    }
  }

  // ------------------------------------------------ the search

  datatype Color = White | Grey | Black

  ghost function Whites(color: seq<Color>): set<nat> {
    set i: nat | i < |color| && color[i].White?
  }

  /** What holds between two moves of the search: grey steps are the stack, a chain of
      waits; black ones have been left, each after all it waits for. */
  ghost predicate Searching(items: seq<Item>, color: seq<Color>, stack: seq<nat>, left: seq<nat>) {
    && |color| == |items|
    && (forall k :: 0 <= k < |stack| ==> stack[k] < |items| && color[stack[k]].Grey?)
    && (forall i: nat :: i < |items| && color[i].Grey? ==> i in stack)
    && (forall k, m :: 0 <= k < m < |stack| ==> stack[k] != stack[m])
    && (forall k :: 0 <= k < |stack| - 1 ==> WaitsFor(items, stack[k], stack[k + 1]))
    && (forall i: nat :: i < |items| && color[i].Black? ==> i in left)
    && (forall p :: 0 <= p < |left| ==> left[p] < |items| && color[left[p]].Black?)
    && Grounded(items, left)
  }

  lemma Enter(items: seq<Item>, color: seq<Color>, stack: seq<nat>, left: seq<nat>, i: nat)
    requires Searching(items, color, stack, left) && i < |items| && color[i].White?
    requires stack != [] ==> WaitsFor(items, stack[|stack| - 1], i)
    ensures Searching(items, color[i := Grey], stack + [i], left)
    ensures Whites(color[i := Grey]) < Whites(color)
  {
    hide WaitsFor, Grounded;
    assert i in Whites(color) && i !in Whites(color[i := Grey]);
  }

  lemma Leave(items: seq<Item>, color: seq<Color>, stack: seq<nat>, left: seq<nat>, i: nat)
    requires stack != [] && i == stack[|stack| - 1] && Searching(items, color, stack, left)
    requires forall j :: WaitsFor(items, i, j) ==> j in left
    ensures Searching(items, color[i := Black], stack[..|stack| - 1], left + [i])
  {
    hide WaitsFor;
    var after := left + [i];
    forall p, j | 0 <= p < |after| && WaitsFor(items, after[p], j) ensures j in after[..p] {
      if p < |left| {
        assert after[..p] == left[..p];
      } else {
        assert after[..p] == left;
      }
    }
    var below := stack[..|stack| - 1];
    forall k: nat | k < |items| && color[i := Black][k].Grey? ensures k in below {
      assert k in stack;
      var m :| 0 <= m < |stack| && stack[m] == k;
      assert below[m] == k;
    }
  }

  lemma CycleOnStack(items: seq<Item>, color: seq<Color>, stack: seq<nat>, left: seq<nat>, k: nat)
    requires Searching(items, color, stack, left) && k < |stack|
    requires WaitsFor(items, stack[|stack| - 1], stack[k])
    ensures IsCycle(items, stack[k..])
  {
    hide WaitsFor;
    var c := stack[k..];
    forall m | 0 <= m < |c| - 1 ensures WaitsFor(items, c[m], c[m + 1]) {
      assert c[m] == stack[k + m] && c[m + 1] == stack[k + m + 1];
    }
  }

  /** The state planCycle's closure captures. */
  class Walk {
    const items: seq<Item>
    const byId: map<string, nat>
    const color: array<Color>
    var stack: seq<nat>
    var found: seq<nat>
    /** Steps in the order the search left them. */
    ghost var left: seq<nat>

    ghost predicate Valid()
      reads this, color
    {
      byId == IndexById(items) && color.Length == |items| && Searching(items, color[..], stack, left)
    }

    constructor (items: seq<Item>, byId: map<string, nat>)
      requires byId == IndexById(items)
      ensures Valid() && fresh(color)
      ensures this.items == items && stack == [] && left == []
      ensures forall i :: 0 <= i < color.Length ==> color[i].White?
    {
      this.items, this.byId := items, byId;
      color := new Color[|items|](i => White);
      stack, found, left := [], [], [];
    }

    /** visit: true when a cycle was found from step i on. */
    method Visit(i: nat) returns (cyclic: bool)
      requires Valid() && i < |items| && color[i].White?
      requires stack != [] ==> WaitsFor(items, stack[|stack| - 1], i)
      modifies this, color
      ensures cyclic ==> IsCycle(items, found)
      ensures !cyclic ==> Valid() && stack == old(stack) && old(left) <= left && i in left
      ensures !cyclic ==> Whites(color[..]) <= old(Whites(color[..]))
      decreases Whites(color[..])
    {
      hide WaitsFor, Searching, IsCycle;
      Push(i);
      var deps := items[i].after;
      ghost var whites := Whites(color[..]);
      for d := 0 to |deps|
        invariant Valid() && stack == old(stack) + [i] && old(left) <= left
        invariant Whites(color[..]) <= whites
        invariant forall e :: 0 <= e < d && deps[e] in byId ==> byId[deps[e]] in left
      {
        if deps[d] !in byId {
          continue;
        }
        var j := byId[deps[d]];
        Waits(d, i, j);
        match color[j]
        case Grey =>
          FindOnStack(j);
          return true;
        case White =>
          var below := Visit(j);
          if below {
            return true;
          }
        case Black =>
          BlackIsLeft(j);
      }
      AllWaitsLeft(i);
      Pop(i);
      return false;
    }

    method Push(i: nat)
      requires Valid() && i < |items| && color[i].White?
      requires stack != [] ==> WaitsFor(items, stack[|stack| - 1], i)
      modifies this`stack, color
      ensures Valid() && stack == old(stack) + [i] && color[..] == old(color[..])[i := Grey]
      ensures Whites(color[..]) < old(Whites(color[..]))
    {
      hide WaitsFor, Searching;
      Enter(items, color[..], stack, left, i);
      color[i] := Grey;
      stack := stack + [i];
      assert color[..] == old(color[..])[i := Grey];
    }

    method Pop(i: nat)
      requires Valid() && stack != [] && i == stack[|stack| - 1] && i < |items|
      requires forall j :: WaitsFor(items, i, j) ==> j in left
      modifies this`stack, this`left, color
      ensures Valid() && stack == old(stack)[..|old(stack)| - 1] && left == old(left) + [i]
      ensures color[..] == old(color[..])[i := Black]
    {
      hide WaitsFor, Searching;
      Leave(items, color[..], stack, left, i);
      stack := stack[..|stack| - 1];
      color[i] := Black;
      left := left + [i];
      assert color[..] == old(color[..])[i := Black];
    }

    lemma Waits(d: nat, i: nat, j: nat)
      requires i < |items| && d < |items[i].after| && byId == IndexById(items)
      requires items[i].after[d] in byId && byId[items[i].after[d]] == j
      ensures WaitsFor(items, i, j) && j < |items|
    {
    }

    lemma BlackIsLeft(j: nat)
      requires Valid() && j < |items| && color[j].Black?
      ensures j in left
    {
    }

    lemma AllWaitsLeft(i: nat)
      requires Valid() && i < |items|
      requires forall e :: 0 <= e < |items[i].after| && items[i].after[e] in byId ==> byId[items[i].after[e]] in left
      ensures forall j :: WaitsFor(items, i, j) ==> j in left
    {
    }

    /** Reads the cycle off the stack, from the grey step `j` up. */
    method FindOnStack(j: nat)
      requires Valid() && j < |items| && color[j].Grey? && stack != []
      requires WaitsFor(items, stack[|stack| - 1], j)
      modifies this`found
      ensures IsCycle(items, found)
    {
      hide WaitsFor, IsCycle;
      assert j in stack;
      var k := |stack| - 1;
      while k >= 0
        invariant -1 <= k < |stack|
        invariant j in stack[..k + 1]
      {
        if stack[k] == j {
          found := stack[k..];
          CycleOnStack(items, color[..], stack, left, k);
          return;
        }
        k := k - 1;
      }
    }

    /** The outer loop of planCycle. */
    method Search() returns (cyclic: bool)
      requires Valid() && stack == [] && left == []
      requires forall i :: 0 <= i < color.Length ==> color[i].White?
      modifies this, color
      ensures cyclic ==> IsCycle(items, found)
      ensures !cyclic ==> IsWorkOrder(items, left)
    {
      hide Searching, IsCycle;
      for i := 0 to |items|
        invariant Valid() && stack == []
        invariant forall k: nat :: k < i ==> k in left
      {
        if color[i].White? {
          ghost var before := left;
          cyclic := Visit(i);
          if cyclic {
            return;
          }
          assert forall k :: k in before ==> k in left;
        } else {
          NoGrey(i);
          BlackIsLeft(i);
        }
      }
      AllGrounded();
      return false;
    }

    lemma NoGrey(i: nat)
      requires Valid() && stack == [] && i < |items|
      ensures !color[i].Grey?
    {
    }

    lemma AllGrounded()
      requires Valid()
      ensures Grounded(items, left)
    {
    }
  }

  // ------------------------------------------------ validation

  /** The circle reads in the order work would flow: each step comes after the one before it. */
  ghost predicate IsWorkCircle(items: seq<Item>, c: seq<nat>) {
    && c != []
    && (forall k :: 0 <= k < |c| ==> c[k] < |items|)
    && (forall k :: 0 < k < |c| ==> WaitsFor(items, c[k], c[k - 1]))
    && WaitsFor(items, c[0], c[|c| - 1])
  }

  function Reversed(s: seq<nat>): (r: seq<nat>)
    ensures |r| == |s| && forall i :: 0 <= i < |s| ==> r[i] == s[|s| - 1 - i]
  {
    seq(|s|, i requires 0 <= i < |s| => s[|s| - 1 - i])
  }

  lemma ReversedCycle(items: seq<Item>, c: seq<nat>)
    requires IsCycle(items, c)
    ensures IsWorkCircle(items, Reversed(c))
  {
    hide WaitsFor;
    var r := Reversed(c);
    forall k | 0 < k < |r| ensures WaitsFor(items, r[k], r[k - 1]) {
      assert WaitsFor(items, c[|c| - 1 - k], c[|c| - 1 - k + 1]);
    }
  }

  /** The swap loop that turns the found cycle round. */
  method ReverseFound(s: seq<nat>) returns (r: seq<nat>)
    ensures r == Reversed(s)
  {
    r := s;
    var lo, hi := 0, |s| - 1;
    while lo < hi
      invariant 0 <= lo && lo + hi == |s| - 1 && hi >= lo - 1 && |r| == |s|
      invariant forall i :: 0 <= i < lo || hi < i < |s| ==> r[i] == s[|s| - 1 - i]
      invariant forall i :: lo <= i <= hi ==> r[i] == s[i]
    {
      r := r[lo := r[hi]][hi := r[lo]];
      lo, hi := lo + 1, hi - 1;
    }
  }

  /** planCycle: one cycle, in work order, or nothing. */
  method PlanCycle(items: seq<Item>, byId: map<string, nat>) returns (cycle: seq<nat>, ghost order: seq<nat>)
    requires byId == IndexById(items)
    ensures cycle == [] ==> IsWorkOrder(items, order)
    ensures cycle != [] ==> IsWorkCircle(items, cycle)
  {
    var walk := new Walk(items, byId);
    var cyclic := walk.Search();
    order := walk.left;
    if cyclic {
      cycle := ReverseFound(walk.found);
      ReversedCycle(items, walk.found);
    } else {
      cycle := [];
    }
  }

  datatype Refusal =
    | DuplicateId(id: string, first: nat, second: nat)
    | UnknownId(step: nat, id: string)
    | Circle(steps: seq<nat>)
  {
    /** The refusal names steps that really are at fault. */
    ghost predicate Explains(items: seq<Item>) {
      match this
      case DuplicateId(id, first, second) =>
        first < second < |items| && id != "" && items[first].id == items[second].id == id
      case UnknownId(step, id) =>
        && step < |items| && id in items[step].after
        && forall i :: 0 <= i < |items| && items[i].id != "" ==> items[i].id != id
      case Circle(steps) => IsWorkCircle(items, steps)
    }
  }

  lemma RefusedIsNoDag(items: seq<Item>, r: Refusal)
    requires r.Explains(items)
    ensures !IsDag(items)
  {
    match r {
      case DuplicateId(_, _, _) =>
      case UnknownId(step, id) =>
        assert id !in IndexById(items);
      case Circle(steps) =>
        forall order | IsWorkOrder(items, order) ensures false {
          CircleIsCycle(items, steps);
          DagHasNoCycle(items, order, Reversed(steps));
        }
    }
  }

  lemma CircleIsCycle(items: seq<Item>, c: seq<nat>)
    requires IsWorkCircle(items, c)
    ensures IsCycle(items, Reversed(c))
  {
    hide WaitsFor;
    var r := Reversed(c);
    forall k | 0 <= k < |r| - 1 ensures WaitsFor(items, r[k], r[k + 1]) {
      assert WaitsFor(items, c[|c| - 1 - k], c[|c| - 1 - k - 1]);
    }
  }

  /** validatePlanGraph: nothing exactly when the plan is a DAG, otherwise steps at fault. */
  method ValidatePlanGraph(items: seq<Item>) returns (r: Option<Refusal>)
    ensures r.None? <==> IsDag(items)
    ensures r.Some? ==> r.value.Explains(items)
  {
    hide WaitsFor, IsWorkOrder, IsWorkCircle, KnownRefs, UniqueIds, IndexById;
    var seen;
    r, seen := DuplicateIn(items);
    if r.Some? {
      RefusedIsNoDag(items, r.value);
      return;
    }
    r := UnknownRef(items, seen);
    if r.Some? {
      RefusedIsNoDag(items, r.value);
      return;
    }
    var cycle, order := PlanCycle(items, seen);
    if cycle != [] {
      r := Some(Circle(cycle));
      RefusedIsNoDag(items, r.value);
      return;
    }
    return None;
  }

  /** The first loop of validatePlanGraph: the id table, unless an id is used twice. */
  method DuplicateIn(items: seq<Item>) returns (r: Option<Refusal>, seen: map<string, nat>)
    ensures r.None? <==> UniqueIds(items)
    ensures r.None? ==> seen == IndexById(items)
    ensures r.Some? ==> r.value.DuplicateId? && r.value.Explains(items)
  {
    hide IndexById, UniqueIds;
    seen := map[];
    EmptyTable(items);
    for i := 0 to |items|
      invariant seen == IndexById(items[..i]) && UniqueIds(items[..i])
    {
      TableStep(items, i);
      if items[i].id == "" {
        continue;
      }
      if items[i].id in seen {
        r := Some(DuplicateId(items[i].id, seen[items[i].id], i));
        return;
      }
      seen := seen[items[i].id := i];
    }
    assert items[..|items|] == items;
    r := None;
  }

  lemma EmptyTable(items: seq<Item>)
    ensures IndexById(items[..0]) == map[] && UniqueIds(items[..0])
  {
  }

  /** One more step in the table: it is still unique unless its id was there before. */
  lemma TableStep(items: seq<Item>, i: nat)
    requires i < |items| && UniqueIds(items[..i])
    ensures var id := items[i].id;
      var table := IndexById(items[..i]);
      && IndexById(items[..i + 1]) == (if id == "" then table else table[id := i])
      && (id == "" || id !in table ==> UniqueIds(items[..i + 1]))
      && (id != "" && id in table ==> !UniqueIds(items))
  {
    TableGrows(items, i);
    StillUnique(items, i);
    NotUnique(items, i);
  }

  lemma TableGrows(items: seq<Item>, i: nat)
    requires i < |items|
    ensures var table := IndexById(items[..i]);
      IndexById(items[..i + 1]) == if items[i].id == "" then table else table[items[i].id := i]
  {
    assert items[..i + 1][..i] == items[..i];
  }

  lemma StillUnique(items: seq<Item>, i: nat)
    requires i < |items| && UniqueIds(items[..i])
    ensures items[i].id == "" || items[i].id !in IndexById(items[..i]) ==> UniqueIds(items[..i + 1])
  {
    hide IndexById;
    var before, now := items[..i], items[..i + 1];
    assert forall k :: 0 <= k < i ==> before[k] == now[k];
  }

  lemma NotUnique(items: seq<Item>, i: nat)
    requires i < |items|
    ensures items[i].id != "" && items[i].id in IndexById(items[..i]) ==> !UniqueIds(items)
  {
    var table := IndexById(items[..i]);
    hide IndexById;
    if items[i].id != "" && items[i].id in table {
      assert items[table[items[i].id]] == items[..i][table[items[i].id]];
    }
  }

  /** The second loop of validatePlanGraph. */
  method UnknownRef(items: seq<Item>, seen: map<string, nat>) returns (r: Option<Refusal>)
    requires seen == IndexById(items)
    ensures r.None? <==> KnownRefs(items)
    ensures r.Some? ==> r.value.UnknownId? && r.value.Explains(items)
  {
    for i := 0 to |items|
      invariant forall k, m :: 0 <= k < i && 0 <= m < |items[k].after| ==> items[k].after[m] in seen
    {
      var deps := items[i].after;
      for d := 0 to |deps|
        invariant forall m :: 0 <= m < d ==> deps[m] in seen
      {
        if deps[d] !in seen {
          return Some(UnknownId(i, deps[d]));
        }
      }
    }
    return None;
  }
}
