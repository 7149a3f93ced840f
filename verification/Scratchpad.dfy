/** The plan store behind the scratchpad tools (pkg/agent/builtin_tools_scratchpad.go,
    pkg/agent/plan_store.go). */
module Scratchpad {
  import opened Options
  import opened PlanGraph
  import StableSort

  // ------------------------------------------------ readiness

  /** Step i still waits for an unfinished step. */
  ghost predicate Blocked(items: seq<Item>, i: nat) {
    exists j: nat :: j < |items| && WaitsFor(items, i, j) && !items[j].done
  }

  ghost predicate Ready(items: seq<Item>, i: nat) {
    i < |items| && !items[i].done && !Blocked(items, i)
  }

  ghost predicate OpenWait(items: seq<Item>, i: nat, j: nat) {
    j < |items| && WaitsFor(items, i, j) && !items[j].done
  }

  /** planOpenPredecessors: every unfinished step that step i waits for, in plan order. */
  method OpenPredecessors(items: seq<Item>, i: int) returns (open: seq<nat>)
    ensures forall j :: j in open <==> 0 <= i < |items| && OpenWait(items, i, j)
    ensures forall a, b :: 0 <= a < b < |open| ==> open[a] <= open[b]
    ensures 0 <= i < |items| ==> (open == [] <==> !Blocked(items, i))
  {
    if i < 0 || i >= |items| || |items[i].after| == 0 {
      open := [];
      if 0 <= i < |items| {
        AllListed(items, i, []);
      }
      return;
    }
    hide OpenWait, Blocked;
    open := NamedOpen(items, i);
    StableSort.SortOrders(open, Place);
    StableSort.SortKeeps(open, Place);
    ghost var named := open;
    open := StableSort.Sort(open, Place);
    forall j ensures j in open <==> j in named {
      assert j in multiset(open) <==> j in multiset(named);
    }
    BlockedByOpen(items, i, open);
  }

  function Place(j: nat): int {
    j
  }

  /** The loop of planOpenPredecessors: in the order the step names them. */
  method NamedOpen(items: seq<Item>, i: nat) returns (open: seq<nat>)
    requires i < |items|
    ensures forall j :: j in open <==> OpenWait(items, i, j)
  {
    hide WaitsFor, OpenWait;
    open := [];
    var byId := BuildIndex(items);
    var deps := items[i].after;
    for d := 0 to |deps|
      invariant forall j :: j in open ==> OpenWait(items, i, j)
      invariant forall e :: 0 <= e < d && deps[e] in byId && !items[byId[deps[e]]].done ==> byId[deps[e]] in open
    {
      if deps[d] in byId && !items[byId[deps[d]]].done {
        NamedWait(items, i, d);
        open := open + [byId[deps[d]]];
      }
    }
    AllListed(items, i, open);
  }

  lemma NamedWait(items: seq<Item>, i: nat, d: nat)
    requires i < |items| && d < |items[i].after| && items[i].after[d] in IndexById(items)
    requires !items[IndexById(items)[items[i].after[d]]].done
    ensures OpenWait(items, i, IndexById(items)[items[i].after[d]])
  {
  }

  lemma AllListed(items: seq<Item>, i: nat, open: seq<nat>)
    requires i < |items|
    requires forall e :: 0 <= e < |items[i].after| && items[i].after[e] in IndexById(items) ==>
      (items[IndexById(items)[items[i].after[e]]].done || IndexById(items)[items[i].after[e]] in open)
    ensures forall j: nat :: OpenWait(items, i, j) ==> j in open
  {
    hide IndexById;
  }

  lemma BlockedMeansOpen(items: seq<Item>, i: nat)
    ensures Blocked(items, i) ==> exists j: nat :: OpenWait(items, i, j)
  {
    hide WaitsFor;
    if Blocked(items, i) {
      var j: nat :| j < |items| && WaitsFor(items, i, j) && !items[j].done;
      assert OpenWait(items, i, j);
    }
  }

  lemma BlockedByOpen(items: seq<Item>, i: nat, open: seq<nat>)
    requires forall j :: j in open <==> OpenWait(items, i, j)
    ensures open == [] <==> !Blocked(items, i)
  {
    hide WaitsFor;
    if open != [] {
      assert open[0] in open;
    }
    BlockedMeansOpen(items, i);
  }

  /** planIndexByID. */
  method BuildIndex(items: seq<Item>) returns (byId: map<string, nat>)
    ensures byId == IndexById(items)
  {
    byId := map[];
    for i := 0 to |items|
      invariant byId == IndexById(items[..i])
    {
      TableGrows(items, i);
      if items[i].id != "" {
        byId := byId[items[i].id := i];
      }
    }
    assert items[..|items|] == items;
  }

  /** planReadySteps: exactly the steps that can be worked on, in list order. */
  method ReadySteps(items: seq<Item>) returns (ready: seq<nat>)
    ensures forall i: nat :: i in ready <==> Ready(items, i)
    ensures forall k, m :: 0 <= k < m < |ready| ==> ready[k] < ready[m]
  {
    hide Blocked;
    ready := [];
    for i := 0 to |items|
      invariant forall k: nat :: k in ready <==> k < i && Ready(items, k)
      invariant forall k, m :: 0 <= k < m < |ready| ==> ready[k] < ready[m]
    {
      if items[i].done {
        continue;
      }
      var open := OpenPredecessors(items, i);
      if open == [] {
        assert forall m :: 0 <= m < |ready| ==> ready[m] in ready;
        ready := ready + [i];
      }
    }
  }

  // ------------------------------------------------ what a stored plan keeps

  /** A finished step has all it waits for finished. */
  ghost predicate DoneClosed(items: seq<Item>) {
    forall i: nat, j: nat :: i < |items| && items[i].done && j < |items| && WaitsFor(items, i, j) ==> items[j].done
  }

  ghost predicate Sound(items: seq<Item>) {
    IsDag(items) && DoneClosed(items)
  }

  /** Ready by the names: open, and everything it comes after is finished. In a sound plan
      everything a finished step comes after is finished. */
  lemma ReadyMeaning(items: seq<Item>, i: nat)
    requires i < |items|
    ensures Ready(items, i) <==> !items[i].done && forall j: nat :: ComesAfter(items, i, j) ==> items[j].done
    ensures Sound(items) && items[i].done ==> forall j: nat :: ComesAfter(items, i, j) ==> items[j].done
  {
    hide WaitsFor, ComesAfter, IsDag;
    forall j: nat
      ensures WaitsFor(items, i, j) <==> ComesAfter(items, i, j)
      ensures ComesAfter(items, i, j) ==> j < |items|
    {
      WaitsMeaning(items, i, j);
      AfterIsStep(items, i, j);
    }
  }

  lemma AfterIsStep(items: seq<Item>, i: nat, j: nat)
    ensures ComesAfter(items, i, j) ==> j < |items|
  {
  }

  /** Any plan with an unfinished step has a ready one. */
  lemma SomethingIsReady(items: seq<Item>)
    requires IsDag(items) && exists i: nat :: i < |items| && !items[i].done
    ensures exists i :: Ready(items, i)
  {
    hide WaitsFor;
    var order :| IsWorkOrder(items, order);
    var i: nat :| i < |items| && !items[i].done;
    var p := FirstOpen(items, order, FirstAt(order, i));
    assert Ready(items, order[p]) by {
      forall j: nat | j < |items| && WaitsFor(items, order[p], j) ensures items[j].done {
        assert j in order[..p];
      }
    }
  }

  lemma {:induction false} FirstOpen(items: seq<Item>, order: seq<nat>, upTo: nat) returns (p: nat)
    requires upTo < |order| && forall k :: 0 <= k < |order| ==> order[k] < |items|
    requires !items[order[upTo]].done
    ensures p <= upTo && !items[order[p]].done
    ensures forall j :: j in order[..p] ==> items[j].done
  {
    p := upTo;
    if k: nat :| k < upTo && !items[order[k]].done {
      p := FirstOpen(items, order, k);
    }
  }

  /** The same graph: same ids, same predecessors. */
  ghost predicate SameGraph(a: seq<Item>, b: seq<Item>) {
    |a| == |b| && forall i :: 0 <= i < |a| ==> a[i].id == b[i].id && a[i].after == b[i].after
  }

  lemma {:induction false} SameGraphSameIndex(a: seq<Item>, b: seq<Item>)
    requires SameGraph(a, b)
    ensures IndexById(a) == IndexById(b)
  {
    if a != [] {
      SameGraphSameIndex(a[..|a| - 1], b[..|b| - 1]);
    }
  }

  lemma SameGraphSameWaits(a: seq<Item>, b: seq<Item>)
    requires SameGraph(a, b)
    ensures forall i, j :: WaitsFor(a, i, j) <==> WaitsFor(b, i, j)
  {
    SameGraphSameIndex(a, b);
    hide IndexById;
  }

  lemma SameGraphSameDag(a: seq<Item>, b: seq<Item>)
    requires SameGraph(a, b) && IsDag(a)
    ensures IsDag(b)
  {
    SameGraphSameIndex(a, b);
    SameGraphSameWaits(a, b);
    hide WaitsFor, IndexById;
    var order :| IsWorkOrder(a, order);
    assert IsWorkOrder(b, order);
  }

  /** A plan with step i checked. */
  function Checked(items: seq<Item>, i: nat, note: string): seq<Item>
    requires i < |items|
  {
    items[i := items[i].(done := true, note := if note == "" then items[i].note else note)]
  }

  lemma CheckKeepsSound(items: seq<Item>, i: nat, note: string)
    requires Sound(items) && i < |items| && !Blocked(items, i)
    ensures Sound(Checked(items, i, note))
  {
    var after := Checked(items, i, note);
    hide WaitsFor;
    SameGraphSameWaits(items, after);
    hide IsDag;
    SameGraphSameDag(items, after);
  }

  function Fresh(items: seq<Item>): (r: seq<Item>)
    ensures |r| == |items|
  {
    seq(|items|, i requires 0 <= i < |items| => items[i].(done := false, note := ""))
  }

  lemma FreshIsSound(items: seq<Item>)
    ensures IsDag(Fresh(items)) <==> IsDag(items)
    ensures DoneClosed(Fresh(items))
  {
    hide WaitsFor, IsDag;
    if IsDag(items) {
      SameGraphSameDag(items, Fresh(items));
    }
    if IsDag(Fresh(items)) {
      SameGraphSameDag(Fresh(items), items);
    }
  }

  lemma ExplainsByGraph(a: seq<Item>, b: seq<Item>, r: Refusal)
    requires SameGraph(a, b) && r.Explains(a)
    ensures r.Explains(b)
  {
    SameGraphSameWaits(a, b);
    hide WaitsFor;
  }

  function TextOnly(texts: seq<string>): (r: seq<Item>)
    ensures |r| == |texts|
  {
    seq(|texts|, i requires 0 <= i < |texts| => Item(texts[i], false, "", "", []))
  }

  lemma TextOnlyIsSound(texts: seq<string>)
    ensures Sound(TextOnly(texts))
  {
    var items := TextOnly(texts);
    var order: seq<nat> := seq(|texts|, i requires 0 <= i < |texts| => i);
    forall i: nat | i < |items| ensures i in order {
      assert order[i] == i;
    }
    assert forall i, j :: !WaitsFor(items, i, j);
    assert IsWorkOrder(items, order);
  }

  lemma IndexPrefix(items: seq<Item>, step: Item, id: string)
    requires UniqueIds(items + [step])
    ensures id in IndexById(items) ==>
            id in IndexById(items + [step]) && IndexById(items + [step])[id] == IndexById(items)[id]
  {
    var next := items + [step];
    assert next[..|items|] == items;
    if id in IndexById(items) {
      var at := IndexById(items)[id];
      assert next[at].id == id;
    }
  }

  /** Appending an unfinished step to a closed plan leaves it closed, if the result is a DAG. */
  lemma AppendKeepsClosed(items: seq<Item>, step: Item)
    requires Sound(items) && IsDag(items + [step]) && !step.done
    ensures DoneClosed(items + [step])
  {
    var next := items + [step];
    forall i: nat, j: nat | i < |next| && next[i].done && j < |next| && WaitsFor(next, i, j)
      ensures next[j].done
    {
      assert next[i] == items[i];
      var k :| 0 <= k < |next[i].after| && next[i].after[k] in IndexById(next)
        && IndexById(next)[next[i].after[k]] == j;
      assert items[i].after[k] in IndexById(items);
      IndexPrefix(items, step, items[i].after[k]);
      assert WaitsFor(items, i, j);
      assert next[j] == items[j];
    }
  }

  // ------------------------------------------------ finishing a plan

  /** Check one step after the other, each ready when its turn comes. */
  ghost predicate ReadyChecks(items: seq<Item>, checks: seq<nat>)
    decreases checks
  {
    checks == [] || (Ready(items, checks[0]) && ReadyChecks(Checked(items, checks[0], ""), checks[1..]))
  }

  function AfterChecks(items: seq<Item>, checks: seq<nat>): (r: seq<Item>)
    ensures |r| == |items|
    decreases checks
  {
    if checks == [] || checks[0] >= |items| then items
    else AfterChecks(Checked(items, checks[0], ""), checks[1..])
  }

  function OpenCount(items: seq<Item>): (n: nat)
    ensures n == 0 <==> forall i :: 0 <= i < |items| ==> items[i].done
  {
    if items == [] then 0
    else OpenCount(items[..|items| - 1]) + if items[|items| - 1].done then 0 else 1
  }

  lemma {:induction false} CheckClosesOne(items: seq<Item>, i: nat, note: string)
    requires i < |items| && !items[i].done
    ensures OpenCount(Checked(items, i, note)) == OpenCount(items) - 1
  {
    var n := |items| - 1;
    var after := Checked(items, i, note);
    if i == n {
      assert after[..n] == items[..n];
    } else {
      assert after[..n] == Checked(items[..n], i, note);
      CheckClosesOne(items[..n], i, note);
    }
  }

  /** Checking ready steps in any order at all never gets stuck and finishes the plan in
      exactly as many checks as there were open steps. */
  lemma {:induction false} AnyReadyOrderFinishes(items: seq<Item>, checks: seq<nat>)
    requires Sound(items) && ReadyChecks(items, checks)
    ensures var end := AfterChecks(items, checks);
      && Sound(end)
      && OpenCount(end) == OpenCount(items) - |checks|
      && (|checks| < OpenCount(items) ==> exists i :: Ready(end, i))
      && (|checks| == OpenCount(items) <==> forall i :: 0 <= i < |end| ==> end[i].done)
    decreases checks
  {
    hide IsDag, DoneClosed;
    if checks == [] {
      if OpenCount(items) > 0 {
        SomethingIsReady(items);
      }
    } else {
      CheckKeepsSound(items, checks[0], "");
      CheckClosesOne(items, checks[0], "");
      AnyReadyOrderFinishes(Checked(items, checks[0], ""), checks[1..]);
    }
  }

  // ------------------------------------------------ the store

  datatype CheckReply = Accepted | OutOfRange | MustWaitFor(open: seq<nat>)

  /** scratchpadManager. `disk` is the PlanStore behind it; whether a read or a write of
      it succeeds is decided outside (`loadOk`, `saveOk`), and a failure is swallowed. */
  class Manager {
    const hasStore: bool
    var lists: map<string, seq<Item>>
    var loaded: set<string>
    var disk: map<string, seq<Item>>

    ghost predicate Valid()
      reads this
    {
      && (forall k :: k in lists ==> Sound(lists[k]))
      && (forall k :: k in disk ==> Sound(disk[k]))
      && lists.Keys <= loaded
    }

    function ListOf(key: string): seq<Item>
      reads this
    {
      if key in lists then lists[key] else []
    }

    /** The list an operation on `key` finds, given how a read of the store would go. */
    function Found(key: string, loadOk: bool): seq<Item>
      reads this
    {
      if key !in loaded && hasStore && loadOk && key in disk && disk[key] != [] then disk[key] else ListOf(key)
    }

    /** The plan a reader sees. */
    function Plan(key: string): seq<Item>
      reads this
    {
      Found(key, true)
    }

    /** The first touch of a key marks it loaded before the store is read, and a failed
        read is swallowed. So an operation finds the plan there is unless it is the one
        that reads a stored plan, and that read fails. */
    predicate FindsPlan(key: string, loadOk: bool)
      reads this
    {
      loadOk || key in loaded || !hasStore || key !in disk || disk[key] == []
    }

    lemma FindsPlanIff(key: string, loadOk: bool)
      requires Valid()
      ensures Found(key, loadOk) == Plan(key) <==> FindsPlan(key, loadOk)
      ensures !FindsPlan(key, loadOk) ==> Found(key, loadOk) == [] && Plan(key) == disk[key] != []
    {
      hide Sound;
    }

    /** A host may have seeded the store, with sound plans. */
    constructor (hasStore: bool, disk: map<string, seq<Item>>)
      requires forall k :: k in disk ==> Sound(disk[k])
      ensures Valid() && this.hasStore == hasStore && this.disk == disk && lists == map[] && loaded == {}
    {
      this.hasStore, this.disk := hasStore, disk;
      lists, loaded := map[], {};
    }

    lemma FoundIsSound(key: string, loadOk: bool)
      requires Valid()
      ensures Sound(Found(key, loadOk))
    {
      hide Sound;
      TextOnlyIsSound([]);
      assert TextOnly([]) == [];
    }

    method EnsureLoaded(key: string, loadOk: bool)
      requires Valid()
      modifies this`lists, this`loaded
      ensures Valid() && loaded == old(loaded) + {key} && ListOf(key) == old(Found(key, loadOk))
      ensures lists == if key !in old(loaded) && hasStore && loadOk && key in disk && disk[key] != []
                       then old(lists)[key := disk[key]] else old(lists)
      ensures Plan(key) == old(Plan(key)) <==> old(FindsPlan(key, loadOk))
      ensures forall k :: k != key ==> Plan(k) == old(Plan(k))
    {
      hide Sound;
      FindsPlanIff(key, loadOk);
      if key in loaded {
        return;
      }
      loaded := loaded + {key};
      if hasStore && loadOk && key in disk && disk[key] != [] {
        lists := lists[key := disk[key]];
      }
    }

    method StorePlan(key: string, list: seq<Item>, saveOk: bool)
      requires Valid() && Sound(list)
      modifies this
      ensures Valid() && Plan(key) == list
      ensures loaded == old(loaded) + {key} && lists == old(lists)[key := list]
      ensures disk == if hasStore && saveOk then old(disk)[key := list] else old(disk)
      ensures forall k :: k != key ==> Plan(k) == old(Plan(k))
    {
      hide Sound;
      loaded := loaded + {key};
      lists := lists[key := list];
      if hasStore && saveOk {
        disk := disk[key := list];
      }
    }

    /** set: a flat checklist is always accepted. */
    method SetItems(key: string, texts: seq<string>, saveOk: bool)
      requires Valid()
      modifies this
      ensures Valid() && Plan(key) == TextOnly(texts)
      ensures |Plan(key)| == |texts| && forall i :: 0 <= i < |texts| ==>
        Plan(key)[i].text == texts[i] && !Plan(key)[i].done && Plan(key)[i].note == ""
        && Plan(key)[i].id == "" && Plan(key)[i].after == []
      ensures loaded == old(loaded) + {key} && lists == old(lists)[key := Plan(key)]
      ensures disk == if hasStore && saveOk then old(disk)[key := Plan(key)] else old(disk)
      ensures forall k :: k != key ==> Plan(k) == old(Plan(k))
    {
      hide Sound, IsDag;
      TextOnlyIsSound(texts);
      StorePlan(key, TextOnly(texts), saveOk);
    }

    /** setSteps: replaces the plan exactly when the new one is a DAG, and otherwise
        leaves everything as it was. */
    method SetSteps(key: string, steps: seq<Item>, saveOk: bool) returns (refusal: Option<Refusal>)
      requires Valid()
      modifies this
      ensures Valid()
      ensures refusal.None? <==> IsDag(steps)
      ensures refusal.None? ==> Plan(key) == Fresh(steps)
      ensures refusal.None? ==> |Plan(key)| == |steps| && forall i :: 0 <= i < |steps| ==>
        Plan(key)[i].text == steps[i].text && Plan(key)[i].id == steps[i].id && Plan(key)[i].after == steps[i].after
        && !Plan(key)[i].done && Plan(key)[i].note == ""
      ensures refusal.None? ==> loaded == old(loaded) + {key} && lists == old(lists)[key := Plan(key)]
      ensures refusal.None? ==> disk == if hasStore && saveOk then old(disk)[key := Plan(key)] else old(disk)
      ensures refusal.Some? ==> refusal.value.Explains(steps) && unchanged(this)
      ensures forall k :: k != key ==> Plan(k) == old(Plan(k))
    {
      hide IsDag, DoneClosed;
      var list := Fresh(steps);
      FreshIsSound(steps);
      refusal := ValidatePlanGraph(list);
      if refusal.None? {
        StorePlan(key, list, saveOk);
      } else {
        ExplainsByGraph(list, steps, refusal.value);
      }
    }

    /** addStep. Whether the plan there was survives, on a refusal as it was and on
        acceptance with the step behind it, depends on the first read alone; and so does
        what is stored, unless nothing is written. */
    method AddStep(key: string, step: Item, loadOk: bool, saveOk: bool) returns (refusal: Option<Refusal>)
      requires Valid()
      modifies this
      ensures Valid()
      ensures refusal.None? <==> IsDag(old(Found(key, loadOk)) + [step.(done := false, note := "")])
      ensures refusal.None? ==> Plan(key) == old(Found(key, loadOk)) + [step.(done := false, note := "")]
      ensures refusal.None? ==> disk == if hasStore && saveOk then old(disk)[key := Plan(key)] else old(disk)
      ensures refusal.Some? ==> Plan(key) == old(Found(key, loadOk)) && disk == old(disk)
      ensures refusal.Some? ==> refusal.value.Explains(old(Found(key, loadOk)) + [step.(done := false, note := "")])
      ensures refusal.Some? ==> (Plan(key) == old(Plan(key)) <==> old(FindsPlan(key, loadOk)))
      ensures refusal.None? ==>
        (Plan(key) == old(Plan(key)) + [step.(done := false, note := "")] <==> old(FindsPlan(key, loadOk)))
      ensures refusal.None? && hasStore && key !in old(loaded) && key in old(disk) ==>
        (old(disk)[key] <= disk[key] <==>
          old(FindsPlan(key, loadOk)) || !saveOk || old(disk)[key] == [step.(done := false, note := "")])
      ensures forall k :: k != key ==> Plan(k) == old(Plan(k))
    {
      hide IsDag, DoneClosed;
      FoundIsSound(key, loadOk);
      FindsPlanIff(key, loadOk);
      EnsureLoaded(key, loadOk);
      var added := step.(done := false, note := "");
      var next := ListOf(key) + [added];
      refusal := ValidatePlanGraph(next);
      if refusal.None? {
        AppendKeepsClosed(ListOf(key), added);
        StorePlan(key, next, saveOk);
      }
    }

    /** check: marks a step exactly when it exists and nothing it waits for is open. */
    method Check(key: string, index: int, note: string, loadOk: bool, saveOk: bool) returns (r: CheckReply)
      requires Valid()
      modifies this
      ensures Valid()
      ensures var plan := old(Found(key, loadOk));
        && (r.OutOfRange? <==> !(0 <= index < |plan|))
        && (r.Accepted? <==> 0 <= index < |plan| && !Blocked(plan, index))
        && (r.Accepted? ==> Plan(key) == Checked(plan, index, note))
        && (r.Accepted? ==> |Plan(key)| == |plan| && forall i :: 0 <= i < |plan| && i != index ==>
             Plan(key)[i] == plan[i])
        && (r.Accepted? ==> Plan(key)[index].done && Plan(key)[index].text == plan[index].text)
        && (r.Accepted? ==> Plan(key)[index].id == plan[index].id && Plan(key)[index].after == plan[index].after)
        && (r.Accepted? ==> Plan(key)[index].note == if note != "" then note else plan[index].note)
        && (r.Accepted? ==> disk == if hasStore && saveOk then old(disk)[key := Plan(key)] else old(disk))
        && (r.Accepted? ==> old(FindsPlan(key, loadOk)))
        && (!r.Accepted? ==> (Plan(key) == old(Plan(key)) <==> old(FindsPlan(key, loadOk))))
        && (!r.Accepted? ==> Plan(key) == plan && disk == old(disk))
        && (r.MustWaitFor? ==> r.open != [])
        && (r.MustWaitFor? ==> forall j :: j in r.open ==> WaitsFor(plan, index, j) && j < |plan| && !plan[j].done)
      ensures forall k :: k != key ==> Plan(k) == old(Plan(k))
    {
      hide IsDag, DoneClosed, Blocked, WaitsFor;
      FoundIsSound(key, loadOk);
      FindsPlanIff(key, loadOk);
      EnsureLoaded(key, loadOk);
      var list := ListOf(key);
      if index < 0 || index >= |list| {
        return OutOfRange;
      }
      var open := OpenPredecessors(list, index);
      if open != [] {
        return MustWaitFor(open);
      }
      CheckKeepsSound(list, index, note);
      StorePlan(key, Checked(list, index, note), saveOk);
      return Accepted;
    }

    /** note: says where a step has got to and claims nothing about it. */
    method Note(key: string, index: int, note: string, loadOk: bool, saveOk: bool) returns (ok: bool)
      requires Valid()
      modifies this
      ensures Valid()
      ensures var plan := old(Found(key, loadOk));
        && (ok <==> 0 <= index < |plan|)
        && Plan(key) == (if ok then plan[index := plan[index].(note := note)] else plan)
        && (ok ==> disk == if hasStore && saveOk then old(disk)[key := Plan(key)] else old(disk))
        && (ok ==> old(FindsPlan(key, loadOk)))
        && (!ok ==> disk == old(disk) && (Plan(key) == old(Plan(key)) <==> old(FindsPlan(key, loadOk))))
      ensures forall k :: k != key ==> Plan(k) == old(Plan(k))
    {
      hide IsDag, DoneClosed;
      FoundIsSound(key, loadOk);
      FindsPlanIff(key, loadOk);
      EnsureLoaded(key, loadOk);
      var list := ListOf(key);
      if index < 0 || index >= |list| {
        return false;
      }
      var next := list[index := list[index].(note := note)];
      NoteKeepsSound(list, index, note);
      StorePlan(key, next, saveOk);
      return true;
    }

    /** get. */
    method Get(key: string, loadOk: bool) returns (list: seq<Item>)
      requires Valid()
      modifies this`lists, this`loaded
      ensures Valid() && list == old(Found(key, loadOk)) && Plan(key) == list
      ensures list == if key !in old(loaded) && hasStore && loadOk && key in disk && disk[key] != [] then disk[key]
                      else if key in old(lists) then old(lists)[key] else []
      ensures list == old(Plan(key)) <==> old(FindsPlan(key, loadOk))
      ensures forall k :: k != key ==> Plan(k) == old(Plan(k))
    {
      FindsPlanIff(key, loadOk);
      EnsureLoaded(key, loadOk);
      list := ListOf(key);
    }
  }

  lemma NoteKeepsSound(items: seq<Item>, i: nat, note: string)
    requires Sound(items) && i < |items|
    ensures Sound(items[i := items[i].(note := note)])
  {
    var after := items[i := items[i].(note := note)];
    hide WaitsFor, IsDag;
    SameGraphSameWaits(items, after);
    SameGraphSameDag(items, after);
  }

  // ------------------------------------------------ a failed first read

  const STORED := Item("write it", false, "", "a", [])
  const AFTER_IT := Item("test it", false, "", "b", ["a"])
  const FREE := Item("ship it", false, "", "c", [])

  lemma StoredIsSound()
    ensures Sound([STORED])
  {
    hide IsDag, WaitsFor;
    SingleIsDag(STORED);
    FreshIsSound([STORED]);
    assert Fresh([STORED]) == [STORED];
  }

  lemma SingleIsDag(item: Item)
    requires item.after == []
    ensures IsDag([item])
  {
    var order: seq<nat> := [0];
    assert [item][..0] == [];
    assert IsWorkOrder([item], order);
  }

  lemma WaitsForNothingThere()
    ensures !IsDag([AFTER_IT])
  {
    assert [AFTER_IT][..0] == [];
    assert "a" !in IndexById([AFTER_IT]);
    assert [AFTER_IT][0].after[0] == "a";
  }

  /** One step "a" is stored. Its first read fails, so a step after "a" is refused and the
      plan is gone for every later reader, whether or not the store has recovered; the
      next step that needs nothing is accepted and takes the stored plan's place. */
  method FailedReadLosesThePlan() returns (
      before: seq<Item>, refused: bool, seen: seq<Item>, accepted: bool, stored: seq<Item>)
    ensures before == [STORED] && refused && seen == []
    ensures accepted && stored == [FREE]
  {
    hide IsDag, Sound;
    StoredIsSound();
    WaitsForNothingThere();
    SingleIsDag(FREE);
    var m := new Manager(true, map["k" := [STORED]]);
    before := m.Plan("k");
    assert [] + [AFTER_IT] == [AFTER_IT] && [] + [FREE] == [FREE];
    var refusal := m.AddStep("k", AFTER_IT, false, true);
    refused := refusal.Some?;
    seen := m.Get("k", true);
    refusal := m.AddStep("k", FREE, true, true);
    accepted := refusal.None?;
    stored := if "k" in m.disk then m.disk["k"] else [];
  }
}
