/** The ordered hook registry (pkg/agent/hooks.go). Handlers and matchers are functions of
    the event and the data; an uuid is an id nothing else carries. */
module Hooks {
  import opened Options
  import opened StableSort

  /** What a handler gives back: an error, new data, or anything else. */
  datatype Reply<D> = Refused(error: string) | Changed(data: D) | Kept

  class Hook<D> {
    const id: string
    const event: string
    const priority: int
    const handler: (string, D) -> Reply<D>
    const matcher: Option<(string, D) -> bool>
    var enabled: bool

    constructor (id: string, event: string, priority: int, handler: (string, D) -> Reply<D>,
                 matcher: Option<(string, D) -> bool>, enabled: bool)
      ensures this.id == id && this.event == event && this.priority == priority
      ensures this.handler == handler && this.matcher == matcher && this.enabled == enabled
    {
      this.id, this.event, this.priority := id, event, priority;
      this.handler, this.matcher, this.enabled := handler, matcher, enabled;
    }

    predicate Runs(e: string, data: D)
      reads this
    {
      enabled && (matcher.Some? ==> matcher.value(e, data))
    }
  }

  function Priority<D>(h: Hook<D>): int {
    h.priority
  }

  // ------------------------------------------------ what the lists should hold

  function ForEvent<D>(hs: seq<Hook<D>>, e: string): seq<Hook<D>> {
    if hs == [] then []
    else if hs[|hs| - 1].event == e then ForEvent(hs[..|hs| - 1], e) + [hs[|hs| - 1]]
    else ForEvent(hs[..|hs| - 1], e)
  }

  function Without<D>(hs: seq<Hook<D>>, id: string): seq<Hook<D>> {
    if hs == [] then []
    else if hs[|hs| - 1].id == id then Without(hs[..|hs| - 1], id)
    else Without(hs[..|hs| - 1], id) + [hs[|hs| - 1]]
  }

  ghost predicate OneId<D>(hs: seq<Hook<D>>) {
    forall i, j :: 0 <= i < j < |hs| ==> hs[i].id != hs[j].id
  }

  ghost predicate AllFiled<D>(hs: seq<Hook<D>>, events: set<string>) {
    forall i :: 0 <= i < |hs| && hs[i].event != "" ==> hs[i].event in events
  }

  predicate Known<D>(hs: seq<Hook<D>>, id: string) {
    exists i :: 0 <= i < |hs| && hs[i].id == id
  }

  function Line<D>(registered: seq<Hook<D>>, e: string): seq<Hook<D>> {
    Sort(ForEvent(registered, e), Priority)
  }

  /** Where one hook carries the id, leaving it out takes out exactly that hook and
      keeps the others in their order. */
  lemma {:induction false} TakesOutOne<D>(hs: seq<Hook<D>>, id: string, i: nat)
    requires OneId(hs) && i < |hs| && hs[i].id == id
    ensures Without(hs, id) == hs[..i] + hs[i + 1..]
  {
    var front := hs[..|hs| - 1];
    if i == |hs| - 1 {
      NothingToTakeOut(front, id);
    } else {
      TakesOutOne(front, id, i);
    }
  }

  lemma {:induction false} NothingToTakeOut<D>(hs: seq<Hook<D>>, id: string)
    requires !Known(hs, id)
    ensures Without(hs, id) == hs
  {
    if hs != [] {
      var front := hs[..|hs| - 1];
      assert hs[|hs| - 1].id != id;
      NothingToTakeOut(front, id);
      assert hs == front + [hs[|hs| - 1]];
    }
  }

  lemma {:induction false} WithoutFacts<D>(hs: seq<Hook<D>>, id: string)
    requires OneId(hs)
    ensures OneId(Without(hs, id)) && !Known(Without(hs, id), id)
    ensures forall events :: AllFiled(hs, events) ==> AllFiled(Without(hs, id), events)
  {
    if i: nat :| i < |hs| && hs[i].id == id {
      TakesOutOne(hs, id, i);
    } else {
      NothingToTakeOut(hs, id);
    }
  }

  lemma NewId<D>(hs: seq<Hook<D>>, x: Hook<D>)
    ensures OneId(hs + [x]) <==> OneId(hs) && forall h :: h in hs ==> h.id != x.id
  {
    var t := hs + [x];
    assert forall i :: 0 <= i < |hs| ==> t[i] == hs[i] && hs[i] in hs;
    assert t[|hs|] == x;
    forall h | OneId(t) && h in hs ensures h.id != x.id {
      var i :| 0 <= i < |hs| && hs[i] == h;
      assert t[i].id != t[|hs|].id;
    }
    if OneId(t) {
      forall i, j | 0 <= i < j < |hs| ensures hs[i].id != hs[j].id {
        assert t[i].id != t[j].id;
      }
    }
  }

  lemma {:induction false} ForEventFacts<D>(hs: seq<Hook<D>>, e: string)
    ensures forall h :: h in ForEvent(hs, e) ==> h in hs && h.event == e
    ensures forall h :: h in hs && h.event == e ==> h in ForEvent(hs, e)
    ensures OneId(hs) ==> OneId(ForEvent(hs, e))
  {
    if hs != [] {
      var front := hs[..|hs| - 1];
      ForEventFacts(front, e);
      assert hs == front + [hs[|hs| - 1]];
      NewId(front, hs[|hs| - 1]);
      NewId(ForEvent(front, e), hs[|hs| - 1]);
    }
  }

  lemma {:induction false} LineFacts<D>(registered: seq<Hook<D>>, e: string)
    ensures forall h :: h in Line(registered, e) ==> h in registered && h.event == e
    ensures forall h :: h in registered && h.event == e ==> h in Line(registered, e)
    ensures OneId(registered) ==> OneId(Line(registered, e))
  {
    ForEventFacts(registered, e);
    SortFacts(ForEvent(registered, e));
  }

  lemma {:induction false} SortFacts<D>(hs: seq<Hook<D>>)
    ensures forall h :: h in Sort(hs, Priority) ==> h in hs
    ensures forall h :: h in hs ==> h in Sort(hs, Priority)
    ensures OneId(hs) ==> OneId(Sort(hs, Priority))
  {
    if hs != [] {
      var front, last := hs[..|hs| - 1], hs[|hs| - 1];
      SortFacts(front);
      assert hs == front + [last];
      InsertFacts(Sort(front, Priority), last);
      NewId(front, last);
    }
  }

  lemma {:induction false} InsertFacts<D>(hs: seq<Hook<D>>, x: Hook<D>)
    ensures x in Insert(hs, x, Priority) && forall h :: h in hs ==> h in Insert(hs, x, Priority)
    ensures forall h :: h in Insert(hs, x, Priority) ==> h in hs || h == x
    ensures OneId(hs) && (forall h :: h in hs ==> h.id != x.id) ==> OneId(Insert(hs, x, Priority))
  {
    if hs == [] || Priority(hs[|hs| - 1]) <= Priority(x) {
      NewId(hs, x);
      assert Insert(hs, x, Priority) == hs + [x];
    } else {
      var front, last := hs[..|hs| - 1], hs[|hs| - 1];
      assert hs == front + [last];
      InsertFacts(front, x);
      NewId(front, last);
      NewId(Insert(front, x, Priority), last);
    }
  }

  lemma {:induction false} ForEventCommutes<D>(hs: seq<Hook<D>>, e: string, id: string)
    ensures ForEvent(Without(hs, id), e) == Without(ForEvent(hs, e), id)
  {
    if hs != [] {
      var front, last := hs[..|hs| - 1], hs[|hs| - 1];
      ForEventCommutes(front, e, id);
      assert (Without(front, id) + [last])[..|Without(front, id)|] == Without(front, id);
      assert (ForEvent(front, e) + [last])[..|ForEvent(front, e)|] == ForEvent(front, e);
    }
  }

  lemma {:induction false} TiedCommutes<D>(hs: seq<Hook<D>>, id: string, r: int)
    ensures Tied(Without(hs, id), Priority, r) == Without(Tied(hs, Priority, r), id)
  {
    if hs != [] {
      var front, last := hs[..|hs| - 1], hs[|hs| - 1];
      TiedCommutes(front, id, r);
      assert (Without(front, id) + [last])[..|Without(front, id)|] == Without(front, id);
      assert (Tied(front, Priority, r) + [last])[..|Tied(front, Priority, r)|] == Tied(front, Priority, r);
    }
  }

  lemma {:induction false} WithoutOrdered<D>(hs: seq<Hook<D>>, id: string)
    requires Ordered(hs, Priority)
    ensures Ordered(Without(hs, id), Priority)
    ensures forall h :: h in Without(hs, id) ==> h in hs
  {
    if hs != [] {
      WithoutOrdered(hs[..|hs| - 1], id);
      forall h | h in hs[..|hs| - 1] ensures Priority(h) <= Priority(hs[|hs| - 1]) {
      }
    }
  }

  /** Taking a hook out of the sorted list, or out of the log before sorting: the same. */
  lemma UnregisteredLine<D>(registered: seq<Hook<D>>, e: string, id: string)
    ensures Line(Without(registered, id), e) == Without(Line(registered, e), id)
  {
    hide Tied, Sort, Without, ForEvent, Ordered;
    var s := ForEvent(registered, e);
    ForEventCommutes(registered, e, id);
    SortOrders(s, Priority);
    SortOrders(Without(s, id), Priority);
    WithoutOrdered(Sort(s, Priority), id);
    forall r
      ensures Tied(Sort(Without(s, id), Priority), Priority, r) == Tied(Without(Sort(s, Priority), id), Priority, r)
    {
      SortIsStable(Without(s, id), Priority, r);
      SortIsStable(s, Priority, r);
      TiedCommutes(s, id, r);
      TiedCommutes(Sort(s, Priority), id, r);
    }
    OnlyOneStableSort(Sort(Without(s, id), Priority), Without(Sort(s, Priority), id), Priority);
  }

  /** The one hook that carries the id leaves its own list and no other changes. */
  lemma LeavesItsLine<D>(registered: seq<Hook<D>>, e: string, i: nat)
    requires OneId(registered) && i < |Line(registered, e)|
    ensures var id := Line(registered, e)[i].id;
      && Known(registered, id)
      && Line(Without(registered, id), e) == Line(registered, e)[..i] + Line(registered, e)[i + 1..]
      && forall f :: f != e ==> Line(Without(registered, id), f) == Line(registered, f)
  {
    hide Line, Without;
    LineFacts(registered, e);
    var h := Line(registered, e)[i];
    assert h in Line(registered, e);
    TakesOutOne(Line(registered, e), h.id, i);
    UnregisteredLine(registered, e, h.id);
    forall f | f != e ensures Line(Without(registered, h.id), f) == Line(registered, f) {
      LineFacts(registered, f);
      assert forall k :: 0 <= k < |Line(registered, f)| ==> Line(registered, f)[k] in Line(registered, f);
      NothingToTakeOut(Line(registered, f), h.id);
      UnregisteredLine(registered, f, h.id);
    }
  }

  lemma NoneLeft<D>(registered: seq<Hook<D>>, e: string)
    ensures (forall i :: 0 <= i < |registered| ==> registered[i].event != e) ==> Line(registered, e) == []
  {
    hide Line;
    LineFacts(registered, e);
    if Line(registered, e) != [] {
      assert Line(registered, e)[0] in Line(registered, e);
    }
  }

  lemma KnownInItsLine<D>(registered: seq<Hook<D>>, id: string)
    ensures forall i :: 0 <= i < |registered| && registered[i].id == id ==>
      Known(Line(registered, registered[i].event), id)
  {
    hide Line;
    forall i | 0 <= i < |registered| && registered[i].id == id
      ensures Known(Line(registered, registered[i].event), id)
    {
      LineFacts(registered, registered[i].event);
      assert registered[i] in Line(registered, registered[i].event);
    }
  }

  lemma NowhereKnown<D>(registered: seq<Hook<D>>, events: set<string>, id: string)
    requires AllFiled(registered, events) && !Known(Line(registered, ""), id)
    requires forall e :: e in events ==> !Known(Line(registered, e), id)
    ensures !Known(registered, id)
  {
    hide Line;
    KnownInItsLine(registered, id);
  }

  lemma RegisteredLine<D>(registered: seq<Hook<D>>, h: Hook<D>, e: string)
    ensures Line(registered + [h], e) ==
      if h.event == e then Sort(Line(registered, e) + [h], Priority) else Line(registered, e)
  {
    assert (registered + [h])[..|registered|] == registered;
    SortAgain(ForEvent(registered, e), h, Priority);
  }

  // ------------------------------------------------ what an emit should do

  datatype Outcome<D> = Outcome(data: D, error: Option<string>)

  /** One hook: skipped, or called on the data so far. */
  function Step<D>(h: Hook<D>, e: string, data: D): Outcome<D>
    reads h
  {
    if !h.Runs(e, data) then Outcome(data, None)
    else match h.handler(e, data)
      case Refused(error) => Outcome(data, Some(error))
      case Changed(d) => Outcome(d, None)
      case Kept => Outcome(data, None)
  }

  /** The left fold over the hooks, stopped by the first error. */
  function Fold<D>(hs: seq<Hook<D>>, e: string, data: D): Outcome<D>
    reads hs
  {
    if hs == [] then Outcome(data, None)
    else
      var so := Fold(hs[..|hs| - 1], e, data);
      if so.error.Some? then so else Step(hs[|hs| - 1], e, so.data)
  }

  /** An error is where it ends: what follows the failing hook changes nothing, and the
      caller gets the data as it stood when that hook was called. */
  lemma {:induction false} FirstErrorStops<D>(before: seq<Hook<D>>, after: seq<Hook<D>>, e: string, data: D)
    ensures Fold(before, e, data).error.Some? ==> Fold(before + after, e, data) == Fold(before, e, data)
    ensures Fold(before, e, data).error.None? ==>
      Fold(before + after, e, data) == Fold(after, e, Fold(before, e, data).data)
  {
    if after == [] {
      assert before + after == before;
    } else {
      var front := after[..|after| - 1];
      FirstErrorStops(before, front, e, data);
      assert (before + after)[..|before + after| - 1] == before + front;
    }
  }

  /** One more hook in line: nothing after an error, nothing when it is disabled or its
      matcher says no, and else what its handler replies to the data as it stands. */
  lemma FoldMeaning<D>(hs: seq<Hook<D>>, h: Hook<D>, e: string, data: D)
    ensures Fold<D>([], e, data).data == data && Fold<D>([], e, data).error.None?
    ensures var sofar, next := Fold(hs, e, data), Fold(hs + [h], e, data);
      && (sofar.error.Some? ==> next == sofar)
      && (!h.enabled ==> next == sofar)
      && (h.matcher.Some? && !h.matcher.value(e, sofar.data) ==> next == sofar)
      && (sofar.error.None? && h.enabled && (h.matcher.None? || h.matcher.value(e, sofar.data)) ==>
           match h.handler(e, sofar.data)
           case Refused(message) => next.error == Some(message) && next.data == sofar.data
           case Changed(d) => next.error.None? && next.data == d
           case Kept => next == sofar)
  {
    assert (hs + [h])[..|hs|] == hs;
  }

  // ------------------------------------------------ the registry

  class Registry<D> {
    var hooks: map<string, seq<Hook<D>>>
    var global: seq<Hook<D>>
    /** The hooks registered and not unregistered since, in registration order. */
    ghost var registered: seq<Hook<D>>

    ghost predicate Valid()
      reads this
    {
      && OneId(registered)
      && global == Line(registered, "")
      && "" !in hooks
      && (forall e :: e in hooks ==> hooks[e] == Line(registered, e))
      && AllFiled(registered, hooks.Keys)
    }

    constructor ()
      ensures Valid() && registered == []
    {
      hooks, global, registered := map[], [], [];
    }

    function At(e: string): seq<Hook<D>>
      reads this
    {
      if e in hooks then hooks[e] else []
    }

    method Register(h: Hook<D>)
      requires Valid() && !Known(registered, h.id)
      modifies this
      ensures Valid() && registered == old(registered) + [h]
    {
      hide Line, Sort;
      ghost var was := registered;
      registered := registered + [h];
      forall e
        ensures Line(registered, e) == if h.event == e then Sort(Line(was, e) + [h], Priority) else Line(was, e)
      {
        RegisteredLine(was, h, e);
      }
      if h.event == "" {
        global := Sort(global + [h], Priority);
      } else {
        NoneLeft(was, h.event);
        hooks := hooks[h.event := Sort(At(h.event) + [h], Priority)];
      }
    }

    method Unregister(id: string) returns (found: bool)
      requires Valid()
      modifies this
      ensures Valid() && registered == Without(old(registered), id)
      ensures found == Known(old(registered), id)
    {
      hide Line, Without, OneId, AllFiled;
      WithoutFacts(registered, id);
      var rest := hooks.Keys;
      while rest != {}
        invariant unchanged(this) && rest <= hooks.Keys
        invariant forall e :: e in hooks && e !in rest ==> !Known(hooks[e], id)
        decreases |rest|
      {
        var e :| e in rest;
        var i := Find(hooks[e], id);
        if i < |hooks[e]| {
          LeavesItsLine(registered, e, i);
          hooks := hooks[e := hooks[e][..i] + hooks[e][i + 1..]];
          assert hooks.Keys == old(hooks.Keys);
          registered := Without(registered, id);
          return true;
        }
        rest := rest - {e};
      }
      var i := Find(global, id);
      if i < |global| {
        LeavesItsLine(registered, "", i);
        global := global[..i] + global[i + 1..];
        registered := Without(registered, id);
        return true;
      }
      NowhereKnown(registered, hooks.Keys, id);
      NothingToTakeOut(registered, id);
      return false;
    }

    method Find(hs: seq<Hook<D>>, id: string) returns (i: nat)
      ensures i <= |hs| && (i < |hs| ==> hs[i].id == id) && (i < |hs| <==> Known(hs, id))
      ensures forall k :: 0 <= k < i ==> hs[k].id != id
    {
      i := 0;
      while i < |hs| && hs[i].id != id
        invariant i <= |hs|
        invariant forall k :: 0 <= k < i ==> hs[k].id != id
      {
        i := i + 1;
      }
    }

    /** Enable and Disable: the same search, then the flag of the one hook found. */
    method SetEnabled(id: string, on: bool) returns (found: bool)
      requires Valid()
      modifies registered
      ensures Valid() && registered == old(registered)
      ensures found == Known(registered, id)
      ensures forall h :: h in registered ==> h.enabled == if h.id == id then on else old(h.enabled)
    {
      hide Line, OneId;
      forall e ensures forall h :: h in Line(registered, e) ==> h in registered {
        LineFacts(registered, e);
      }
      KnownInItsLine(registered, id);
      var rest := hooks.Keys;
      while rest != {}
        invariant rest <= hooks.Keys
        invariant forall e :: e in hooks && e !in rest ==> !Known(hooks[e], id)
        invariant forall h :: h in registered ==> h.enabled == old(h.enabled)
        decreases |rest|
      {
        var e :| e in rest;
        var i := Find(hooks[e], id);
        if i < |hooks[e]| {
          OnlyCarrier(registered, hooks[e][i]);
          hooks[e][i].enabled := on;
          return true;
        }
        rest := rest - {e};
      }
      var i := Find(global, id);
      if i < |global| {
        OnlyCarrier(registered, global[i]);
        global[i].enabled := on;
        return true;
      }
      return false;
    }

    /** Global hooks first, then the event's own, each called on the data as it stands;
        the first error ends it. */
    method EmitWithResult(e: string, data: D) returns (out: D, error: Option<string>)
      requires Valid()
      ensures Outcome(out, error) == Fold(Line(registered, "") + (if e == "" then [] else Line(registered, e)), e, data)
    {
      hide Line, Fold;
      NoneLeft(registered, e);
      FirstErrorStops(global, At(e), e, data);
      assert global + [] == global;
      out, error := RunAll(global, e, data);
      if error.None? {
        out, error := RunAll(At(e), e, out);
      }
    }

    method RunAll(hs: seq<Hook<D>>, e: string, data: D) returns (out: D, error: Option<string>)
      ensures Outcome(out, error) == Fold(hs, e, data)
    {
      out, error := data, None;
      var i := 0;
      while i < |hs|
        invariant i <= |hs| && Fold(hs[..i], e, data) == Outcome(out, None)
      {
        assert hs[..i + 1][..i] == hs[..i];
        if hs[i].Runs(e, out) {
          match hs[i].handler(e, out)
          case Refused(message) =>
            FirstErrorStops(hs[..i + 1], hs[i + 1..], e, data);
            assert hs[..i + 1] + hs[i + 1..] == hs;
            return out, Some(message);
          case Changed(d) => out := d;
          case Kept =>
        }
        i := i + 1;
      }
      assert hs[..|hs|] == hs;
    }
  }

  lemma OnlyCarrier<D>(hs: seq<Hook<D>>, h: Hook<D>)
    requires OneId(hs) && h in hs
    ensures forall g :: g in hs && g.id == h.id ==> g == h
  {
  }

  lemma {:induction false} ForEventKeepsBefore<D>(hs: seq<Hook<D>>, e: string, i: nat, j: nat) returns (a: nat, b: nat)
    requires i < j < |hs| && hs[i].event == e && hs[j].event == e
    ensures a < b < |ForEvent(hs, e)| && ForEvent(hs, e)[a] == hs[i] && ForEvent(hs, e)[b] == hs[j]
  {
    var front := hs[..|hs| - 1];
    if j < |front| {
      a, b := ForEventKeepsBefore(front, e, i, j);
    } else {
      ForEventFacts(front, e);
      assert front[i] in front;
      var k :| 0 <= k < |ForEvent(front, e)| && ForEvent(front, e)[k] == front[i];
      a, b := k, |ForEvent(front, e)|;
    }
  }

  /** What a caller of EmitWithResult can count on about the order: exactly the hooks for
      the event, by their priority numbers, and among equals in the order they were
      registered. */
  lemma RunsInOrder<D>(registered: seq<Hook<D>>, e: string)
    ensures forall h :: h in Line(registered, e) ==> h in registered && h.event == e
    ensures forall h :: h in registered && h.event == e ==> h in Line(registered, e)
    ensures forall i, j :: 0 <= i < j < |Line(registered, e)| ==>
      Line(registered, e)[i].priority <= Line(registered, e)[j].priority
    ensures forall i, j :: 0 <= i < j < |registered| ==>
      (registered[i].event == e && registered[j].event == e && registered[i].priority <= registered[j].priority ==>
        Before(Line(registered, e), registered[i], registered[j]))
    ensures multiset(Line(registered, e)) == multiset(ForEvent(registered, e))
    ensures OneId(registered) ==>
      forall i, j :: 0 <= i < j < |Line(registered, e)| ==> Line(registered, e)[i].id != Line(registered, e)[j].id
  {
    hide Sort, ForEvent, Before;
    var s := ForEvent(registered, e);
    SortOrders(s, Priority);
    SortKeeps(s, Priority);
    LineFacts(registered, e);
    ByPriority(Sort(s, Priority));
    forall i, j | 0 <= i < j < |registered| && registered[i].event == e && registered[j].event == e
      && registered[i].priority <= registered[j].priority
      ensures Before(Line(registered, e), registered[i], registered[j])
    {
      var a, b := ForEventKeepsBefore(registered, e, i, j);
      SortKeepsBefore(s, Priority, a, b);
    }
  }

  lemma ByPriority<D>(hs: seq<Hook<D>>)
    requires Ordered(hs, Priority)
    ensures forall i, j :: 0 <= i < j < |hs| ==> hs[i].priority <= hs[j].priority
  {
    forall i, j | 0 <= i < j < |hs| ensures hs[i].priority <= hs[j].priority {
      assert Priority(hs[i]) <= Priority(hs[j]);
    }
  }
}
