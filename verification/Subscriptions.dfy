/** Subscriptions to async tasks (pkg/agent/async_tasks.go, async_tasks_helpers.go). A
    step is one section under the manager's lock, or one channel operation outside it;
    any number of subscribers and emitters may stand between two of their steps. */
module Subscriptions {

  /** Channels are numbered in the order they are made. An emitter works through the
      channels it collected: a send each, and after a terminal event a close each. */
  datatype Emitter = Emitter(left: seq<nat>, terminal: bool, sent: bool)

  datatype State = State(
    ended: map<string, bool>,
    subs: map<string, set<nat>>,
    made: nat,
    emitters: seq<Emitter>,
    closing: set<nat>,
    closed: multiset<nat>,
    events: map<string, nat>,
    backlog: map<nat, nat>,
    lost: bool)

  const START := State(map[], map[], 0, [], {}, multiset{}, map[], map[], false)

  const MAX_EVENTS := 200

  datatype Event =
    | SetStatus(task: string, terminal: bool)
    | Subscribe(task: string)
    | SendBacklog(ch: nat)
    | CloseOwn(ch: nat)
    | Unsubscribe(task: string, ch: nat)
    | Emit(task: string, terminal: bool, order: seq<nat>)
    | SendNext(emitter: nat)
    | CloseNext(emitter: nat)

  /** A map read of a missing key gives the empty set. */
  function SubsOf(s: State, task: string): set<nat> {
    if task in s.subs then s.subs[task] else {}
  }

  /** How many events a task remembers: the backlog of its next subscriber. */
  function EventsOf(events: map<string, nat>, task: string): nat {
    if task in events then events[task] else 0
  }

  /** Recording an event keeps the newest MAX_EVENTS; an unknown task records none. */
  function Recorded(s: State, task: string): map<string, nat> {
    if task !in s.ended then s.events
    else
      var n := EventsOf(s.events, task) + 1;
      s.events[task := if n > MAX_EVENTS then MAX_EVENTS else n]
  }

  /** The sends a new subscriber still owes its own channel. */
  function Owed(s: State, ch: nat): nat {
    if ch in s.backlog then s.backlog[ch] else 0
  }

  function Without(subs: map<string, set<nat>>, task: string, ch: nat): map<string, set<nat>>
    requires task in subs
  {
    if subs[task] == {ch} then subs - {task} else subs[task := subs[task] - {ch}]
  }

  /** A send on a closed channel kills the process: `lost` records that it happened. What
      a channel holds is not modelled, so a send that times out is the same step. */
  function Sent(s: State, ch: nat): State {
    s.(lost := s.lost || ch in s.closed)
  }

  function Step(s: State, ev: Event): State {
    match ev
    case SetStatus(task, terminal) => s.(ended := s.ended[task := terminal])
    case Subscribe(task) =>
      if task !in s.ended then s
      else
        var next := s.(made := s.made + 1, backlog := s.backlog[s.made := EventsOf(s.events, task)]);
        if s.ended[task] then next.(closing := s.closing + {s.made})
        else next.(subs := s.subs[task := SubsOf(s, task) + {s.made}])
    case SendBacklog(ch) =>
      if Owed(s, ch) == 0 then s else Sent(s, ch).(backlog := s.backlog[ch := Owed(s, ch) - 1])
    case CloseOwn(ch) =>
      if ch in s.closing && Owed(s, ch) == 0
      then s.(closing := s.closing - {ch}, closed := s.closed + multiset{ch}) else s
    case Unsubscribe(task, ch) =>
      if ch in SubsOf(s, task) && Owed(s, ch) == 0
      then s.(subs := Without(s.subs, task, ch), closed := s.closed + multiset{ch}) else s
    case Emit(task, terminal, order) =>
      if multiset(order) != multiset(SubsOf(s, task)) then s
      else s.(emitters := s.emitters + [Emitter(order, terminal, false)], events := Recorded(s, task),
              subs := if terminal then s.subs - {task} else s.subs)
    case SendNext(i) =>
      if i < |s.emitters| && s.emitters[i].left != [] && !s.emitters[i].sent then
        var e := s.emitters[i];
        var next := if e.terminal then e.(sent := true) else e.(left := e.left[1..]);
        Sent(s, e.left[0]).(emitters := s.emitters[i := next])
      else s
    case CloseNext(i) =>
      if i < |s.emitters| && s.emitters[i].left != [] && s.emitters[i].sent then
        var e := s.emitters[i];
        s.(emitters := s.emitters[i := e.(left := e.left[1..], sent := false)],
           closed := s.closed + multiset{e.left[0]})
      else s
  }

  function Run(s: State, evs: seq<Event>): State {
    if evs == [] then s else Step(Run(s, evs[..|evs| - 1]), evs[|evs| - 1])
  }

  // ------------------------------------------------ the manager's code

  class Manager {
    var ended: map<string, bool>
    var subs: map<string, set<nat>>
    var made: nat
    var closing: set<nat>
    var events: map<string, nat>
    /** What the goroutines outside the lock still have to do. */
    var emitters: seq<Emitter>
    var backlog: map<nat, nat>
    var closed: multiset<nat>
    var lost: bool

    ghost function View(): State
      reads this
    {
      State(ended, subs, made, emitters, closing, closed, events, backlog, lost)
    }

    constructor ()
      ensures View() == START
    {
      ended, subs, made, closing, events := map[], map[], 0, {}, map[];
      emitters, backlog, closed, lost := [], map[], multiset{}, false;
    }

    method SubscribeTask(task: string) returns (found: bool, ch: nat)
      modifies this
      ensures View() == Step(old(View()), Subscribe(task))
      ensures found == (task in ended) && (found ==> ch == old(made) && made == ch + 1)
      ensures !found ==> View() == old(View())
      ensures found ==> backlog == old(backlog)[ch := if task in events then events[task] else 0]
      ensures found && ended[task] ==> subs == old(subs) && closing == old(closing) + {ch}
      ensures found && !ended[task] ==> closing == old(closing)
      ensures found && !ended[task] ==>
        subs == old(subs)[task := (if task in old(subs) then old(subs)[task] else {}) + {ch}]
    {
      ch := made;
      if task !in ended {
        return false, ch;
      }
      made := made + 1;
      backlog := backlog[ch := if task in events then events[task] else 0];
      if ended[task] {
        closing := closing + {ch};
      } else {
        ghost var all := SubsOf(View(), task) + {ch};
        if task !in subs {
          subs := subs[task := {}];
        }
        subs := subs[task := subs[task] + {ch}];
        assert old(subs)[task := {}][task := all] == old(subs)[task := all];
      }
      found := true;
    }

    /** The closure SubscribeTask returns, so the backlog has been sent when it is called. */
    method CancelSubscription(task: string, ch: nat)
      requires Owed(View(), ch) == 0
      modifies this
      ensures View() == Step(old(View()), Unsubscribe(task, ch))
      ensures var registered := task in old(subs) && ch in old(subs)[task];
        && closed == (if registered then old(closed) + multiset{ch} else old(closed))
        && (task in subs ==> task in old(subs) && subs[task] == old(subs)[task] - {ch})
        && (registered ==> (task in subs <==> old(subs)[task] != {ch}))
        && forall t :: t != task || !registered ==>
             (t in subs <==> t in old(subs)) && (t in subs ==> subs[t] == old(subs)[t])
    {
      var shouldClose := false;
      if task in subs && ch in subs[task] {
        var left := subs[task] - {ch};
        shouldClose := true;
        subs := subs[task := left];
        if left == {} {
          assert old(subs)[task] == {ch};
          subs := subs - {task};
          assert subs == old(subs) - {task};
        }
      }
      if shouldClose {
        closed := closed + multiset{ch};
      }
    }

    /** collectTaskSubscribersLocked: a map is ranged over in any order. */
    method CollectSubscribers(task: string) returns (collected: seq<nat>)
      ensures multiset(collected) == multiset(SubsOf(View(), task))
      ensures multiset(collected) == multiset(if task in subs then subs[task] else {})
    {
      collected := [];
      if task in subs {
        var rest := subs[task];
        while rest != {}
          invariant rest <= subs[task]
          invariant multiset(collected) + multiset(rest) == multiset(subs[task])
          decreases |rest|
        {
          var ch :| ch in rest;
          assert rest == (rest - {ch}) + {ch};
          collected := collected + [ch];
          rest := rest - {ch};
        }
      }
    }

    /** appendTaskEvent, as far as the number of events goes. */
    method RecordEvent(task: string)
      modifies this`events
      ensures events == Recorded(old(View()), task)
      ensures task !in ended ==> events == old(events)
      ensures task in ended ==> task in events && events == old(events)[task := events[task]]
      ensures task in ended ==>
        events[task] ==
          if task !in old(events) then 1 else if old(events)[task] < 200 then old(events)[task] + 1 else 200
    {
      if task in ended {
        var n := if task in events then events[task] + 1 else 1;
        events := events[task := if n > MAX_EVENTS then MAX_EVENTS else n];
      }
    }

    /** The lock section of an emit; the caller then works through what it collected. */
    method EmitLocked(task: string, terminal: bool) returns (collected: seq<nat>)
      modifies this
      ensures View() == Step(old(View()), Emit(task, terminal, collected))
      ensures multiset(collected) == multiset(if task in old(subs) then old(subs)[task] else {})
      ensures emitters == old(emitters) + [Emitter(collected, terminal, false)]
      ensures subs == (if terminal then old(subs) - {task} else old(subs)) && closed == old(closed)
    {
      hide Recorded, SubsOf;
      RecordEvent(task);
      SubsIgnoreEvents(old(View()), events, task);
      collected := CollectSubscribers(task);
      emitters := emitters + [Emitter(collected, terminal, false)];
      if terminal {
        subs := subs - {task};
      }
    }

    /** One turn of the loop over the collected channels: the send, and after a terminal
        event the close, with whatever others do in between left to the caller. */
    method SendOne(i: nat)
      requires i < |emitters| && emitters[i].left != [] && !emitters[i].sent
      modifies this
      ensures View() == Step(old(View()), SendNext(i))
      ensures var e := old(emitters)[i];
        && lost == (old(lost) || e.left[0] in old(closed)) && closed == old(closed)
        && emitters == old(emitters)[i := if e.terminal then e.(sent := true) else e.(left := e.left[1..])]
    {
      var e := emitters[i];
      lost := lost || e.left[0] in closed;
      if e.terminal {
        emitters := emitters[i := e.(sent := true)];
      } else {
        emitters := emitters[i := e.(left := e.left[1..])];
      }
    }

    method CloseOne(i: nat)
      requires i < |emitters| && emitters[i].left != [] && emitters[i].sent
      modifies this
      ensures View() == Step(old(View()), CloseNext(i))
      ensures var e := old(emitters)[i];
        && closed == old(closed) + multiset{e.left[0]} && lost == old(lost)
        && emitters == old(emitters)[i := e.(left := e.left[1..], sent := false)]
    {
      var e := emitters[i];
      closed := closed + multiset{e.left[0]};
      emitters := emitters[i := e.(left := e.left[1..], sent := false)];
    }
  }

  lemma SubsIgnoreEvents(s: State, events: map<string, nat>, task: string)
    ensures SubsOf(s.(events := events), task) == SubsOf(s, task)
  {
  }

  // ------------------------------------------------ the right to close

  function Registered(subs: map<string, set<nat>>, ch: nat): set<string> {
    set t | t in subs && ch in subs[t]
  }

  function Holds(e: Emitter, ch: nat): nat {
    if e.terminal then multiset(e.left)[ch] else 0
  }

  function Held(es: seq<Emitter>, ch: nat): nat {
    if es == [] then 0 else Held(es[..|es| - 1], ch) + Holds(es[|es| - 1], ch)
  }

  /** How often the right to close a channel exists: in the map, with a terminal emitter,
      with the subscriber of an ended task, or used up by a close. */
  function Rights(s: State, ch: nat): nat {
    |Registered(s.subs, ch)| + Held(s.emitters, ch) + (if ch in s.closing then 1 else 0) + s.closed[ch]
  }

  ghost predicate Conserved(s: State) {
    && (forall ch: nat :: Rights(s, ch) == if ch < s.made then 1 else 0)
    && (forall i :: 0 <= i < |s.emitters| && s.emitters[i].sent ==> s.emitters[i].terminal)
  }

  lemma {:induction false} HeldUpdate(es: seq<Emitter>, i: nat, e: Emitter, ch: nat)
    requires i < |es|
    ensures Held(es[i := e], ch) == Held(es, ch) - Holds(es[i], ch) + Holds(e, ch)
    ensures Holds(es[i], ch) <= Held(es, ch)
  {
    var front := es[..|es| - 1];
    if i == |es| - 1 {
      assert es[i := e][..|es| - 1] == front;
    } else {
      HeldUpdate(front, i, e, ch);
      assert es[i := e][..|es| - 1] == front[i := e];
    }
  }

  lemma HeldSnoc(es: seq<Emitter>, e: Emitter, ch: nat)
    ensures Held(es + [e], ch) == Held(es, ch) + Holds(e, ch)
  {
    assert (es + [e])[..|es|] == es;
  }

  lemma FirstOut(left: seq<nat>, ch: nat)
    requires left != []
    ensures multiset(left[1..])[ch] == multiset(left)[ch] - if ch == left[0] then 1 else 0
  {
    assert left == [left[0]] + left[1..];
  }

  lemma SubsAfterSubscribe(s: State, task: string, ch: nat)
    ensures Registered(s.subs[task := SubsOf(s, task) + {s.made}], ch) ==
      if ch == s.made then Registered(s.subs, ch) + {task} else Registered(s.subs, ch)
  {
  }

  lemma SubsAfterUnsubscribe(subs: map<string, set<nat>>, task: string, out: nat, ch: nat)
    requires task in subs && out in subs[task]
    ensures Registered(Without(subs, task, out), ch) ==
      if ch == out then Registered(subs, ch) - {task} else Registered(subs, ch)
  {
  }

  lemma SubsAfterTerminal(s: State, task: string, ch: nat)
    ensures Registered(s.subs - {task}, ch) == Registered(s.subs, ch) - {task}
    ensures task in Registered(s.subs, ch) <==> ch in SubsOf(s, task)
  {
  }

  /** No step makes or loses a right: each channel's right to be closed is in one place. */
  lemma StepConserves(s: State, ev: Event)
    requires Conserved(s)
    ensures Conserved(Step(s, ev))
  {
    hide Held, Registered;
    var next := Step(s, ev);
    forall ch: nat ensures Rights(next, ch) == if ch < next.made then 1 else 0 {
      StepRights(s, ev, ch);
    }
  }

  lemma StepRights(s: State, ev: Event, ch: nat)
    requires Rights(s, ch) == if ch < s.made then 1 else 0
    requires forall i :: 0 <= i < |s.emitters| && s.emitters[i].sent ==> s.emitters[i].terminal
    ensures Rights(Step(s, ev), ch) == if ch < Step(s, ev).made then 1 else 0
  {
    match ev
    case SetStatus(task, terminal) =>
    case Subscribe(task) => SubscribeRights(s, task, ch);
    case SendBacklog(c) =>
    case CloseOwn(c) => hide Held, Registered, Owed;
    case Unsubscribe(task, c) => UnsubscribeRights(s, task, c, ch);
    case Emit(task, terminal, order) => EmitRights(s, task, terminal, order, ch);
    case SendNext(i) => SendRights(s, i, ch);
    case CloseNext(i) => CloseRights(s, i, ch);
  }

  lemma SubscribeRights(s: State, task: string, ch: nat)
    requires Rights(s, ch) == if ch < s.made then 1 else 0
    ensures var next := Step(s, Subscribe(task)); Rights(next, ch) == if ch < next.made then 1 else 0
  {
    hide Held, Registered;
    SubsAfterSubscribe(s, task, ch);
    if ch == s.made {
      assert |Registered(s.subs, ch)| == 0 && Registered(s.subs, ch) == {};
      assert |{task}| == 1 && {} + {task} == {task};
    }
  }

  lemma UnsubscribeRights(s: State, task: string, out: nat, ch: nat)
    ensures Rights(Step(s, Unsubscribe(task, out)), ch) == Rights(s, ch)
  {
    hide Held, Registered, Owed;
    if out in SubsOf(s, task) {
      SubsAfterUnsubscribe(s.subs, task, out, ch);
      SubsAfterTerminal(s, task, ch);
      if ch == out {
        assert |Registered(s.subs, ch) - {task}| == |Registered(s.subs, ch)| - 1;
      }
    }
  }

  lemma EmitRights(s: State, task: string, terminal: bool, order: seq<nat>, ch: nat)
    ensures Rights(Step(s, Emit(task, terminal, order)), ch) == Rights(s, ch)
  {
    hide Held, Registered;
    HeldSnoc(s.emitters, Emitter(order, terminal, false), ch);
    SubsAfterTerminal(s, task, ch);
    var all := SubsOf(s, task);
    if multiset(order) == multiset(all) && terminal {
      var bag: multiset<nat> := multiset(all);
      assert multiset(order)[ch] == bag[ch] == if ch in all then 1 else 0;
      var r := Registered(s.subs, ch);
      if ch in all {
        assert |r - {task}| == |r| - 1;
      } else {
        assert r - {task} == r;
      }
    }
  }

  lemma SendRights(s: State, i: nat, ch: nat)
    ensures Rights(Step(s, SendNext(i)), ch) == Rights(s, ch)
  {
    hide Held, Registered;
    if i < |s.emitters| && s.emitters[i].left != [] {
      var e := s.emitters[i];
      HeldUpdate(s.emitters, i, if e.terminal then e.(sent := true) else e.(left := e.left[1..]), ch);
    }
  }

  lemma CloseRights(s: State, i: nat, ch: nat)
    requires forall i :: 0 <= i < |s.emitters| && s.emitters[i].sent ==> s.emitters[i].terminal
    ensures Rights(Step(s, CloseNext(i)), ch) == Rights(s, ch)
  {
    hide Held, Registered;
    if i < |s.emitters| && s.emitters[i].left != [] {
      var e := s.emitters[i];
      HeldUpdate(s.emitters, i, e.(left := e.left[1..], sent := false), ch);
      FirstOut(e.left, ch);
    }
  }

  // ------------------------------------------------ what a run can and cannot do

  lemma {:induction false} RunConserves(evs: seq<Event>)
    ensures Conserved(Run(START, evs))
  {
    if evs == [] {
      assert forall ch: nat :: Registered(map[], ch) == {};
    } else {
      RunConserves(evs[..|evs| - 1]);
      StepConserves(Run(START, evs[..|evs| - 1]), evs[|evs| - 1]);
    }
  }

  /** On every interleaving no channel is closed twice, and one that nobody can close any
      more has been closed. */
  lemma ClosedAtMostOnce(evs: seq<Event>, ch: nat)
    ensures Run(START, evs).closed[ch] <= 1
    ensures var s := Run(START, evs);
      ch < s.made && Registered(s.subs, ch) == {} && Held(s.emitters, ch) == 0 && ch !in s.closing ==> s.closed[ch] == 1
  {
    RunConserves(evs);
    assert Rights(Run(START, evs), ch) == if ch < Run(START, evs).made then 1 else 0;
  }

  /** Channels are closed exactly when nobody can close them any more. */
  lemma ClosedIff(evs: seq<Event>, ch: nat)
    ensures var s := Run(START, evs);
      ch in s.closed <==>
        ch < s.made && Registered(s.subs, ch) == {} && Held(s.emitters, ch) == 0 && ch !in s.closing
  {
    hide Registered, Held;
    var s := Run(START, evs);
    RunConserves(evs);
    assert Rights(s, ch) == if ch < s.made then 1 else 0;
  }

  /** The channel the next step sends to, if it sends. */
  function Target(s: State, ev: Event): seq<nat> {
    match ev
    case SendBacklog(ch) => if Owed(s, ch) > 0 then [ch] else []
    case SendNext(i) =>
      if i < |s.emitters| && s.emitters[i].left != [] && !s.emitters[i].sent then [s.emitters[i].left[0]] else []
    case _ => []
  }

  /** Made already, and not the private channels of ended tasks' subscribers. */
  ghost predicate AllShared(chs: seq<nat>, made: nat, closing: set<nat>) {
    forall ch :: ch in chs ==> ch < made && ch !in closing
  }

  /** Emitters only ever collected shared channels. */
  ghost predicate Known(s: State) {
    && (forall i :: 0 <= i < |s.emitters| ==> AllShared(s.emitters[i].left, s.made, s.closing))
    && (forall ch :: ch in s.backlog ==> ch < s.made)
  }

  lemma StepKnown(s: State, ev: Event)
    requires Known(s) && Conserved(s)
    ensures Known(Step(s, ev))
  {
    hide Held, Registered, Rights, Conserved, AllShared;
    match ev
    case Subscribe(task) =>
      forall i | 0 <= i < |s.emitters|
        ensures AllShared(s.emitters[i].left, s.made + 1, s.closing)
        ensures AllShared(s.emitters[i].left, s.made + 1, s.closing + {s.made})
      {
        StaysShared(s.emitters[i].left, s.made, s.closing);
      }
    case CloseOwn(ch) =>
      forall i | 0 <= i < |s.emitters| ensures AllShared(s.emitters[i].left, s.made, s.closing - {ch}) {
        FewerPrivate(s.emitters[i].left, s.made, s.closing, ch);
      }
    case Emit(task, terminal, order) => CollectedIsShared(s, task, order);
    case SendNext(i) => LeftIsShared(s, i);
    case CloseNext(i) => LeftIsShared(s, i);
    case _ =>
  }

  lemma StaysShared(chs: seq<nat>, made: nat, closing: set<nat>)
    requires AllShared(chs, made, closing)
    ensures AllShared(chs, made + 1, closing) && AllShared(chs, made + 1, closing + {made})
  {
  }

  lemma FewerPrivate(chs: seq<nat>, made: nat, closing: set<nat>, ch: nat)
    requires AllShared(chs, made, closing)
    ensures AllShared(chs, made, closing - {ch})
  {
  }

  lemma LeftIsShared(s: State, i: nat)
    requires Known(s)
    ensures i < |s.emitters| && s.emitters[i].left != [] ==> AllShared(s.emitters[i].left[1..], s.made, s.closing)
  {
    if i < |s.emitters| && s.emitters[i].left != [] {
      assert AllShared(s.emitters[i].left, s.made, s.closing);
      assert forall ch :: ch in s.emitters[i].left[1..] ==> ch in s.emitters[i].left;
    }
  }

  lemma CollectedIsShared(s: State, task: string, order: seq<nat>)
    requires Conserved(s)
    ensures multiset(order) == multiset(SubsOf(s, task)) ==> AllShared(order, s.made, s.closing)
  {
    hide Conserved, Rights;
    if multiset(order) == multiset(SubsOf(s, task)) {
      forall ch | ch in order ensures ch < s.made && ch !in s.closing {
        assert ch in multiset(order);
        SubscribedIsMade(s, task, ch);
      }
    }
  }

  lemma SubscribedIsMade(s: State, task: string, ch: nat)
    requires Conserved(s) && ch in SubsOf(s, task)
    ensures ch < s.made && ch !in s.closing
  {
    hide Held, Registered;
    SubsAfterTerminal(s, task, ch);
    assert Rights(s, ch) == if ch < s.made then 1 else 0;
  }

  lemma {:induction false} RunKnown(evs: seq<Event>)
    ensures Known(Run(START, evs))
  {
    if evs != [] {
      RunKnown(evs[..|evs| - 1]);
      RunConserves(evs[..|evs| - 1]);
      StepKnown(Run(START, evs[..|evs| - 1]), evs[|evs| - 1]);
    }
  }

  /** In every reachable state a send meets a closed channel exactly when its channel has
      left the subscriber map, no terminal emitter still holds it, and it is not the
      private channel of an ended task's subscriber (an emitter's never is). */
  lemma SendMeetsClosedIff(evs: seq<Event>, ev: Event)
    requires Target(Run(START, evs), ev) != []
    ensures var s := Run(START, evs);
      var ch := Target(s, ev)[0];
      && (ch in s.closed <==> !Open(s, ch))
      && (ev.SendNext? ==> ch !in s.closing)
  {
    hide Held, Registered, Run;
    ClosedIff(evs, Target(Run(START, evs), ev)[0]);
    RunKnown(evs);
  }

  /** Somebody may still close the channel. */
  ghost predicate Open(s: State, ch: nat) {
    Registered(s.subs, ch) != {} || Held(s.emitters, ch) > 0 || ch in s.closing
  }

  /** No send of a run is lost exactly when each is made while its channel is registered,
      held by a terminal emitter, or private to an ended task's subscriber. */
  lemma {:induction false} NothingLostIff(evs: seq<Event>)
    ensures !Run(START, evs).lost <==> SendsWhileOpen(evs)
  {
    hide Open;
    if evs != [] {
      var front, ev := evs[..|evs| - 1], evs[|evs| - 1];
      NothingLostIff(front);
      LostBySend(Run(START, front), ev);
      if Target(Run(START, front), ev) != [] {
        SendMeetsClosedIff(front, ev);
      }
    }
  }

  ghost predicate SendsWhileOpen(evs: seq<Event>) {
    evs == [] ||
    (&& SendsWhileOpen(evs[..|evs| - 1])
     && var s := Run(START, evs[..|evs| - 1]);
        var to := Target(s, evs[|evs| - 1]);
        to == [] || Open(s, to[0]))
  }

  lemma LostBySend(s: State, ev: Event)
    ensures Step(s, ev).lost <==> s.lost || (Target(s, ev) != [] && Target(s, ev)[0] in s.closed)
  {
  }

  /** A terminal emitter holds the right to close what it sends to, and the subscriber of
      an ended task its own: their sends never meet a closed channel, on any run. */
  lemma OnlyPlainSendsAreLost(evs: seq<Event>, ev: Event)
    requires !Run(START, evs).lost && Run(START, evs + [ev]).lost
    ensures var s := Run(START, evs);
      || (ev.SendNext? && ev.emitter < |s.emitters| && !s.emitters[ev.emitter].terminal)
      || (ev.SendBacklog? && ev.ch !in s.closing)
  {
    hide Held, Registered;
    var s := Run(START, evs);
    RunsOn(evs, ev);
    LostBySend(s, ev);
    SendMeetsClosedIff(evs, ev);
    if ev.SendNext? && s.emitters[ev.emitter].terminal {
      HeldUpdate(s.emitters, ev.emitter, s.emitters[ev.emitter], s.emitters[ev.emitter].left[0]);
    }
  }

  lemma RunsOn(evs: seq<Event>, ev: Event)
    ensures Run(START, evs + [ev]) == Step(Run(START, evs), ev)
  {
    assert (evs + [ev])[..|evs|] == evs;
  }

  const LEAVES := [SetStatus("t", false), Subscribe("t"), Emit("t", false, [0]), Unsubscribe("t", 0), SendNext(0)]

  const ENDS := [SetStatus("t", false), Emit("t", false, []), Subscribe("t"), Emit("t", true, [0]), SendNext(1),
                 CloseNext(1), SendBacklog(0)]

  /** The others' can: an emitter that collected the subscriber before it left still sends
      to it, and a new subscriber still gets its backlog after its task has ended. */
  lemma PlainSendsCanBeLost()
    ensures Run(START, LEAVES).lost
    ensures Run(START, ENDS).lost
  {
    LeavesIsLost();
    EndsIsLost();
  }

  lemma LeavesCollected() returns (s: State)
    ensures s == Run(START, LEAVES[..3])
    ensures s.emitters == [Emitter([0], false, false)] && SubsOf(s, "t") == {0} && Owed(s, 0) == 0
  {
    hide Run, Recorded;
    Starts(LEAVES);
    var s1 := After(LEAVES, 0);
    assert s1.ended == map["t" := false] && s1.subs == map[] && s1.emitters == [];
    var s2 := After(LEAVES, 1);
    assert SubsOf(s2, "t") == {0} && Owed(s2, 0) == 0;
    s := After(LEAVES, 2);
  }

  lemma LeavesIsLost()
    ensures Run(START, LEAVES).lost
  {
    hide Run, Recorded;
    Starts(LEAVES);
    var s3 := LeavesCollected();
    var s4 := After(LEAVES, 3);
    assert 0 in s4.closed;
    var s5 := After(LEAVES, 4);
  }

  lemma EndsSubscribed() returns (s: State)
    ensures s == Run(START, ENDS[..3])
    ensures s.emitters == [Emitter([], false, false)] && SubsOf(s, "t") == {0} && Owed(s, 0) == 1
  {
    hide Run;
    Starts(ENDS);
    var s1 := After(ENDS, 0);
    assert s1.ended == map["t" := false] && s1.subs == map[];
    var s2 := After(ENDS, 1);
    assert EventsOf(s2.events, "t") == 1 && s2.emitters == [Emitter([], false, false)];
    s := After(ENDS, 2);
  }

  lemma EndsCollected() returns (s: State)
    ensures s == Run(START, ENDS[..4])
    ensures s.emitters == [Emitter([], false, false), Emitter([0], true, false)] && Owed(s, 0) == 1
  {
    hide Run, Recorded;
    var s3 := EndsSubscribed();
    s := After(ENDS, 3);
  }

  lemma EndsIsLost()
    ensures Run(START, ENDS).lost
  {
    hide Run, Recorded, SubsOf;
    Starts(ENDS);
    var s4 := EndsCollected();
    var s5 := After(ENDS, 4);
    var s6 := After(ENDS, 5);
    assert 0 in s6.closed && Owed(s6, 0) == 1;
    var s7 := After(ENDS, 6);
  }

  lemma Starts(evs: seq<Event>)
    ensures Run(START, evs[..0]) == START && evs[..|evs|] == evs
  {
  }

  /** The state after step k of a run. */
  lemma After(evs: seq<Event>, k: nat) returns (s: State)
    requires k < |evs|
    ensures s == Run(START, evs[..k + 1]) == Step(Run(START, evs[..k]), evs[k])
  {
    assert evs[..k + 1][..k] == evs[..k];
    s := Run(START, evs[..k + 1]);
  }
}
