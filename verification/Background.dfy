/** The registry of background tasks (pkg/agent/background.go). Each method is one
    section under the registry's lock; runs of many callers are sequences of them. */
module Background {
  import opened Seqs

  datatype Status = Running | Completed | Blocked | Cancelled | Failed {
    predicate Done() {
      this != Running
    }
  }

  datatype Task = Task(goal: string, status: Status, result: string, error: string)

  /** How a run ended: with an error, with no result, or with one. */
  datatype Ending = Error(message: string) | NoResult | Result(cancelled: bool, blocked: bool, text: string)

  function After(t: Task, e: Ending): Task {
    match e
    case Error(message) => t.(status := Failed, error := message)
    case NoResult => t.(status := Failed, error := "the run produced no result")
    case Result(cancelled, blocked, text) =>
      t.(status := if cancelled then Cancelled else if blocked then Blocked else Completed, result := text)
  }

  // ------------------------------------------------ the registry as a value

  datatype Book = Book(tasks: map<string, Task>, order: seq<string>)

  predicate IsDone(tasks: map<string, Task>, id: string) {
    id in tasks && tasks[id].status.Done()
  }

  /** The finished tasks, in the order they were started. */
  function Ended(order: seq<string>, tasks: map<string, Task>): (r: seq<string>)
    ensures |r| <= |order|
  {
    if order == [] then []
    else if IsDone(tasks, order[0]) then [order[0]] + Ended(order[1..], tasks)
    else Ended(order[1..], tasks)
  }

  function RunningIds(tasks: map<string, Task>): set<string> {
    set id | id in tasks && tasks[id].status.Running?
  }

  /** The remembered part of a list of ids, in its order. */
  function Among(ids: seq<string>, kept: set<string>): seq<string> {
    if ids == [] then []
    else if ids[0] in kept then [ids[0]] + Among(ids[1..], kept)
    else Among(ids[1..], kept)
  }

  /** `started` is every id ever started, in order: the book lists exactly the tasks it
      remembers, each once, in start order, and no more finished ones than `keep`. */
  ghost predicate Sound(b: Book, started: seq<string>, keep: nat) {
    && Distinct(started)
    && b.order == Among(started, b.tasks.Keys)
    && (forall id :: id in b.tasks ==> id in b.order)
    && |Ended(b.order, b.tasks)| <= keep
  }

  function Inserted(b: Book, id: string, goal: string): Book {
    Book(b.tasks[id := Task(goal, Running, "", "")], b.order + [id])
  }

  /** The order without its first `drop` finished tasks. */
  function Sweep(order: seq<string>, tasks: map<string, Task>, drop: nat): (r: seq<string>)
    ensures forall id :: id in r ==> id in order
  {
    if order == [] then []
    else if IsDone(tasks, order[0]) && drop > 0 then Sweep(order[1..], tasks, drop - 1)
    else [order[0]] + Sweep(order[1..], tasks, drop)
  }

  function Only(tasks: map<string, Task>, ids: seq<string>): map<string, Task> {
    map id | id in tasks && id in ids :: tasks[id]
  }

  function Pruned(b: Book, keep: nat): Book {
    var finished := |Ended(b.order, b.tasks)|;
    if finished <= keep then b
    else
      var kept := Sweep(b.order, b.tasks, finished - keep);
      Book(Only(b.tasks, kept), kept)
  }

  function Finished(b: Book, id: string, e: Ending, keep: nat): Book {
    if id !in b.tasks then b
    else Pruned(b.(tasks := b.tasks[id := After(b.tasks[id], e)]), keep)
  }

  // ------------------------------------------------ the registry as the code keeps it

  class Registry {
    var tasks: map<string, Task>
    var order: seq<string>
    const max: nat
    const keep: nat
    ghost var started: seq<string>

    ghost function View(): Book
      reads this
    {
      Book(tasks, order)
    }

    ghost predicate Valid()
      reads this
    {
      Sound(View(), started, keep)
    }

    constructor (max: int)
      ensures Valid() && started == [] && View() == Book(map[], [])
      ensures this.max == (if max <= 0 then 8 else max) && keep == 64
    {
      tasks, order, started := map[], [], [];
      this.max := if max <= 0 then 8 else max;
      keep := 64;
    }

    /** The first lock section of a start: is there room? */
    method HasRoom() returns (ok: bool, running: nat)
      ensures running == |RunningIds(tasks)| && ok == (running < max)
      ensures running == |set id | id in tasks && tasks[id].status == Running|
    {
      assert RunningIds(tasks) == set id | id in tasks && tasks[id].status == Running;
      hide RunningIds;
      running := 0;
      var rest := tasks.Keys;
      RunningAreTasks(tasks);
      while rest != {}
        invariant rest <= tasks.Keys && running + |RunningIds(tasks) * rest| == |RunningIds(tasks)|
        decreases |rest|
      {
        var id :| id in rest;
        CountOne(tasks, rest - {id}, id);
        assert rest - {id} + {id} == rest;
        if tasks[id].status.Running? {
          running := running + 1;
        }
        rest := rest - {id};
      }
      ok := running < max;
    }

    /** The second: the task goes in, whatever happened in between. */
    method Insert(id: string, goal: string)
      requires Valid() && id !in started
      modifies this
      ensures Valid() && started == old(started) + [id]
      ensures View() == Inserted(old(View()), id, goal)
      ensures tasks == old(tasks)[id := Task(goal, Running, "", "")] && order == old(order) + [id]
    {
      InsertedSound(View(), started, keep, id, goal);
      tasks := tasks[id := Task(goal, Running, "", "")];
      order := order + [id];
      started := started + [id];
    }

    method Finish(id: string, e: Ending)
      requires Valid()
      modifies this
      ensures Valid() && started == old(started)
      ensures View() == Finished(old(View()), id, e, keep)
      ensures id in tasks ==> id in old(tasks) && HasEnded(old(tasks)[id], tasks[id], e)
      ensures forall k :: k in tasks && k != id ==> k in old(tasks) && tasks[k] == old(tasks)[k]
    {
      if id !in tasks {
        return;
      }
      EndMeaning(View(), started, keep, id, e);
      hide After, HasEnded;
      FinishedSound(View(), started, keep, id, e);
      OrderDistinct(View(), started, keep);
      tasks := tasks[id := After(tasks[id], e)];
      PruneLocked();
    }

    method PruneLocked()
      requires Distinct(order) && (forall id :: id in tasks ==> id in order)
      modifies this`tasks, this`order
      ensures View() == Pruned(old(View()), keep)
    {
      hide Ended, Sweep, Distinct, Only;
      var finished := CountFinished();
      if finished > keep {
        DropOldest(finished - keep);
      }
    }

    method DropOldest(n: nat)
      requires Distinct(order) && (forall id :: id in tasks ==> id in order)
      modifies this`tasks, this`order
      ensures order == Sweep(old(order), old(tasks), n) && tasks == Only(old(tasks), order)
    {
      hide *;
      var drop, kept, i := n, [], 0;
      ghost var was, result := tasks, Sweep(order, tasks, drop);
      StartSweep(tasks, order, drop);
      while i < |order|
        invariant i <= |order| && Swept(was, tasks, kept, order[i..], drop, result)
        modifies this`tasks
      {
        var id := order[i];
        assert order[i..][1..] == order[i + 1..];
        OneOn(was, tasks, kept, order[i..], drop, result);
        if id in tasks && tasks[id].status.Done() && drop > 0 {
          tasks := tasks - {id};
          drop := drop - 1;
        } else {
          kept := kept + [id];
        }
        i := i + 1;
      }
      SweptOut(was, tasks, kept, order[i..], drop, result);
      order := kept;
    }

    method CountFinished() returns (finished: nat)
      ensures finished == |Ended(order, tasks)|
    {
      finished := 0;
      var i := 0;
      while i < |order|
        invariant i <= |order| && finished + |Ended(order[i..], tasks)| == |Ended(order, tasks)|
      {
        assert order[i..][1..] == order[i + 1..];
        if order[i] in tasks && tasks[order[i]].status.Done() {
          finished := finished + 1;
        }
        i := i + 1;
      }
    }
  }

  // ------------------------------------------------ the pruning loop

  ghost predicate Swept(was: map<string, Task>, tasks: map<string, Task>, kept: seq<string>, rest: seq<string>,
      drop: nat, result: seq<string>) {
    && Distinct(kept + rest)
    && kept + Sweep(rest, was, drop) == result
    && tasks == Only(was, kept + rest)
  }

  lemma StartSweep(tasks: map<string, Task>, order: seq<string>, drop: nat)
    requires Distinct(order) && forall id :: id in tasks ==> id in order
    ensures Swept(tasks, tasks, [], order[0..], drop, Sweep(order, tasks, drop))
  {
    hide Sweep;
    assert [] + order == order && order[0..] == order;
  }

  /** One turn of the pruning loop at the head of `rest`. */
  lemma OneOn(was: map<string, Task>, tasks: map<string, Task>, kept: seq<string>, rest: seq<string>, drop: nat,
      result: seq<string>)
    requires rest != [] && Swept(was, tasks, kept, rest, drop, result)
    ensures if rest[0] in tasks && tasks[rest[0]].status.Done() && drop > 0
      then Swept(was, tasks - {rest[0]}, kept, rest[1..], drop - 1, result)
      else Swept(was, tasks, kept + [rest[0]], rest[1..], drop, result)
  {
    var all, fewer := kept + rest, kept + rest[1..];
    assert all[|kept|] == rest[0];
    assert rest[0] in all;
    assert all == (kept + [rest[0]]) + rest[1..];
    if rest[0] in tasks && tasks[rest[0]].status.Done() && drop > 0 {
      SkipOne(kept, rest);
      assert tasks - {rest[0]} == Only(was, fewer);
    } else {
      assert kept + ([rest[0]] + Sweep(rest[1..], was, drop)) == (kept + [rest[0]]) + Sweep(rest[1..], was, drop);
    }
  }

  lemma SkipOne(kept: seq<string>, rest: seq<string>)
    requires rest != [] && Distinct(kept + rest)
    ensures Distinct(kept + rest[1..])
    ensures forall id :: id in kept + rest[1..] <==> id in kept + rest && id != rest[0]
  {
    var all, fewer := kept + rest, kept + rest[1..];
    assert all[|kept|] == rest[0];
    assert forall i :: 0 <= i < |fewer| ==> fewer[i] == all[if i < |kept| then i else i + 1];
    assert forall i :: 0 <= i < |all| && i != |kept| ==> all[i] == fewer[if i < |kept| then i else i - 1];
  }

  lemma SweptOut(was: map<string, Task>, tasks: map<string, Task>, kept: seq<string>, rest: seq<string>, drop: nat,
      result: seq<string>)
    requires rest == [] && Swept(was, tasks, kept, rest, drop, result)
    ensures kept == result && tasks == Only(was, kept)
  {
    assert kept + rest == kept;
  }

  lemma RunningAreTasks(tasks: map<string, Task>)
    ensures RunningIds(tasks) * tasks.Keys == RunningIds(tasks)
  {
  }

  lemma CountOne(tasks: map<string, Task>, seen: set<string>, id: string)
    requires id in tasks && id !in seen
    ensures |RunningIds(tasks) * (seen + {id})|
            == |RunningIds(tasks) * seen| + if tasks[id].status.Running? then 1 else 0
  {
    if tasks[id].status.Running? {
      assert RunningIds(tasks) * (seen + {id}) == RunningIds(tasks) * seen + {id};
    } else {
      assert RunningIds(tasks) * (seen + {id}) == RunningIds(tasks) * seen;
    }
  }

  // ------------------------------------------------ what the lock sections keep

  lemma OrderDistinct(b: Book, started: seq<string>, keep: nat)
    requires Sound(b, started, keep)
    ensures Distinct(b.order)
  {
    AmongFacts(started, b.tasks.Keys);
  }

  lemma {:induction false} AmongFacts(ids: seq<string>, kept: set<string>)
    ensures forall id :: id in Among(ids, kept) <==> id in ids && id in kept
    ensures Distinct(ids) ==> Distinct(Among(ids, kept))
  {
    if ids != [] {
      AmongFacts(ids[1..], kept);
    }
  }

  lemma {:induction false} AmongSnoc(ids: seq<string>, kept: set<string>, id: string)
    ensures Among(ids + [id], kept) == Among(ids, kept) + if id in kept then [id] else []
  {
    if ids != [] {
      assert (ids + [id])[1..] == ids[1..] + [id];
      AmongSnoc(ids[1..], kept, id);
    }
  }

  lemma {:induction false} AmongSame(ids: seq<string>, kept: set<string>, also: set<string>)
    requires forall id :: id in ids ==> (id in kept <==> id in also)
    ensures Among(ids, kept) == Among(ids, also)
  {
    if ids != [] {
      AmongSame(ids[1..], kept, also);
    }
  }

  lemma {:induction false} AmongFewer(ids: seq<string>, kept: set<string>, fewer: set<string>)
    requires fewer <= kept
    ensures Among(Among(ids, kept), fewer) == Among(ids, fewer)
  {
    if ids != [] {
      AmongFewer(ids[1..], kept, fewer);
      if ids[0] in kept {
        assert ([ids[0]] + Among(ids[1..], kept))[1..] == Among(ids[1..], kept);
      }
    }
  }

  lemma {:induction false} EndedSnoc(order: seq<string>, tasks: map<string, Task>, id: string)
    ensures Ended(order + [id], tasks) == Ended(order, tasks) + if IsDone(tasks, id) then [id] else []
  {
    if order != [] {
      assert (order + [id])[1..] == order[1..] + [id];
      EndedSnoc(order[1..], tasks, id);
    }
  }

  lemma {:induction false} EndedSame(order: seq<string>, tasks: map<string, Task>, other: map<string, Task>)
    requires forall id :: id in order ==> (IsDone(tasks, id) <==> IsDone(other, id))
    ensures Ended(order, tasks) == Ended(order, other)
  {
    if order != [] {
      EndedSame(order[1..], tasks, other);
    }
  }

  lemma InsertedSound(b: Book, started: seq<string>, keep: nat, id: string, goal: string)
    requires Sound(b, started, keep) && id !in started
    ensures Sound(Inserted(b, id, goal), started + [id], keep)
  {
    hide Among, Ended;
    AmongFacts(started, b.tasks.Keys);
    var next := Inserted(b, id, goal);
    AmongSnoc(started, next.tasks.Keys, id);
    AmongSame(started, b.tasks.Keys, next.tasks.Keys);
    EndedSnoc(b.order, next.tasks, id);
    EndedSame(b.order, b.tasks, next.tasks);
  }

  /** Sweeping takes the oldest started of the finished tasks and nothing else. */
  lemma {:induction false} SweepTakesTheOldest(order: seq<string>, tasks: map<string, Task>, drop: nat)
    requires Distinct(order) && drop <= |Ended(order, tasks)|
    ensures Ended(Sweep(order, tasks, drop), tasks) == Ended(order, tasks)[drop..]
    ensures Sweep(order, tasks, drop) == Among(order, set id | id in Sweep(order, tasks, drop))
    ensures forall id :: id in order && !IsDone(tasks, id) ==> id in Sweep(order, tasks, drop)
  {
    if order != [] {
      var taken := IsDone(tasks, order[0]) && drop > 0;
      SweepTakesTheOldest(order[1..], tasks, if taken then drop - 1 else drop);
      var swept := Sweep(order, tasks, drop);
      var left := Sweep(order[1..], tasks, if taken then drop - 1 else drop);
      assert !taken ==> swept[1..] == left;
      AmongSame(order[1..], set id | id in swept, set id | id in left);
    }
  }

  lemma FinishedSound(b: Book, started: seq<string>, keep: nat, id: string, e: Ending)
    requires Sound(b, started, keep)
    ensures Sound(Finished(b, id, e, keep), started, keep)
  {
    if id in b.tasks {
      var t := b.(tasks := b.tasks[id := After(b.tasks[id], e)]);
      assert t.tasks.Keys == b.tasks.Keys;
      OrderDistinct(b, started, keep);
      PrunedSound(t, started, keep);
    }
  }

  lemma PrunedSound(b: Book, started: seq<string>, keep: nat)
    requires Distinct(started) && b.order == Among(started, b.tasks.Keys)
    requires forall id :: id in b.tasks ==> id in b.order
    ensures Sound(Pruned(b, keep), started, keep)
  {
    hide Among, Ended, Sweep;
    AmongFacts(started, b.tasks.Keys);
    var finished := |Ended(b.order, b.tasks)|;
    if finished > keep {
      SweepTakesTheOldest(b.order, b.tasks, finished - keep);
      var kept := Sweep(b.order, b.tasks, finished - keep);
      var next := Only(b.tasks, kept);
      assert next.Keys == set id | id in kept;
      AmongFewer(started, b.tasks.Keys, next.Keys);
      EndedSame(kept, b.tasks, next);
    }
  }

  // ------------------------------------------------ what that means

  /** The tasks a finish finds in the book, with the finishing one now ended. */
  function WithEnd(b: Book, id: string, e: Ending): map<string, Task>
    requires id in b.tasks
  {
    b.tasks[id := After(b.tasks[id], e)]
  }

  /** A task still running is never forgotten, and what is forgotten is always the
      oldest started of the finished: the `keep` newest stay. */
  lemma ForgetsOnlyTheOldest(b: Book, started: seq<string>, keep: nat, id: string, e: Ending)
    requires Sound(b, started, keep) && id in b.tasks
    ensures var next := Finished(b, id, e, keep); var ended := Ended(b.order, WithEnd(b, id, e));
      && RunningIds(next.tasks) == RunningIds(b.tasks) - {id}
      && Ended(next.order, next.tasks) == (if |ended| <= keep then ended else ended[|ended| - keep..])
      && forall k :: k in next.tasks ==> k in b.tasks && next.tasks[k] == WithEnd(b, id, e)[k]
  {
    hide Among, Ended, Sweep;
    OrderDistinct(b, started, keep);
    var t := b.(tasks := WithEnd(b, id, e));
    var n := |Ended(b.order, t.tasks)|;
    assert RunningIds(t.tasks) == RunningIds(b.tasks) - {id};
    if n > keep {
      SweepTakesTheOldest(b.order, t.tasks, n - keep);
      var kept := Sweep(b.order, t.tasks, n - keep);
      EndedSame(kept, t.tasks, Only(t.tasks, kept));
      RunningStays(t.tasks, b.order, kept);
    }
  }

  /** What each ending leaves behind: an error is a failure, and so is a run without a
      result; a result is kept, and a cancelled run counts as cancelled even if blocked. */
  ghost predicate HasEnded(was: Task, now: Task, e: Ending) {
    && now.goal == was.goal && now.status.Done()
    && (now.status == Failed <==> !e.Result?)
    && (e.Error? ==> now.error == e.message && now.result == was.result)
    && (e.NoResult? ==> now.error == "the run produced no result" && now.result == was.result)
    && (e.Result? ==> now.result == e.text && now.error == was.error)
    && (now.status == Cancelled <==> e.Result? && e.cancelled)
    && (now.status == Blocked <==> e.Result? && !e.cancelled && e.blocked)
    && (now.status == Completed <==> e.Result? && !e.cancelled && !e.blocked)
  }

  /** An ended task that is still remembered says how it ended; the others are untouched. */
  lemma EndMeaning(b: Book, started: seq<string>, keep: nat, id: string, e: Ending)
    requires Sound(b, started, keep) && id in b.tasks
    ensures var next := Finished(b, id, e, keep).tasks;
      && (id in next ==> HasEnded(b.tasks[id], next[id], e))
      && forall k :: k in next && k != id ==> k in b.tasks && next[k] == b.tasks[k]
  {
    hide Sound, Finished, RunningIds, Ended;
    ForgetsOnlyTheOldest(b, started, keep, id, e);
  }

  lemma RunningStays(tasks: map<string, Task>, order: seq<string>, kept: seq<string>)
    requires forall id :: id in tasks ==> id in order
    requires forall id :: id in order && !IsDone(tasks, id) ==> id in kept
    ensures RunningIds(Only(tasks, kept)) == RunningIds(tasks)
  {
  }

  /** Whether a task's result can still be collected once it has ended: exactly when
      fewer than `keep` of the tasks started after it have ended already. A task that
      outlived `keep` younger ones is forgotten in the very call that records its end. */
  lemma CollectableIff(b: Book, started: seq<string>, keep: nat, id: string, e: Ending, before: seq<string>,
      after: seq<string>)
    requires Sound(b, started, keep) && id in b.tasks && b.order == before + [id] + after
    ensures id in Finished(b, id, e, keep).tasks <==> |Ended(after, b.tasks)| < keep
  {
    hide *;
    var tasks := WithEnd(b, id, e);
    var n := |Ended(b.order, tasks)|;
    EndsAtItsPlace(b, started, keep, id, e, before, after);
    StaysIff(b, started, keep, id, e);
    if n > keep {
      InTheTail(Ended(b.order, tasks), n - keep, |Ended(before, tasks)|);
    }
  }

  /** In the list of finished tasks, the one that ends stands between the finished tasks
      started before it and those started after it. */
  lemma EndsAtItsPlace(b: Book, started: seq<string>, keep: nat, id: string, e: Ending, before: seq<string>,
      after: seq<string>)
    requires Sound(b, started, keep) && id in b.tasks && b.order == before + [id] + after
    ensures var tasks := WithEnd(b, id, e);
      && Ended(b.order, tasks) == Ended(before, tasks) + [id] + Ended(after, b.tasks)
      && Distinct(Ended(b.order, tasks))
  {
    hide Among, Ended;
    OrderDistinct(b, started, keep);
    var tasks := WithEnd(b, id, e);
    assert forall i :: 0 <= i < |after| ==> b.order[|before| + 1 + i] == after[i];
    assert b.order[|before|] == id;
    EndedSame(after, b.tasks, tasks);
    EndedParts(before, id, after, tasks);
    EndedFacts(b.order, tasks);
  }

  lemma StaysIff(b: Book, started: seq<string>, keep: nat, id: string, e: Ending)
    requires Sound(b, started, keep) && id in b.tasks
    ensures var ended := Ended(b.order, WithEnd(b, id, e));
      id in Finished(b, id, e, keep).tasks <==> |ended| <= keep || id in ended[|ended| - keep..]
  {
    hide Among, Ended, Sweep;
    OrderDistinct(b, started, keep);
    var tasks := WithEnd(b, id, e);
    var n := |Ended(b.order, tasks)|;
    if n > keep {
      SweepTakesTheOldest(b.order, tasks, n - keep);
      EndedFacts(Sweep(b.order, tasks, n - keep), tasks);
    }
  }

  lemma InTheTail(s: seq<string>, drop: nat, i: nat)
    requires Distinct(s) && drop <= |s| && i < |s|
    ensures s[i] in s[drop..] <==> i >= drop
  {
    if i >= drop {
      assert s[drop..][i - drop] == s[i];
    }
  }

  lemma {:induction false} EndedFacts(order: seq<string>, tasks: map<string, Task>)
    ensures forall id :: id in Ended(order, tasks) <==> id in order && id in tasks && tasks[id].status != Running
    ensures Distinct(order) ==> Distinct(Ended(order, tasks))
  {
    if order != [] {
      EndedFacts(order[1..], tasks);
    }
  }

  lemma {:induction false} EndedParts(before: seq<string>, id: string, after: seq<string>, tasks: map<string, Task>)
    requires IsDone(tasks, id)
    ensures Ended(before + [id] + after, tasks) == Ended(before, tasks) + [id] + Ended(after, tasks)
  {
    var order := before + [id] + after;
    if before == [] {
      assert order[1..] == after;
    } else {
      EndedParts(before[1..], id, after, tasks);
      assert order[1..] == before[1..] + [id] + after;
    }
  }

  // ------------------------------------------------ many callers at once

  /** What can happen next: a caller passes the check, a caller that passed it puts its
      task in, a task ends. At most `starters` callers are between the two sections. */
  datatype Event = Check | Put(id: string, goal: string) | End(id: string, ending: Ending)

  datatype System = System(book: Book, started: seq<string>, pending: nat)

  datatype Limits = Limits(max: nat, keep: nat, starters: nat)

  const IDLE := System(Book(map[], []), [], 0)

  function Step(s: System, ev: Event, l: Limits): System {
    match ev
    case Check =>
      if s.pending < l.starters && |RunningIds(s.book.tasks)| < l.max then s.(pending := s.pending + 1) else s
    case Put(id, goal) =>
      if s.pending > 0 && id !in s.started
      then System(Inserted(s.book, id, goal), s.started + [id], s.pending - 1) else s
    case End(id, ending) => s.(book := Finished(s.book, id, ending, l.keep))
  }

  function Run(s: System, evs: seq<Event>, l: Limits): System {
    if evs == [] then s else Step(Run(s, evs[..|evs| - 1], l), evs[|evs| - 1], l)
  }

  ghost predicate Bounded(s: System, l: Limits) {
    && Sound(s.book, s.started, l.keep)
    && s.pending <= l.starters
    && var running := |RunningIds(s.book.tasks)|;
      s.pending > 0 || running > 0 ==> running + s.pending <= l.max - 1 + l.starters
  }

  lemma StepBounded(s: System, ev: Event, l: Limits)
    requires Bounded(s, l)
    ensures Bounded(Step(s, ev, l), l)
  {
    hide Sound, Pruned;
    match ev
    case Check =>
    case Put(id, goal) =>
      if s.pending > 0 && id !in s.started {
        InsertedSound(s.book, s.started, l.keep, id, goal);
        assert RunningIds(Inserted(s.book, id, goal).tasks) == RunningIds(s.book.tasks) + {id};
      }
    case End(id, ending) =>
      FinishedSound(s.book, s.started, l.keep, id, ending);
      if id in s.book.tasks {
        ForgetsOnlyTheOldest(s.book, s.started, l.keep, id, ending);
        Fewer(RunningIds(s.book.tasks) - {id}, RunningIds(s.book.tasks));
      }
  }

  lemma Fewer(a: set<string>, b: set<string>)
    requires a <= b
    ensures |a| <= |b|
  {
    assert b == a + (b - a);
  }

  /** However the sections of any number of starts and ends interleave, the book stays
      sound, and with k callers starting at once at most max - 1 + k tasks run. */
  lemma {:induction false} EveryRunIsBounded(evs: seq<Event>, l: Limits)
    ensures Bounded(Run(IDLE, evs, l), l)
  {
    if evs == [] {
      assert Ended([], map[]) == [] && Among([], {}) == [];
    } else {
      EveryRunIsBounded(evs[..|evs| - 1], l);
      StepBounded(Run(IDLE, evs[..|evs| - 1], l), evs[|evs| - 1], l);
    }
  }

  function Name(n: nat): string {
    seq(n, _ => 'x')
  }

  /** `waiting` callers past the check, `n` tasks in the book, all of them running. */
  ghost predicate AllRunning(s: System, n: nat, waiting: nat) {
    && s.pending == waiting && |s.started| == n
    && (forall i :: 0 <= i < n ==> s.started[i] == Name(i))
    && |RunningIds(s.book.tasks)| == n
    && (forall id :: id in s.book.tasks ==> id in s.started)
  }

  lemma PutsOne(s: System, n: nat, waiting: nat, l: Limits)
    requires AllRunning(s, n, waiting) && waiting > 0
    ensures AllRunning(Step(s, Put(Name(n), ""), l), n + 1, waiting - 1)
  {
    assert forall i :: 0 <= i < n ==> |s.started[i]| == i;
    assert Name(n) !in s.started;
    assert RunningIds(Inserted(s.book, Name(n), "").tasks) == RunningIds(s.book.tasks) + {Name(n)};
  }

  lemma RunOneMore(s: System, evs: seq<Event>, ev: Event, l: Limits)
    ensures Run(s, evs + [ev], l) == Step(Run(s, evs, l), ev, l)
  {
    assert (evs + [ev])[..|evs|] == evs;
  }

  /** Callers one after another fill the registry up to max - 1; then k at once pass the
      check and all go in. */
  lemma {:induction false} Fill(n: nat, waiting: nat, l: Limits) returns (evs: seq<Event>)
    requires l.max >= 1 && l.starters >= 1
    requires waiting <= l.starters && n + waiting <= l.max - 1 + l.starters
    ensures AllRunning(Run(IDLE, evs, l), n, waiting)
    decreases n, waiting
  {
    if n == 0 && waiting == 0 {
      evs := [];
      assert RunningIds(IDLE.book.tasks) == {};
    } else if n < l.max && waiting > 0 {
      var before := Fill(n, waiting - 1, l);
      evs := before + [Check];
      RunOneMore(IDLE, before, Check, l);
    } else {
      var before := Fill(n - 1, waiting + 1, l);
      evs := before + [Put(Name(n - 1), "")];
      RunOneMore(IDLE, before, Put(Name(n - 1), ""), l);
      PutsOne(Run(IDLE, before, l), n - 1, waiting + 1, l);
    }
  }

  /** The bound is reached, so the documented ceiling of `max` running tasks holds on
      every run exactly when no two callers start at the same time. */
  lemma CeilingHoldsIff(l: Limits)
    requires l.max >= 1
    ensures (forall evs :: |RunningIds(Run(IDLE, evs, l).book.tasks)| <= l.max) <==> l.starters <= 1
  {
    hide RunningIds;
    if l.starters <= 1 {
      forall evs ensures |RunningIds(Run(IDLE, evs, l).book.tasks)| <= l.max {
        EveryRunIsBounded(evs, l);
      }
    } else {
      var evs := Fill(l.max - 1 + l.starters, 0, l);
      assert |RunningIds(Run(IDLE, evs, l).book.tasks)| > l.max;
    }
  }

  // ------------------------------------------------ a result nobody can collect

  function Names(n: nat): (names: seq<string>)
    ensures |names| == n && forall k :: 0 <= k < n ==> names[k] == Name(k)
  {
    seq(n, k requires 0 <= k < n => Name(k))
  }

  /** The first task still runs; the k started after it have ended. */
  ghost predicate Outlives(s: System, k: nat) {
    && s.pending == 0 && s.started == Names(k + 1) && s.book.order == Names(k + 1)
    && RunningIds(s.book.tasks) == {Name(0)}
    && |Ended(s.book.order, s.book.tasks)| == k
  }

  lemma NextName(n: nat)
    ensures Name(n) !in Names(n) && Names(n + 1) == Names(n) + [Name(n)]
  {
    assert forall k :: 0 <= k < n ==> |Names(n)[k]| == k;
  }

  /** One more task comes and goes while the first still runs. */
  lemma OneMoreEnds(s: System, k: nat, l: Limits)
    requires Outlives(s, k) && Sound(s.book, s.started, l.keep)
    requires l.max >= 2 && l.starters >= 1 && k < l.keep
    ensures var id := Name(k + 1);
      Outlives(Step(Step(Step(s, Check, l), Put(id, ""), l), End(id, NoResult), l), k + 1)
  {
    hide Among, Ended, Name;
    var id := Name(k + 1);
    NextName(k + 1);
    NotFirst(k + 1);
    var s2 := Step(Step(s, Check, l), Put(id, ""), l);
    InsertedSound(s.book, s.started, l.keep, id, "");
    EndsAtItsPlace(s2.book, s2.started, l.keep, id, NoResult, s.book.order, []);
    assert s.book.order + [id] + [] == s2.book.order;
    var tasks := WithEnd(s2.book, id, NoResult);
    EndedSame(s.book.order, s.book.tasks, tasks);
    NothingEnded(s2.book.tasks);
    assert RunningIds(tasks) == {Name(0)};
  }

  lemma NotFirst(k: nat)
    requires k > 0
    ensures Name(k) != Name(0)
  {
    assert |Name(k)| == k;
  }

  lemma NothingEnded(tasks: map<string, Task>)
    ensures Ended([], tasks) == []
  {
  }

  lemma {:induction false} KeptWaiting(k: nat, l: Limits) returns (evs: seq<Event>)
    requires l.max >= 2 && l.starters >= 1 && k <= l.keep
    ensures Outlives(Run(IDLE, evs, l), k)
  {
    hide Outlives;
    if k == 0 {
      var checked: seq<Event> := [Check];
      assert checked == [] + [Check];
      evs := checked + [Put(Name(0), "")];
      RunOneMore(IDLE, [], Check, l);
      RunOneMore(IDLE, checked, Put(Name(0), ""), l);
      FirstStarted(l);
    } else {
      var before := KeptWaiting(k - 1, l);
      EveryRunIsBounded(before, l);
      OneMoreEnds(Run(IDLE, before, l), k - 1, l);
      evs := before + [Check] + [Put(Name(k), "")] + [End(Name(k), NoResult)];
      RunOneMore(IDLE, before, Check, l);
      RunOneMore(IDLE, before + [Check], Put(Name(k), ""), l);
      RunOneMore(IDLE, before + [Check] + [Put(Name(k), "")], End(Name(k), NoResult), l);
    }
  }

  lemma FirstStarted(l: Limits)
    requires l.max >= 2 && l.starters >= 1
    ensures Outlives(Step(Step(Run(IDLE, [], l), Check, l), Put(Name(0), ""), l), 0)
  {
    var s := Step(Step(IDLE, Check, l), Put(Name(0), ""), l);
    assert RunningIds(IDLE.book.tasks) == {};
    assert s.book.tasks == map[Name(0) := Task("", Running, "", "")];
    assert s.book.order == [Name(0)] && [Name(0)][1..] == [];
    assert RunningIds(s.book.tasks) == {Name(0)};
  }

  lemma FirstStillRuns(order: seq<string>, tasks: map<string, Task>)
    requires order != [] && order[0] in RunningIds(tasks)
    ensures Ended(order[1..], tasks) == Ended(order, tasks)
  {
  }

  /** From an idle registry: once `keep` younger tasks have come and gone, the end of the
      first task is its last trace. It was running until then. */
  lemma EndsUncollected(l: Limits) returns (evs: seq<Event>)
    requires l.max >= 2 && l.starters >= 1
    ensures Name(0) in RunningIds(Run(IDLE, evs, l).book.tasks)
    ensures Name(0) !in Run(IDLE, evs + [End(Name(0), Result(false, false, "the answer"))], l).book.tasks
  {
    hide Among, Sweep, Name, Ended, Names, Finished, Sound;
    evs := KeptWaiting(l.keep, l);
    var s := Run(IDLE, evs, l);
    var e := Result(false, false, "the answer");
    EveryRunIsBounded(evs, l);
    RunOneMore(IDLE, evs, End(Name(0), e), l);
    var after := s.book.order[1..];
    assert s.book.order == [] + [Name(0)] + after;
    assert Name(0) in RunningIds(s.book.tasks);
    assert s.book.order[0] == Name(0);
    FirstStillRuns(s.book.order, s.book.tasks);
    CollectableIff(s.book, s.started, l.keep, Name(0), e, [], after);
  }
}
