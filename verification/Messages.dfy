/** The message type the loop, the compactor and the history window share
    (pkg/domain/types.go), tool rounds, and call/result pairing. */
module Messages {

  datatype Role = System | User | Assistant | Tool | Other(name: string)

  datatype ToolCall = ToolCall(id: string, name: string, args: string)

  datatype Message = Message(
    role: Role,
    content: string,
    reasoning: string,
    parts: seq<string>,
    calls: seq<ToolCall>,
    callId: string)

  /** An assistant message carrying tool calls opens a tool round. */
  predicate OpensRound(m: Message) {
    m.role.Assistant? && m.calls != []
  }

  function CallIds(calls: seq<ToolCall>): (ids: seq<string>)
    ensures |ids| == |calls| && forall i :: 0 <= i < |ids| ==> ids[i] == calls[i].id
  {
    seq(|calls|, i requires 0 <= i < |calls| => calls[i].id)
  }

  function RoundCount(ms: seq<Message>): nat {
    if ms == [] then 0 else (if OpensRound(ms[0]) then 1 else 0) + RoundCount(ms[1..])
  }

  /** Equal but for the text of the messages. */
  ghost predicate SameShape(a: seq<Message>, b: seq<Message>) {
    |a| == |b| && forall i :: 0 <= i < |a| ==> b[i] == a[i].(content := b[i].content)
  }

  /** The nearest message before `i` that is not a tool result, -1 when there is none. */
  function Owner(ms: seq<Message>, i: nat): (o: int)
    requires i <= |ms|
    ensures -1 <= o < i
    ensures o >= 0 ==> !ms[o].role.Tool?
    ensures forall k :: o < k < i ==> ms[k].role.Tool?
  {
    if i == 0 then -1 else if !ms[i - 1].role.Tool? then i - 1 else Owner(ms, i - 1)
  }

  /** A result stands directly after the message that made its call, with only
      results of that same round between them. */
  predicate Answers(ms: seq<Message>, i: nat)
    requires i < |ms|
  {
    var o := Owner(ms, i);
    o >= 0 && OpensRound(ms[o]) && ms[i].callId in CallIds(ms[o].calls)
  }

  /** What every provider validates: no tool result without its call. */
  predicate WellPaired(ms: seq<Message>) {
    forall i :: 0 <= i < |ms| && ms[i].role.Tool? ==> Answers(ms, i)
  }

  /** The call ids answered by the results a sequence starts with. */
  function LeadingResults(ms: seq<Message>): seq<string> {
    if ms == [] || !ms[0].role.Tool? then [] else [ms[0].callId] + LeadingResults(ms[1..])
  }

  /** One tool round: the calls made and the ids of the results that follow. */
  datatype ToolRound = ToolRound(calls: seq<ToolCall>, answered: seq<string>)

  /** The tool rounds of a history, oldest first. */
  function Rounds(ms: seq<Message>): seq<ToolRound> {
    if ms == [] then []
    else if OpensRound(ms[0]) then [ToolRound(ms[0].calls, LeadingResults(ms[1..]))] + Rounds(ms[1..])
    else Rounds(ms[1..])
  }

  lemma {:induction false} OwnerUnique(ms: seq<Message>, i: nat, o: int)
    requires i <= |ms| && -1 <= o < i
    requires o >= 0 ==> !ms[o].role.Tool?
    requires forall k :: o < k < i ==> ms[k].role.Tool?
    ensures Owner(ms, i) == o
  {
    var p := Owner(ms, i);
    if p < o {
      assert false;
    } else if o < p {
      assert false;
    }
  }

  /** Pairing by place: before each result, with nothing but results between, stands the
      assistant message that made its call. */
  lemma PairedMeaning(ms: seq<Message>)
    ensures WellPaired(ms) <==> forall i :: 0 <= i < |ms| && ms[i].role.Tool? ==> MadeBefore(ms, i)
  {
    hide CallIds;
    forall i | 0 <= i < |ms| && ms[i].role.Tool? ensures Answers(ms, i) <==> MadeBefore(ms, i) {
      if o :| 0 <= o < i && ms[o].role.Assistant? && forall k :: o < k < i ==> ms[k].role.Tool? {
        OwnerUnique(ms, i, o);
      }
      CallsById(ms[if Owner(ms, i) < 0 then i else Owner(ms, i)].calls, ms[i].callId);
    }
  }

  ghost predicate MadeBefore(ms: seq<Message>, i: nat)
    requires i < |ms|
  {
    exists o, k :: 0 <= o < i && ms[o].role == Assistant && 0 <= k < |ms[o].calls| && ms[o].calls[k].id == ms[i].callId
                   && forall j :: o < j < i ==> ms[j].role == Tool
  }

  lemma CallsById(calls: seq<ToolCall>, id: string)
    ensures id in CallIds(calls) <==> exists k :: 0 <= k < |calls| && calls[k].id == id
  {
    if k :| 0 <= k < |calls| && calls[k].id == id {
      assert CallIds(calls)[k] == id;
    }
  }

  lemma PairedStart(ms: seq<Message>)
    requires WellPaired(ms) && ms != []
    ensures !ms[0].role.Tool?
  {
    assert !Answers(ms, 0);
  }

  lemma AnswersInPrefix(a: seq<Message>, b: seq<Message>, i: nat)
    requires i < |a|
    ensures Answers(a + b, i) <==> Answers(a, i)
  {
    OwnerUnique(a + b, i, Owner(a, i));
  }

  lemma AnswersInSuffix(a: seq<Message>, b: seq<Message>, i: nat)
    requires i < |b| && b[i].role.Tool? && !b[0].role.Tool?
    ensures Answers(a + b, |a| + i) <==> Answers(b, i)
  {
    var o := Owner(b, i);
    assert o >= 0;
    assert (a + b)[|a| + o] == b[o] && (a + b)[|a| + i] == b[i];
    forall k | |a| + o < k < |a| + i ensures (a + b)[k].role.Tool? {
      assert (a + b)[k] == b[k - |a|];
    }
    OwnerUnique(a + b, |a| + i, |a| + o);
  }

  /** Pairing looks back no further than the last message that is no result, so
      histories that part at such a message pair independently. */
  lemma PairedSplit(a: seq<Message>, b: seq<Message>)
    requires b == [] || !b[0].role.Tool?
    ensures WellPaired(a + b) <==> WellPaired(a) && WellPaired(b)
  {
    forall i: nat | i < |a| ensures Answers(a + b, i) <==> Answers(a, i) {
      AnswersInPrefix(a, b, i);
    }
    forall i: nat | i < |b| && b[i].role.Tool? ensures Answers(a + b, |a| + i) <==> Answers(b, i) {
      AnswersInSuffix(a, b, i);
    }
    if WellPaired(a + b) {
      SplitPaired(a, b);
    }
    if WellPaired(a) && WellPaired(b) {
      JoinPaired(a, b);
    }
  }

  lemma SplitPaired(a: seq<Message>, b: seq<Message>)
    requires WellPaired(a + b)
    requires forall i: nat :: i < |a| ==> (Answers(a + b, i) <==> Answers(a, i))
    requires forall i: nat :: i < |b| && b[i].role.Tool? ==> (Answers(a + b, |a| + i) <==> Answers(b, i))
    ensures WellPaired(a) && WellPaired(b)
  {
    forall i | 0 <= i < |a| && a[i].role.Tool? ensures Answers(a, i) {
      assert (a + b)[i] == a[i];
    }
    forall i | 0 <= i < |b| && b[i].role.Tool? ensures Answers(b, i) {
      assert (a + b)[|a| + i] == b[i];
    }
  }

  lemma JoinPaired(a: seq<Message>, b: seq<Message>)
    requires WellPaired(a) && WellPaired(b)
    requires forall i: nat :: i < |a| ==> (Answers(a + b, i) <==> Answers(a, i))
    requires forall i: nat :: i < |b| && b[i].role.Tool? ==> (Answers(a + b, |a| + i) <==> Answers(b, i))
    ensures WellPaired(a + b)
  {
    forall i | 0 <= i < |a + b| && (a + b)[i].role.Tool? ensures Answers(a + b, i) {
      if i >= |a| {
        var j := i - |a|;
        assert b[j] == (a + b)[|a| + j];
        assert Answers(b, j);
      }
    }
  }

  lemma {:induction false} LeadingResultsSplit(a: seq<Message>, b: seq<Message>)
    requires b == [] || !b[0].role.Tool?
    ensures LeadingResults(a + b) == LeadingResults(a)
  {
    if a == [] {
      assert a + b == b;
    } else {
      assert (a + b)[1..] == a[1..] + b;
      LeadingResultsSplit(a[1..], b);
    }
  }

  /** Cutting a history at a message that is no result cuts no round in two. */
  lemma {:induction false} RoundsSplit(a: seq<Message>, b: seq<Message>)
    requires b == [] || !b[0].role.Tool?
    ensures Rounds(a + b) == Rounds(a) + Rounds(b)
  {
    if a == [] {
      assert a + b == b;
    } else {
      assert (a + b)[1..] == a[1..] + b;
      RoundsSplit(a[1..], b);
      LeadingResultsSplit(a[1..], b);
    }
  }

  lemma {:induction false} ShapeKeepsRounds(a: seq<Message>, b: seq<Message>)
    requires SameShape(a, b)
    ensures LeadingResults(a) == LeadingResults(b) && Rounds(a) == Rounds(b)
    ensures RoundCount(a) == RoundCount(b)
  {
    if a != [] {
      ShapeKeepsRounds(a[1..], b[1..]);
    }
  }

  lemma ShapeKeepsPairing(a: seq<Message>, b: seq<Message>)
    requires SameShape(a, b) && WellPaired(a)
    ensures WellPaired(b)
  {
    forall i | 0 <= i < |b| && b[i].role.Tool? ensures Answers(b, i) {
      assert Answers(a, i);
      OwnerUnique(b, i, Owner(a, i));
    }
  }
}
