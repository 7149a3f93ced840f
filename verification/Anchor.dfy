/** Sizing the context from the provider's last report (pkg/agent/compaction_anchor.go,
    pkg/pool/tokens.go:142-181). */
module Anchor {
  import opened Messages

  /** The tokenizer: tokens of a text, and of a call's name and arguments. */
  datatype Estimator = Estimator(text: string -> nat, call: ToolCall -> nat)

  function TextTokens(e: Estimator, texts: seq<string>): nat {
    if texts == [] then 0 else e.text(texts[0]) + TextTokens(e, texts[1..])
  }

  function CallTokens(e: Estimator, calls: seq<ToolCall>): nat {
    if calls == [] then 0 else e.call(calls[0]) + 8 + CallTokens(e, calls[1..])
  }

  function MessageTokens(e: Estimator, m: Message): nat {
    2 + e.text(m.content) + e.text(m.reasoning) + TextTokens(e, m.parts) + CallTokens(e, m.calls)
    + (if m.callId == "" then 0 else 4) + 3
  }

  /** EstimateConversationTokens. */
  function Estimate(e: Estimator, ms: seq<Message>): nat {
    if ms == [] then 0 else Estimate(e, ms[..|ms| - 1]) + MessageTokens(e, ms[|ms| - 1])
  }

  lemma {:induction false} EstimateSplit(e: Estimator, a: seq<Message>, b: seq<Message>)
    ensures Estimate(e, a + b) == Estimate(e, a) + Estimate(e, b)
  {
    if b == [] {
      assert a + b == a;
    } else {
      assert (a + b)[..|a + b| - 1] == a + b[..|b| - 1];
      EstimateSplit(e, a, b[..|b| - 1]);
    }
  }

  /** messageSignature. */
  datatype Signature = Signature(role: Role, chars: nat, calls: nat, callId: string, parts: nat)

  function SignatureOf(m: Message): Signature {
    Signature(m.role, |m.content|, |m.calls|, m.callId, |m.parts|)
  }

  /** usageAnchor: the provider's prompt count for the first `count` messages. */
  datatype Anchor = Dropped | At(prompt: int, count: nat, lastSig: Signature)

  /** newUsageAnchor. */
  function NewAnchor(promptTokens: int, ms: seq<Message>): (a: Anchor)
    ensures a.At? ==> Covers(a, ms)
  {
    if promptTokens <= 0 || ms == [] then Dropped
    else At(promptTokens, |ms|, SignatureOf(ms[|ms| - 1]))
  }

  predicate Covers(a: Anchor, ms: seq<Message>) {
    a.At? && 0 < a.count <= |ms| && SignatureOf(ms[a.count - 1]) == a.lastSig
  }

  /** contextTokens: what the next request is measured to carry. */
  function Measured(e: Estimator, a: Anchor, overhead: int, ms: seq<Message>): int {
    if Covers(a, ms) then a.prompt + Estimate(e, ms[a.count..]) else Estimate(e, ms) + overhead
  }

  /** What a rewrite took out of the first n messages. */
  function Removed(e: Estimator, before: seq<Message>, after: seq<Message>, n: nat): int
    requires |before| == |after| && n <= |before|
  {
    if n == 0 then 0
    else Removed(e, before, after, n - 1)
         + if before[n - 1].content == after[n - 1].content then 0
           else e.text(before[n - 1].content) - e.text(after[n - 1].content)
  }

  lemma {:induction false} RemovedIsEstimateDrop(e: Estimator, before: seq<Message>, after: seq<Message>, n: nat)
    requires SameShape(before, after) && n <= |before|
    ensures Removed(e, before, after, n) == Estimate(e, before[..n]) - Estimate(e, after[..n])
  {
    if n > 0 {
      RemovedIsEstimateDrop(e, before, after, n - 1);
      assert before[..n][..n - 1] == before[..n - 1] && after[..n][..n - 1] == after[..n - 1];
    }
  }

  /** The anchor after shiftAnchorForClip. */
  function Shifted(e: Estimator, a: Anchor, before: seq<Message>, after: seq<Message>): Anchor {
    if a.Dropped? || |before| != |after| || !Covers(a, before) then Dropped
    else
      var prompt := a.prompt - Removed(e, before, after, a.count);
      if prompt <= 0 then Dropped else At(prompt, a.count, SignatureOf(after[a.count - 1]))
  }

  /** Carrying the anchor across a clip loses nothing: unless the reported count
      would fall to zero or below, the measured context falls by exactly what the
      estimator says was removed, in front of the anchored prefix's end and behind it. */
  lemma ShiftIsExact(e: Estimator, a: Anchor, overhead: int, before: seq<Message>, after: seq<Message>)
    requires SameShape(before, after)
    ensures var a' := Shifted(e, a, before, after);
      && (a'.At? ==> Covers(a', after))
      && (a'.At? <==> Covers(a, before) && a.prompt > Removed(e, before, after, a.count))
      && (a'.At? || !Covers(a, before) ==>
            Measured(e, a', overhead, after)
            == Measured(e, a, overhead, before) - (Estimate(e, before) - Estimate(e, after)))
  {
    hide Removed, Estimate;
    if Covers(a, before) {
      RemovedIsEstimateDrop(e, before, after, a.count);
      assert before == before[..a.count] + before[a.count..];
      assert after == after[..a.count] + after[a.count..];
      EstimateSplit(e, before[..a.count], before[a.count..]);
      EstimateSplit(e, after[..a.count], after[a.count..]);
    }
  }

  /** A report stays good for every history that extends the one it counted, and
      only what was appended is estimated. */
  lemma ReportMeasuresExtension(e: Estimator, prompt: int, overhead: int, ms: seq<Message>, more: seq<Message>)
    requires prompt > 0 && ms != []
    ensures Measured(e, NewAnchor(prompt, ms), overhead, ms + more) == prompt + Estimate(e, more)
  {
    assert (ms + more)[|ms|..] == more;
  }

  /** A tokenizer that counts characters. */
  const COUNTING := Estimator((s: string) => |s|, (c: ToolCall) => |c.name|)

  const TWO_CALLS := [ToolCall("i", "name", ""), ToolCall("j", "n", "")]

  /** A message is estimated at its texts, its calls at 8 each beside their names and
      arguments, an answered call id at 4, and 5 for the message itself. */
  lemma SampleTokens()
    ensures Estimate(COUNTING, [Message(User, "abc", "", [], [], "")]) == 3 + 5
    ensures Estimate(COUNTING, [Message(Assistant, "", "ab", ["x", "yz"], TWO_CALLS, "r")])
            == 2 + 3 + (4 + 8) + (1 + 8) + 4 + 5
  {
    var m, n := Message(User, "abc", "", [], [], ""), Message(Assistant, "", "ab", ["x", "yz"], TWO_CALLS, "r");
    assert [m][..0] == [] && [n][..0] == [];
    assert ["x", "yz"][1..] == ["yz"] && ["yz"][1..] == [];
    assert TextTokens(COUNTING, ["yz"]) == 2 && TextTokens(COUNTING, ["x", "yz"]) == 3;
    assert TWO_CALLS[1..] == [ToolCall("j", "n", "")] && TWO_CALLS[1..][1..] == [];
    assert CallTokens(COUNTING, TWO_CALLS[1..]) == 9 && CallTokens(COUNTING, TWO_CALLS) == 21;
    assert MessageTokens(COUNTING, n) == 35;
  }
}
