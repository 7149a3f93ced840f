/** Pulling a JSON object out of a model reply (pkg/agent/json_lenient.go). */
module JsonExtract {
  import opened Options
  import opened JsonGrammar

  // ------------------------------------------------ the brace scanner

  datatype Scan = Scan(depth: int, inString: bool, escaped: bool)

  const OUTSIDE := Scan(0, false, false)

  function Next(st: Scan, c: char): Scan {
    if st.escaped then st.(escaped := false)
    else if c == '\\' && st.inString then st.(escaped := true)
    else if c == '"' then st.(inString := !st.inString)
    else if st.inString then st
    else if c == '{' then st.(depth := st.depth + 1)
    else if c == '}' then st.(depth := st.depth - 1)
    else st
  }

  /** The brace at which the scan returns: structure, and depth back at zero. */
  predicate Closes(st: Scan, c: char) {
    !st.escaped && !st.inString && c == '}' && st.depth == 1
  }

  /** Where a scan of `s` closes. */
  function CloseAt(s: string, st: Scan): (r: Option<nat>)
    ensures r.Some? ==> r.value < |s| && s[r.value] == '}'
  {
    if s == [] then None
    else if Closes(st, s[0]) then Some(0)
    else match CloseAt(s[1..], Next(st, s[0]))
      case None => None
      case Some(i) => Some(i + 1)
  }

  function After(s: string, st: Scan): Scan {
    if s == [] then st else After(s[1..], Next(st, s[0]))
  }

  /** Text the scanner runs through without closing. */
  ghost predicate Runs(s: string, st: Scan, st': Scan) {
    CloseAt(s, st).None? && After(s, st) == st'
  }

  lemma {:induction false} RunsThen(a: string, b: string, st: Scan)
    requires CloseAt(a, st).None?
    ensures After(a + b, st) == After(b, After(a, st))
    ensures CloseAt(a + b, st) ==
            match CloseAt(b, After(a, st)) case None => None case Some(i) => Some(|a| + i)
  {
    if a == [] {
      assert a + b == b;
    } else {
      assert (a + b)[1..] == a[1..] + b;
      RunsThen(a[1..], b, Next(st, a[0]));
    }
  }

  lemma Chain(a: string, b: string, st: Scan, mid: Scan, end: Scan)
    requires Runs(a, st, mid) && Runs(b, mid, end)
    ensures Runs(a + b, st, end)
  {
    RunsThen(a, b, st);
  }

  /** Structure at depth d, between tokens. */
  function At(d: nat): Scan {
    Scan(d, false, false)
  }

  function Within(d: nat): Scan {
    Scan(d, true, false)
  }

  predicate Neutral(s: string) {
    forall i :: 0 <= i < |s| ==> s[i] !in "{}\"\\"
  }

  lemma {:induction false} NeutralRuns(s: string, d: nat)
    requires Neutral(s)
    ensures Runs(s, At(d), At(d))
  {
    if s != [] {
      NeutralRuns(s[1..], d);
    }
  }

  lemma {:induction false} PiecesRun(ps: seq<Piece>, d: nat)
    requires ValidPieces(ps)
    ensures Runs(PrintPieces(ps), Within(d), Within(d))
  {
    if ps != [] {
      PieceRuns(ps[0], d);
      PiecesRun(ps[1..], d);
      Chain(ps[0].Print(), PrintPieces(ps[1..]), Within(d), Within(d), Within(d));
    }
  }

  lemma EscapeRuns(c: char, rest: string, d: nat)
    requires Runs(rest, Within(d), Within(d))
    ensures Runs(['\\', c] + rest, Within(d), Within(d))
  {
    var s := ['\\', c] + rest;
    assert s[1..] == [c] + rest && ([c] + rest)[1..] == rest;
    assert Next(Within(d), '\\') == Scan(d, true, true) && Next(Scan(d, true, true), c) == Within(d);
  }

  lemma PieceRuns(p: Piece, d: nat)
    requires p.Valid()
    ensures Runs(p.Print(), Within(d), Within(d))
  {
    match p {
      case Plain(c) =>
        PlainRuns([c], d);
      case Escaped(c) =>
        EscapeRuns(c, "", d);
        assert ['\\', c] + "" == p.Print();
      case Unicode(hex) =>
        PlainRuns(hex, d);
        EscapeRuns('u', hex, d);
        assert ['\\', 'u'] + hex == p.Print();
    }
  }

  lemma {:induction false} PlainRuns(s: string, d: nat)
    requires forall i :: 0 <= i < |s| ==> s[i] != '"' && s[i] != '\\'
    ensures Runs(s, Within(d), Within(d))
  {
    if s != [] {
      PlainRuns(s[1..], d);
    }
  }

  lemma QuotedRuns(ps: seq<Piece>, d: nat)
    requires ValidPieces(ps)
    ensures Runs(Quoted(ps), At(d), At(d))
  {
    var q := "\"";
    assert q[1..] == [];
    PiecesRun(ps, d);
    Chain(PrintPieces(ps), q, Within(d), Within(d), At(d));
    Chain(q, PrintPieces(ps) + q, At(d), Within(d), At(d));
    assert Quoted(ps) == q + (PrintPieces(ps) + q);
  }

  lemma WsIsNeutral(s: string)
    requires IsWs(s)
    ensures Neutral(s)
  {
    forall i | 0 <= i < |s| ensures s[i] !in "{}\"\\" {
      assert s[i] in " \t\n\r";
    }
  }

  lemma NumberIsNeutral(j: Json)
    requires j.Number? && Valid(j)
    ensures Neutral(Print(j))
  {
    DigitsAreNeutral(j.whole);
    if j.frac != [] {
      DigitsAreNeutral(j.frac[1..]);
      assert j.frac == [j.frac[0]] + j.frac[1..];
    }
    if j.exp != [] {
      if IsDigits(j.exp[1..]) {
        DigitsAreNeutral(j.exp[1..]);
        assert j.exp == [j.exp[0]] + j.exp[1..];
      } else {
        DigitsAreNeutral(j.exp[2..]);
        assert j.exp == [j.exp[0], j.exp[1]] + j.exp[2..];
      }
    }
  }

  lemma DigitsAreNeutral(s: string)
    requires IsDigits(s)
    ensures Neutral(s)
  {
  }

  lemma NeutralSide(a: string, b: string, d: nat)
    requires Neutral(a) && Runs(b, At(d), At(d))
    ensures Runs(a + b, At(d), At(d)) && Runs(b + a, At(d), At(d))
  {
    NeutralRuns(a, d);
    Chain(a, b, At(d), At(d), At(d));
    Chain(b, a, At(d), At(d), At(d));
  }

  /** Inside an object every printed value is run through: whatever braces, quotes and
      escapes it holds, the scanner is back where it was after it. */
  lemma {:induction false} ValueRuns(j: Json, d: nat)
    requires Valid(j) && d >= 1
    ensures Runs(Print(j), At(d), At(d))
    decreases j
  {
    match j {
      case Null => NeutralRuns("null", d);
      case Bool(b) => NeutralRuns(Print(j), d);
      case Number(_, _, _, _) =>
        NumberIsNeutral(j);
        NeutralRuns(Print(j), d);
      case Str(body) => QuotedRuns(body, d);
      case Array(ws, elems) =>
        ElemsRun(elems, d);
        WsIsNeutral(ws);
        NeutralSide("[" + ws, PrintElems(elems), d);
        NeutralSide("]", "[" + ws + PrintElems(elems), d);
      case Object(ws, members) =>
        InsideRuns(ws, members, d + 1);
        var open, close, inside := "{", "}", Inside(ws, members);
        assert open[1..] == [] && close[1..] == [];
        Chain(inside, close, At(d + 1), At(d + 1), At(d));
        Chain(open, inside + close, At(d), At(d + 1), At(d));
        assert Print(j) == open + (inside + close);
    }
  }

  lemma {:induction false} InsideRuns(ws: string, members: Members, d: nat)
    requires IsWs(ws) && ValidMembers(members) && d >= 1
    ensures Runs(Inside(ws, members), At(d), At(d))
    decreases members, 1
  {
    MembersRun(members, d);
    WsIsNeutral(ws);
    NeutralSide(ws, PrintMembers(members), d);
  }

  lemma {:induction false} ElemsRun(e: Elems, d: nat)
    requires ValidElems(e) && d >= 1
    ensures Runs(PrintElems(e), At(d), At(d))
  {
    match e
    case NoElem => NeutralRuns("", d);
    case Elem(w0, v, w1, rest) =>
      hide Runs;
      ValueRuns(v, d);
      WsIsNeutral(w0);
      WsIsNeutral(w1);
      NeutralSide(w0, Print(v), d);
      NeutralSide(w1, w0 + Print(v), d);
      var tail := if rest.NoElem? then "" else "," + PrintElems(rest);
      if rest.NoElem? {
        NeutralRuns("", d);
      } else {
        ElemsRun(rest, d);
        NeutralSide(",", PrintElems(rest), d);
      }
      Chain(w0 + Print(v) + w1, tail, At(d), At(d), At(d));
  }

  lemma {:induction false} MembersRun(m: Members, d: nat)
    requires ValidMembers(m) && d >= 1
    ensures Runs(PrintMembers(m), At(d), At(d))
    decreases m, 0
  {
    match m
    case NoMember => NeutralRuns("", d);
    case Member(w0, key, w1, w2, v, w3, rest) =>
      hide Runs;
      ValueRuns(v, d);
      QuotedRuns(key, d);
      WsIsNeutral(w0);
      WsIsNeutral(w1);
      WsIsNeutral(w2);
      WsIsNeutral(w3);
      NeutralSide(w0, Quoted(key), d);
      NeutralSide(w1, w0 + Quoted(key), d);
      NeutralSide(":", w0 + Quoted(key) + w1, d);
      NeutralSide(w2, w0 + Quoted(key) + w1 + ":", d);
      var name := w0 + Quoted(key) + w1 + ":" + w2;
      Chain(name, Print(v), At(d), At(d), At(d));
      NeutralSide(w3, name + Print(v), d);
      var tail := if rest.NoMember? then "" else "," + PrintMembers(rest);
      if rest.NoMember? {
        NeutralRuns("", d);
      } else {
        MembersRun(rest, d);
        NeutralSide(",", PrintMembers(rest), d);
      }
      Chain(name + Print(v) + w3, tail, At(d), At(d), At(d));
  }

  /** A scan that starts at an object ends at its last brace, whatever follows. */
  lemma ObjectCloses(obj: Json, rest: string)
    requires obj.Object? && Valid(obj)
    ensures CloseAt(Print(obj) + rest, OUTSIDE) == Some(|Print(obj)| - 1)
  {
    var inside := Inside(obj.ws, obj.members);
    InsideRuns(obj.ws, obj.members, 1);
    var tail := inside + ("}" + rest);
    RunsThen(inside, "}" + rest, At(1));
    assert ("}" + rest)[0] == '}';
    var all := Print(obj) + rest;
    assert all == ['{'] + tail;
    assert all[1..] == tail;
  }

  // ------------------------------------------------ balanced braces, said without a scanner

  /** An odd number of backslashes stands right before place k. */
  predicate OddBackslashes(s: string, k: nat)
    requires k <= |s|
  {
    k > 0 && s[k - 1] == '\\' && !OddBackslashes(s, k - 1)
  }

  /** Place k lies inside a string literal: an odd number of quotes before it count. A
      quote counts unless it stands inside a literal behind an odd number of backslashes. */
  predicate InLiteral(s: string, k: nat)
    requires k <= |s|
  {
    k > 0 && if s[k - 1] == '"' && !(InLiteral(s, k - 1) && OddBackslashes(s, k - 1))
             then !InLiteral(s, k - 1) else InLiteral(s, k - 1)
  }

  /** Opening braces less closing ones before place k, outside literals. */
  function Depth(s: string, k: nat): int
    requires k <= |s|
  {
    if k == 0 then 0
    else if InLiteral(s, k - 1) then Depth(s, k - 1)
    else if s[k - 1] == '{' then Depth(s, k - 1) + 1
    else if s[k - 1] == '}' then Depth(s, k - 1) - 1
    else Depth(s, k - 1)
  }

  /** The brace at e balances the text that starts at 0. */
  predicate Balances(s: string, e: nat)
    requires e < |s|
  {
    s[e] == '}' && !InLiteral(s, e) && Depth(s, e + 1) == 0
  }

  /** e is the first such brace. */
  ghost predicate FirstBalance(s: string, e: nat) {
    e < |s| && Balances(s, e) && forall k: nat :: k < e ==> !Balances(s, k)
  }

  lemma {:induction false} AfterSnoc(s: string, c: char, st: Scan)
    ensures After(s + [c], st) == Next(After(s, st), c)
  {
    if s == [] {
      assert (s + [c])[1..] == [];
    } else {
      assert (s + [c])[1..] == s[1..] + [c];
      AfterSnoc(s[1..], c, Next(st, s[0]));
    }
  }

  /** The scanner's state is just that. */
  lemma {:induction false} StateMeaning(s: string, k: nat)
    requires k <= |s|
    ensures After(s[..k], OUTSIDE) == Scan(Depth(s, k), InLiteral(s, k), InLiteral(s, k) && OddBackslashes(s, k))
  {
    if k > 0 {
      StateMeaning(s, k - 1);
      assert s[..k] == s[..k - 1] + [s[k - 1]];
      AfterSnoc(s[..k - 1], s[k - 1], OUTSIDE);
    }
  }

  lemma ClosesMeaning(s: string, k: nat)
    requires k < |s|
    ensures Closes(After(s[..k], OUTSIDE), s[k]) <==> Balances(s, k)
  {
    StateMeaning(s, k);
    hide OddBackslashes, After;
  }

  lemma {:induction false} ClosesFirst(s: string, k: nat)
    requires k <= |s| && forall i: nat :: i < k ==> !Balances(s, i)
    ensures CloseAt(s, OUTSIDE) ==
      match CloseAt(s[k..], After(s[..k], OUTSIDE)) case None => None case Some(i) => Some(k + i)
  {
    if k == 0 {
      assert s[0..] == s && s[..0] == [];
    } else {
      ClosesFirst(s, k - 1);
      ClosesMeaning(s, k - 1);
      assert s[k - 1..][1..] == s[k..];
      assert s[..k] == s[..k - 1] + [s[k - 1]];
      AfterSnoc(s[..k - 1], s[k - 1], OUTSIDE);
    }
  }

  /** The scan closes at e exactly when the brace at e is the first to balance the text,
      and nowhere exactly when none does. */
  lemma CloseMeaning(s: string)
    ensures forall e: nat :: CloseAt(s, OUTSIDE) == Some(e) <==> FirstBalance(s, e)
    ensures CloseAt(s, OUTSIDE).None? <==> forall e: nat :: e < |s| ==> !Balances(s, e)
  {
    hide Balances, CloseAt, After;
    if e: nat :| e < |s| && Balances(s, e) {
      var f := FirstOne(s, e);
      ClosesFirst(s, f);
      ClosesMeaning(s, f);
      ClosesHere(s[f..], After(s[..f], OUTSIDE));
      OnlyFirst(s, f);
    } else {
      ClosesFirst(s, |s|);
      assert s[|s|..] == [];
      ClosesNever(After(s[..|s|], OUTSIDE));
    }
  }

  lemma ClosesHere(s: string, st: Scan)
    requires s != [] && Closes(st, s[0])
    ensures CloseAt(s, st) == Some(0)
  {
  }

  lemma ClosesNever(st: Scan)
    ensures CloseAt([], st).None?
  {
  }

  lemma OnlyFirst(s: string, f: nat)
    requires FirstBalance(s, f)
    ensures forall e: nat :: FirstBalance(s, e) <==> e == f
  {
    hide Balances;
    forall e: nat | FirstBalance(s, e) ensures e == f {
      assert !(e < f) && !(f < e);
    }
  }

  lemma {:induction false} FirstOne(s: string, e: nat) returns (f: nat)
    requires e < |s| && Balances(s, e)
    ensures FirstBalance(s, f)
    decreases e
  {
    hide Balances;
    if k: nat :| k < e && Balances(s, k) {
      f := FirstOne(s, k);
    } else {
      f := e;
    }
  }
}
