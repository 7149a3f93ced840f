/** Code fences, trimming and the whole of extractJSONObject (pkg/agent/json_lenient.go).
    Places are kept as offsets into the reply, so results can be told apart by where
    they were found. json.Valid is a parameter. */
module JsonReply {
  import opened Options
  import opened JsonGrammar
  import opened JsonExtract

  const FENCE := "```"

  /** unicode.IsSpace. */
  predicate IsSpace(c: char) {
    var n := c as int;
    9 <= n <= 13 || n == 0x20 || n == 0x85 || n == 0xA0 || n == 0x1680 || 0x2000 <= n <= 0x200A
    || n == 0x2028 || n == 0x2029 || n == 0x202F || n == 0x205F || n == 0x3000
  }

  function LeadingSpaces(s: string): (n: nat)
    ensures n <= |s| && (n < |s| ==> !IsSpace(s[n]))
    ensures forall i :: 0 <= i < n ==> IsSpace(s[i])
  {
    if s == [] || !IsSpace(s[0]) then 0 else 1 + LeadingSpaces(s[1..])
  }

  function LastNonSpaceEnd(s: string): (n: nat)
    ensures n <= |s| && (n > 0 ==> !IsSpace(s[n - 1]))
    ensures forall i :: n <= i < |s| ==> IsSpace(s[i])
  {
    if s == [] || !IsSpace(s[|s| - 1]) then |s| else LastNonSpaceEnd(s[..|s| - 1])
  }

  /** strings.TrimSpace, as the span that stays. */
  function TrimSpan(s: string): (r: (nat, nat))
    ensures r.0 <= r.1 <= |s|
    ensures forall i :: 0 <= i < |s| && !IsSpace(s[i]) ==> r.0 <= i < r.1
  {
    var lo, hi := LeadingSpaces(s), LastNonSpaceEnd(s);
    (lo, if hi < lo then lo else hi)
  }

  function Trim(s: string): string {
    s[TrimSpan(s).0..TrimSpan(s).1]
  }

  predicate Occurs(s: string, pat: string, k: nat) {
    k + |pat| <= |s| && s[k..k + |pat|] == pat
  }

  /** strings.Index. */
  function Find(s: string, pat: string): (r: Option<nat>)
    ensures r.Some? ==> Occurs(s, pat, r.value) && forall k: nat :: k < r.value ==> !Occurs(s, pat, k)
    ensures r.None? ==> forall k: nat :: !Occurs(s, pat, k)
  {
    FindFrom(s, pat, 0)
  }

  function FindFrom(s: string, pat: string, from: nat): (r: Option<nat>)
    requires from <= |s|
    ensures r.Some? ==> r.value >= from && Occurs(s, pat, r.value)
    ensures r.Some? ==> forall k: nat :: from <= k < r.value ==> !Occurs(s, pat, k)
    ensures r.None? ==> forall k: nat :: from <= k ==> !Occurs(s, pat, k)
    decreases |s| - from
  {
    if Occurs(s, pat, from) then Some(from)
    else if from == |s| then None
    else FindFrom(s, pat, from + 1)
  }

  lemma FindIs(s: string, pat: string, i: nat)
    requires Occurs(s, pat, i) && forall k: nat :: k < i ==> !Occurs(s, pat, k)
    ensures Find(s, pat) == Some(i)
  {
    var r := Find(s, pat);
    if r.Some? {
      if r.value < i {
        assert false;
      } else if i < r.value {
        assert false;
      }
    }
  }

  predicate HasJsonStart(s: string) {
    exists i :: 0 <= i < |s| && s[i] in "{[\""
  }

  /** The language tag on the opening fence's line goes, unless JSON starts on it. */
  function SkipTag(raw: string, lo: nat, hi: nat): (r: nat)
    requires lo <= hi <= |raw|
    ensures lo <= r <= hi
  {
    match Find(raw[lo..hi], "\n")
    case None => lo
    case Some(n) =>
      var tag := Trim(raw[lo..lo + n]);
      if tag == "" || !HasJsonStart(tag) then lo + n + 1 else lo
  }

  /** Where the closing fence, or the text, ends. */
  function FenceEnd(raw: string, lo: nat, hi: nat): (r: nat)
    requires lo <= hi <= |raw|
    ensures lo <= r <= hi
  {
    match Find(raw[lo..hi], FENCE) case None => hi case Some(k) => lo + k
  }

  function TrimIn(raw: string, lo: nat, hi: nat): (r: (nat, nat))
    requires lo <= hi <= |raw|
    ensures lo <= r.0 <= r.1 <= hi
    ensures forall i :: lo <= i < hi && !IsSpace(raw[i]) ==> r.0 <= i < r.1
  {
    var inner := TrimSpan(raw[lo..hi]);
    assert forall i :: lo <= i < hi ==> raw[i] == raw[lo..hi][i - lo];
    (lo + inner.0, lo + inner.1)
  }

  /** stripJSONCodeFences, as the span that stays. */
  function StripSpan(raw: string): (r: (nat, nat))
    ensures r.0 <= r.1 <= |raw|
  {
    var (lo, hi) := TrimSpan(raw);
    match Find(raw[lo..hi], FENCE)
    case None => (lo, hi)
    case Some(i) =>
      var from := SkipTag(raw, lo + i + 3, hi);
      TrimIn(raw, from, FenceEnd(raw, from, hi))
  }

  /** The span of the reply that is tried as an object. */
  function Locate(raw: string): (r: Option<(nat, nat)>)
    ensures r.Some? ==> r.value.0 < r.value.1 <= |raw|
  {
    var (lo, hi) := StripSpan(raw);
    LocateIn(raw, lo, hi)
  }

  function LocateIn(raw: string, lo: nat, hi: nat): (r: Option<(nat, nat)>)
    requires lo <= hi <= |raw|
    ensures r.Some? ==> lo <= r.value.0 < r.value.1 <= hi && raw[r.value.0] == '{' && raw[r.value.1 - 1] == '}'
  {
    match Find(raw[lo..hi], "{")
    case None => None
    case Some(k) =>
      match CloseAt(raw[lo + k..hi], OUTSIDE)
      case None => None
      case Some(e) =>
        assert raw[lo..hi][k] == raw[lo + k] && raw[lo + k..hi][e] == raw[lo + k + e];
        Some((lo + k, lo + k + e + 1))
  }

  function Accepted(raw: string, span: Option<(nat, nat)>, valid: string -> bool): (r: Option<string>)
    requires span.Some? ==> span.value.0 <= span.value.1 <= |raw|
  {
    match span
    case None => None
    case Some((lo, hi)) => if valid(raw[lo..hi]) then Some(raw[lo..hi]) else None
  }

  function Extracted(raw: string, valid: string -> bool): Option<string> {
    Accepted(raw, Locate(raw), valid)
  }

  // ------------------------------------------------ the code

  /** The language tag's line. */
  method SkipTagLine(s: string, ghost raw: string, ghost lo: nat, ghost hi: nat) returns (t: string)
    requires lo <= hi <= |raw| && s == raw[lo..hi]
    ensures t == raw[SkipTag(raw, lo, hi)..hi]
  {
    hide Find, Trim, HasJsonStart;
    t := s;
    var nl := Find(s, "\n");
    if nl.Some? {
      var tag := Trim(s[..nl.value]);
      assert raw[lo..lo + nl.value] == s[..nl.value];
      if tag == "" || !HasJsonStart(tag) {
        t := s[nl.value + 1..];
      }
    }
  }

  /** The closing fence. */
  method CutAtFence(s: string, ghost raw: string, ghost lo: nat, ghost hi: nat) returns (t: string)
    requires lo <= hi <= |raw| && s == raw[lo..hi]
    ensures t == raw[lo..FenceEnd(raw, lo, hi)]
  {
    hide Find;
    t := s;
    var end := Find(s, FENCE);
    if end.Some? {
      t := s[..end.value];
    }
  }

  /** stripJSONCodeFences. */
  method StripJSONCodeFences(raw: string) returns (s: string)
    ensures s == raw[StripSpan(raw).0..StripSpan(raw).1]
  {
    hide Find, TrimSpan, SkipTag, FenceEnd;
    ghost var (lo, hi) := TrimSpan(raw);
    s := Trim(raw);
    var idx := Find(s, FENCE);
    if idx.None? {
      return;
    }
    s := s[idx.value + 3..];
    s := SkipTagLine(s, raw, lo + idx.value + 3, hi);
    ghost var from := SkipTag(raw, lo + idx.value + 3, hi);
    s := CutAtFence(s, raw, from, hi);
    ghost var inner := TrimSpan(s);
    SliceOfSlice(raw, from, FenceEnd(raw, from, hi), inner.0, inner.1);
    s := Trim(s);
  }

  /** raw[a..b] is raw[lo..hi] without the space around it. */
  ghost predicate Trimmed(raw: string, lo: nat, hi: nat, a: nat, b: nat) {
    && lo <= a <= b <= hi <= |raw|
    && (forall i :: lo <= i < a || b <= i < hi ==> IsSpace(raw[i]))
    && (a < b ==> !IsSpace(raw[a]) && !IsSpace(raw[b - 1]))
  }

  /** `at` is where the first fence of raw[lo..hi] starts, if it has one. */
  ghost predicate FirstFence(raw: string, lo: nat, hi: nat, at: Option<nat>) {
    && (at.Some? ==> lo <= at.value && at.value + 3 <= hi && Occurs(raw, "```", at.value))
    && forall k: nat :: lo <= k && k + 3 <= hi && (at.Some? ==> k < at.value) ==> !Occurs(raw, "```", k)
  }

  /** `from` follows the line that starts at lo, when a newline ends it and no JSON value
      could start on it; otherwise nothing is skipped. */
  ghost predicate TagSkipped(raw: string, lo: nat, hi: nat, from: nat) {
    && lo <= from <= hi <= |raw|
    && (from == lo || (raw[from - 1] == '\n' && forall k :: lo <= k < from - 1 ==> raw[k] !in "\n{[\""))
    && (from == lo ==> forall n :: lo <= n < hi && raw[n] == '\n' ==> exists k :: lo <= k < n && raw[k] in "{[\"")
  }

  /** What stays of a reply: all of it, trimmed, when it has no fence; else what stands
      between the first fence, with its tag line, and the next fence or the end. */
  lemma StripMeaning(raw: string) returns (lo: nat, hi: nat, fence: Option<nat>, from: nat, end: Option<nat>)
    ensures Trimmed(raw, 0, |raw|, lo, hi) && FirstFence(raw, lo, hi, fence)
    ensures fence.None? ==> StripSpan(raw) == (lo, hi)
    ensures fence.Some? ==> TagSkipped(raw, fence.value + 3, hi, from) && FirstFence(raw, from, hi, end)
    ensures fence.Some? ==>
      Trimmed(raw, from, if end.Some? then end.value else hi, StripSpan(raw).0, StripSpan(raw).1)
  {
    hide Find, TrimSpan, SkipTag, FenceEnd, TrimIn, Occurs;
    lo, hi, fence, from, end := TrimSpan(raw).0, TrimSpan(raw).1, None, 0, None;
    TrimMeaning(raw);
    FenceMeaning(raw, lo, hi);
    var i := Find(raw[lo..hi], FENCE);
    if i.Some? {
      fence := Some(lo + i.value);
      from := SkipTag(raw, lo + i.value + 3, hi);
      SkipTagMeaning(raw, lo + i.value + 3, hi);
      FenceMeaning(raw, from, hi);
      var k := Find(raw[from..hi], FENCE);
      end := if k.Some? then Some(from + k.value) else None;
      TrimInMeaning(raw, from, FenceEnd(raw, from, hi));
      FenceEndIs(raw, from, hi);
    }
  }

  lemma FenceEndIs(raw: string, lo: nat, hi: nat)
    requires lo <= hi <= |raw|
    ensures var k := Find(raw[lo..hi], FENCE);
      FenceEnd(raw, lo, hi) == if k.Some? then lo + k.value else hi
  {
  }

  lemma TrimMeaning(s: string)
    ensures Trimmed(s, 0, |s|, TrimSpan(s).0, TrimSpan(s).1)
  {
    hide IsSpace;
  }

  lemma TrimInMeaning(raw: string, lo: nat, hi: nat)
    requires lo <= hi <= |raw|
    ensures Trimmed(raw, lo, hi, TrimIn(raw, lo, hi).0, TrimIn(raw, lo, hi).1)
  {
    hide IsSpace, TrimSpan;
    var s := raw[lo..hi];
    TrimMeaning(s);
    assert forall i :: lo <= i < hi ==> raw[i] == s[i - lo];
  }

  lemma FenceMeaning(raw: string, lo: nat, hi: nat)
    requires lo <= hi <= |raw|
    ensures var r := Find(raw[lo..hi], FENCE);
      && (r.Some? ==> r.value + 3 <= hi - lo)
      && FirstFence(raw, lo, hi, if r.Some? then Some(lo + r.value) else None)
  {
    hide Find, Occurs;
    var s := raw[lo..hi];
    forall k: nat ensures Occurs(s, FENCE, k) <==> lo + k + 3 <= hi && Occurs(raw, FENCE, lo + k) {
      OccursInSlice(raw, lo, hi, k);
    }
    forall k: nat | lo <= k ensures Occurs(raw, FENCE, k) && k + 3 <= hi ==> Occurs(s, FENCE, k - lo) {
      assert lo + (k - lo) == k;
    }
  }

  lemma SkipTagMeaning(raw: string, lo: nat, hi: nat)
    requires lo <= hi <= |raw|
    ensures TagSkipped(raw, lo, hi, SkipTag(raw, lo, hi))
  {
    hide Find, Trim, HasJsonStart, IsSpace;
    var s := raw[lo..hi];
    FirstChar(s, '\n');
    assert forall k :: lo <= k < hi ==> raw[k] == s[k - lo];
    var nl := Find(s, "\n");
    if nl.Some? {
      JsonStartMeaning(raw[lo..lo + nl.value]);
      TagLine(raw, lo, lo + nl.value);
    }
  }

  lemma TagLine(raw: string, lo: nat, nl: nat)
    requires lo <= nl <= |raw|
    ensures (forall k :: 0 <= k < nl - lo ==> raw[lo..nl][k] !in "{[\"")
            <==> (forall k :: lo <= k < nl ==> raw[k] !in "{[\"")
  {
    assert forall k :: lo <= k < nl ==> raw[k] == raw[lo..nl][k - lo];
  }

  lemma FirstChar(s: string, c: char)
    ensures var r := Find(s, [c]);
      && (r.None? ==> c !in s)
      && (r.Some? ==> r.value < |s| && s[r.value] == c && c !in s[..r.value])
  {
    hide FindFrom;
    var r := Find(s, [c]);
    forall k | 0 <= k < |s| && (r.Some? ==> k < r.value) ensures s[k] != c {
      assert s[k..k + 1] == [s[k]] && !Occurs(s, [c], k);
    }
    if r.Some? {
      assert s[r.value..r.value + 1][0] == s[r.value];
    }
  }

  lemma JsonStartMeaning(line: string)
    ensures (Trim(line) == "" || !HasJsonStart(Trim(line))) <==> forall k :: 0 <= k < |line| ==> line[k] !in "{[\""
  {
    hide TrimSpan;
    var (lo, hi) := TrimSpan(line);
    assert forall k :: lo <= k < hi ==> line[k] == Trim(line)[k - lo];
    assert forall k :: 0 <= k < |line| && line[k] in "{[\"" ==> !IsSpace(line[k]) && lo <= k < hi;
  }

  lemma SliceOfSlice(s: string, a: nat, b: nat, i: nat, j: nat)
    requires i <= j && a + j <= b <= |s|
    ensures s[a..b][i..j] == s[a + i..a + j]
  {
    var x, y := s[a..b][i..j], s[a + i..a + j];
    assert |x| == |y| && forall k :: 0 <= k < |x| ==> x[k] == y[k];
  }

  /** The text from the first opening brace up to the first brace that balances it. */
  ghost predicate Candidate(s: string, b: nat, c: string) {
    && c != [] && b + |c| <= |s| && c == s[b..b + |c|]
    && s[b] == '{' && '{' !in s[..b]
    && FirstBalance(s[b..], |c| - 1)
  }

  /** An extraction is a candidate that json.Valid accepts, and it fails exactly when there
      is none; there is one candidate at most. */
  lemma ExtractedMeaning(raw: string, valid: string -> bool)
    ensures var s := raw[StripSpan(raw).0..StripSpan(raw).1];
      && (Extracted(raw, valid).Some? ==>
           valid(Extracted(raw, valid).value) && exists b: nat :: Candidate(s, b, Extracted(raw, valid).value))
      && (Extracted(raw, valid).None? ==> forall b: nat, c :: Candidate(s, b, c) ==> !valid(c))
  {
    hide StripSpan, Find, Candidate, CloseAt;
    var (lo, hi) := StripSpan(raw);
    var s := raw[lo..hi];
    CandidateFound(s);
    var start := Find(s, "{");
    if start.Some? {
      var k := start.value;
      assert s[k..] == raw[lo + k..hi];
      var e := CloseAt(s[k..], OUTSIDE);
      if e.Some? {
        SliceOfSlice(raw, lo, hi, k, k + e.value + 1);
      }
    }
  }

  lemma CandidateFound(s: string)
    ensures var k := Find(s, "{");
      && (k.Some? ==> k.value < |s|)
      && var e := if k.Some? then CloseAt(s[k.value..], OUTSIDE) else None;
      if e.Some? then
        var found := s[k.value..k.value + e.value + 1];
        Candidate(s, k.value, found) && forall b: nat, c :: Candidate(s, b, c) ==> c == found
      else
        forall b: nat, c :: !Candidate(s, b, c)
  {
    hide Find, FirstBalance, CloseAt;
    FirstChar(s, '{');
    var start := Find(s, "{");
    if start.Some? {
      var k := start.value;
      CloseMeaning(s[k..]);
      forall b: nat, c | Candidate(s, b, c) ensures b == k && FirstBalance(s[k..], |c| - 1) {
        FirstBraceIsOne(s, b, k);
      }
    }
  }

  lemma FirstBraceIsOne(s: string, i: nat, j: nat)
    requires i < |s| && s[i] == '{' && '{' !in s[..i]
    requires j < |s| && s[j] == '{' && '{' !in s[..j]
    ensures i == j
  {
    var before := s[..if i < j then j else i];
    assert forall k :: 0 <= k < |before| ==> before[k] == s[k];
  }

  /** extractJSONObject. */
  method ExtractJSONObject(raw: string, valid: string -> bool) returns (r: Option<string>)
    ensures r == Extracted(raw, valid)
    ensures r.Some? ==> valid(r.value)
    ensures r.Some? ==> exists b: nat :: Candidate(raw[StripSpan(raw).0..StripSpan(raw).1], b, r.value)
    ensures r.None? ==>
      forall b: nat, c :: Candidate(raw[StripSpan(raw).0..StripSpan(raw).1], b, c) ==> !valid(c)
  {
    hide StripSpan, LocateIn, Accepted, Candidate, Extracted;
    assert Extracted(raw, valid) == Accepted(raw, LocateIn(raw, StripSpan(raw).0, StripSpan(raw).1), valid) by {
      ExtractedIs(raw, valid);
    }
    ExtractedMeaning(raw, valid);
    var s := StripJSONCodeFences(raw);
    r := ScanFromBrace(s, raw, StripSpan(raw).0, StripSpan(raw).1, valid);
  }

  lemma ExtractedIs(raw: string, valid: string -> bool)
    ensures Extracted(raw, valid) == Accepted(raw, LocateIn(raw, StripSpan(raw).0, StripSpan(raw).1), valid)
  {
  }

  method ScanFromBrace(s: string, ghost raw: string, ghost lo: nat, ghost hi: nat, valid: string -> bool)
    returns (r: Option<string>)
    requires lo <= hi <= |raw| && s == raw[lo..hi]
    ensures r == Accepted(raw, LocateIn(raw, lo, hi), valid)
  {
    hide Find, CloseAt;
    var start := Find(s, "{");
    if start.None? {
      return None;
    }
    ghost var at := lo + start.value;
    assert s[start.value..] == raw[at..hi];
    r := ScanObject(s[start.value..], valid);
    ghost var e := CloseAt(raw[at..hi], OUTSIDE);
    if e.Some? {
      assert raw[at..hi][..e.value + 1] == raw[at..at + e.value + 1];
    }
  }

  /** The scan loop. */
  method ScanObject(s: string, valid: string -> bool) returns (r: Option<string>)
    ensures r == match CloseAt(s, OUTSIDE)
                 case None => None
                 case Some(e) => if valid(s[..e + 1]) then Some(s[..e + 1]) else None
  {
    hide CloseAt;
    var depth, inString, escaped := 0, false, false;
    assert s[0..] == s;
    for i := 0 to |s|
      invariant CloseAt(s, OUTSIDE) ==
                match CloseAt(s[i..], Scan(depth, inString, escaped)) case None => None case Some(e) => Some(i + e)
    {
      var c := s[i];
      CloseStep(s, i, Scan(depth, inString, escaped));
      if escaped {
        escaped := false;
        continue;
      }
      if c == '\\' && inString {
        escaped := true;
      } else if c == '"' {
        inString := !inString;
      } else if inString {
      } else if c == '{' {
        depth := depth + 1;
      } else if c == '}' {
        depth := depth - 1;
        if depth == 0 {
          var candidate := s[..i + 1];
          return if valid(candidate) then Some(candidate) else None;
        }
      }
    }
    CloseNowhere(Scan(depth, inString, escaped));
    assert s[|s|..] == [];
    return None;
  }

  lemma CloseStep(s: string, i: nat, st: Scan)
    requires i < |s|
    ensures CloseAt(s[i..], st) ==
            if Closes(st, s[i]) then Some(0)
            else match CloseAt(s[i + 1..], Next(st, s[i])) case None => None case Some(k) => Some(k + 1)
  {
    assert s[i..][1..] == s[i + 1..];
  }

  lemma CloseNowhere(st: Scan)
    ensures CloseAt([], st).None?
  {
  }

  // ------------------------------------------------ what comes out

  lemma {:induction false} FirstOf(s: string, c: char, i: nat)
    requires i < |s| && s[i] == c && forall k :: 0 <= k < i ==> s[k] != c
    ensures Find(s, [c]) == Some(i)
  {
    assert s[i..i + 1] == [c];
    forall k: nat | k < i ensures !Occurs(s, [c], k) {
      assert s[k..k + 1][0] == s[k];
    }
    FindIs(s, [c], i);
  }

  /** An object inside the stripped span is what is located, exactly when no brace
      stands before it there. */
  lemma LocatesObject(raw: string, lo: nat, hi: nat, p: nat, obj: Json)
    requires obj.Object? && Valid(obj)
    requires lo <= p && p + |Print(obj)| <= hi <= |raw| && raw[p..p + |Print(obj)|] == Print(obj)
    ensures LocateIn(raw, lo, hi) == Some((p, p + |Print(obj)|)) <==> forall k :: lo <= k < p ==> raw[k] != '{'
  {
    var text := Print(obj);
    hide CloseAt, Find, Print;
    ObjectCloses(obj, raw[p + |text|..hi]);
    assert raw[p..hi] == text + raw[p + |text|..hi];
    var s := raw[lo..hi];
    assert forall k :: 0 <= k < |s| ==> s[k] == raw[lo + k];
    assert raw[p] == text[0] == '{' by {
      ObjectStarts(obj);
    }
    if forall k :: lo <= k < p ==> raw[k] != '{' {
      FirstOf(s, '{', p - lo);
    } else {
      var k :| lo <= k < p && raw[k] == '{';
      var f := Find(s, "{");
      assert s[k - lo..k - lo + 1] == "{";
      assert Occurs(s, "{", k - lo);
      assert f.Some? && f.value <= k - lo;
    }
  }

  lemma ObjectStarts(obj: Json)
    requires obj.Object?
    ensures |Print(obj)| >= 2 && Print(obj)[0] == '{' && Print(obj)[|Print(obj)| - 1] == '}'
  {
  }

  /** Trimming removes no fence and moves none. */
  lemma FenceThroughTrim(raw: string)
    ensures var (lo, hi) := TrimSpan(raw);
      match Find(raw, FENCE)
      case None => Find(raw[lo..hi], FENCE).None?
      case Some(i) => lo <= i && i + 3 <= hi && Find(raw[lo..hi], FENCE) == Some(i - lo)
  {
    var (lo, hi) := TrimSpan(raw);
    var s := raw[lo..hi];
    hide Find, TrimSpan, Occurs, IsSpace;
    forall k: nat ensures Occurs(s, FENCE, k) ==> Occurs(raw, FENCE, lo + k) {
      OccursInSlice(raw, lo, hi, k);
    }
    var r := Find(raw, FENCE);
    if r.Some? {
      var i := r.value;
      FenceChars(raw, i);
      assert lo <= i && i + 2 < hi;
      OccursInSlice(raw, lo, hi, i - lo);
      FindIs(s, FENCE, i - lo);
    }
  }

  lemma OccursInSlice(raw: string, lo: nat, hi: nat, k: nat)
    requires lo <= hi <= |raw|
    ensures Occurs(raw[lo..hi], FENCE, k) <==> lo + k + 3 <= hi && Occurs(raw, FENCE, lo + k)
  {
    if lo + k + 3 <= hi {
      SliceOfSlice(raw, lo, hi, k, k + 3);
    }
  }

  lemma FenceChars(raw: string, i: nat)
    requires Occurs(raw, FENCE, i)
    ensures i + 3 <= |raw| && !IsSpace(raw[i]) && !IsSpace(raw[i + 2])
    ensures forall k :: i <= k < i + 3 ==> raw[k] == '`' && !IsSpace(raw[k])
  {
    assert forall k :: i <= k < i + 3 ==> raw[k] == raw[i..i + 3][k - i];
  }

  /** Without a fence the whole reply is kept, but for the space around it; with one,
      nothing from before it is. */
  lemma StripsToFence(raw: string)
    ensures Find(raw, FENCE).None? ==> StripSpan(raw) == TrimSpan(raw)
    ensures Find(raw, FENCE).Some? ==> StripSpan(raw).0 >= Find(raw, FENCE).value + 3
  {
    hide Find, TrimSpan;
    FenceThroughTrim(raw);
  }

  /** An object with no code fence before it, whatever else surrounds it, is pulled out
      exactly when no brace stands before it and no fence stands anywhere. */
  lemma PlainReply(pre: string, obj: Json, rest: string)
    requires obj.Object? && Valid(obj)
    requires forall f: nat :: f < |pre| ==> !Occurs(pre + Print(obj) + rest, FENCE, f)
    ensures var raw := pre + Print(obj) + rest;
      Locate(raw) == Some((|pre|, |pre| + |Print(obj)|)) <==> '{' !in pre && Find(raw, FENCE).None?
  {
    hide Find, StripSpan, Print, LocateIn, Occurs, TrimSpan;
    var text := Print(obj);
    var raw := pre + text + rest;
    StripsToFence(raw);
    ObjectStarts(obj);
    assert raw[|pre|..|pre| + |text|] == text;
    if Find(raw, FENCE).None? {
      var (lo, hi) := StripSpan(raw);
      SpanHolds(raw, |pre|, |pre| + |text|);
      LocatesObject(raw, lo, hi, |pre|, obj);
      BraceBefore(pre, raw, lo);
    }
  }

  /** For every object, printed in any way the grammar allows, with prose around it. */
  lemma PlainReplyExtracts(pre: string, obj: Json, rest: string, valid: string -> bool)
    requires obj.Object? && Valid(obj) && valid(Print(obj))
    requires '{' !in pre && Find(pre + Print(obj) + rest, FENCE).None?
    ensures Extracted(pre + Print(obj) + rest, valid) == Some(Print(obj))
  {
    hide Find, Locate, Print;
    PlainReply(pre, obj, rest);
    var raw := pre + Print(obj) + rest;
    assert raw[|pre|..|pre| + |Print(obj)|] == Print(obj);
  }

  /** And inside a code fence with any tag, whatever precedes the fence. */
  lemma FencedReplyExtracts(pre: string, between: string, obj: Json, rest: string, valid: string -> bool)
    requires obj.Object? && Valid(obj) && valid(Print(obj))
    requires Find(pre + FENCE + between + Print(obj) + rest, FENCE) == Some(|pre|)
    requires '{' !in between && Find(between, FENCE).None? && Find(Print(obj), FENCE).None?
    ensures Extracted(pre + FENCE + between + Print(obj) + rest, valid) == Some(Print(obj))
  {
    hide Find, Locate, Print;
    FencedReply(pre, between, obj, rest);
    var raw := pre + FENCE + between + Print(obj) + rest;
    var p := |pre| + 3 + |between|;
    assert raw[p..p + |Print(obj)|] == Print(obj);
  }

  lemma SpanHolds(raw: string, p: nat, q: nat)
    requires p < q <= |raw| && raw[p] == '{' && raw[q - 1] == '}'
    ensures TrimSpan(raw).0 <= p && q <= TrimSpan(raw).1
  {
  }

  lemma BraceBefore(pre: string, raw: string, lo: nat)
    requires pre <= raw && lo == TrimSpan(raw).0 && lo <= |pre|
    ensures '{' !in pre <==> forall k :: lo <= k < |pre| ==> raw[k] != '{'
  {
    assert forall k :: 0 <= k < |pre| ==> raw[k] == pre[k];
    if '{' in pre {
      var k :| 0 <= k < |pre| && pre[k] == '{';
      assert !IsSpace(raw[k]);
    }
  }

  /** The opening fence's line is never dropped past a brace. */
  lemma SkipTagStops(raw: string, lo: nat, hi: nat, brace: nat)
    requires lo <= brace < hi <= |raw| && raw[brace] == '{'
    ensures SkipTag(raw, lo, hi) <= brace
  {
    hide Find, Trim, HasJsonStart;
    var nl := Find(raw[lo..hi], "\n");
    if nl.Some? {
      var n := nl.value;
      assert raw[lo..hi][n..n + 1][0] == raw[lo + n] == '\n';
      if brace < lo + n {
        var line := raw[lo..lo + n];
        assert line[brace - lo] == '{';
        BraceSurvivesTrim(line, brace - lo);
      }
    }
  }

  lemma BraceSurvivesTrim(s: string, i: nat)
    requires i < |s| && s[i] == '{'
    ensures Trim(s) != "" && HasJsonStart(Trim(s))
  {
    var (lo, hi) := TrimSpan(s);
    assert lo <= i < hi by {
      assert !IsSpace(s[i]);
    }
    hide TrimSpan;
    assert Trim(s)[i - lo] == '{';
  }

  /** A fence inside the span ends it there; with none it reaches past the object. */
  lemma FenceEndAround(raw: string, lo: nat, hi: nat, p: nat, q: nat)
    requires lo <= p < q <= hi <= |raw| && raw[p] == '{' && raw[q - 1] == '}'
    requires forall k: nat :: lo <= k && k + 3 <= p ==> !Occurs(raw, FENCE, k)
    ensures FenceEnd(raw, lo, hi) >= q <==> forall k: nat :: p <= k && k + 3 <= q ==> !Occurs(raw, FENCE, k)
  {
    hide Find, Occurs;
    var f := Find(raw[lo..hi], FENCE);
    forall k: nat ensures Occurs(raw[lo..hi], FENCE, k) <==> lo + k + 3 <= hi && Occurs(raw, FENCE, lo + k) {
      OccursInSlice(raw, lo, hi, k);
    }
    if f.Some? {
      var a := lo + f.value;
      FenceChars(raw, a);
      assert p < a || a + 3 <= p;
      assert q - 1 < a || a + 3 <= q - 1;
    }
    if k: nat :| p <= k && k + 3 <= q && Occurs(raw, FENCE, k) {
      assert Occurs(raw[lo..hi], FENCE, k - lo);
    }
  }

  /** Behind the reply's first fence, whatever stands before that fence: an object is
      pulled out exactly when no brace stands between the fence and it and no fence
      stands inside it. */
  lemma FencedReply(pre: string, between: string, obj: Json, rest: string)
    requires obj.Object? && Valid(obj)
    requires Find(pre + FENCE + between + Print(obj) + rest, FENCE) == Some(|pre|)
    requires Find(between, FENCE).None?
    ensures var raw := pre + FENCE + between + Print(obj) + rest;
      var p := |pre| + 3 + |between|;
      Locate(raw) == Some((p, p + |Print(obj)|)) <==> '{' !in between && Find(Print(obj), FENCE).None?
  {
    hide Find, Print, Locate, Occurs;
    var text := Print(obj);
    var raw := pre + FENCE + between + text + rest;
    var c := |pre| + 3;
    var p := c + |between|;
    assert raw[c..p] == between;
    assert raw[p..p + |text|] == text;
    FencedAt(raw, |pre|, p, between, obj);
  }

  lemma FencedAt(raw: string, at: nat, p: nat, between: string, obj: Json)
    requires obj.Object? && Valid(obj)
    requires at + 3 <= p && p + |Print(obj)| <= |raw|
    requires raw[at + 3..p] == between && raw[p..p + |Print(obj)|] == Print(obj)
    requires Find(raw, FENCE) == Some(at) && Find(between, FENCE).None?
    ensures Locate(raw) == Some((p, p + |Print(obj)|)) <==> '{' !in between && Find(Print(obj), FENCE).None?
  {
    hide Find, StripSpan, Print, LocateIn, Occurs, TrimSpan, SkipTag, FenceEnd, Locate, TrimIn;
    var c := at + 3;
    var q := p + |Print(obj)|;
    ObjectStarts(obj);
    assert raw[p] == raw[p..q][0] == '{' && raw[q - 1] == raw[p..q][q - 1 - p] == '}';
    FenceSpan(raw, at, p, q);
    var hi := TrimSpan(raw).1;
    SpanHolds(raw, p, q);
    SkipTagStops(raw, c, hi, p);
    var from := SkipTag(raw, c, hi);
    OccursIn(raw, c, p, between);
    OccursIn(raw, p, q, Print(obj));
    FenceEndAround(raw, from, hi, p, q);
    if '{' in between {
      var k := c + FirstBrace(between);
      assert raw[k] == raw[c..p][k - c] == '{';
      SkipTagStops(raw, c, hi, k);
    }
    FencedLocate(raw, c, p, from, FenceEnd(raw, from, hi), obj, between);
  }

  lemma OccursIn(raw: string, lo: nat, hi: nat, part: string)
    requires lo <= hi <= |raw| && raw[lo..hi] == part
    ensures Find(part, FENCE).None? <==> forall k: nat :: lo <= k && k + 3 <= hi ==> !Occurs(raw, FENCE, k)
  {
    hide Find, Occurs;
    forall k: nat ensures Occurs(part, FENCE, k) <==> lo + k + 3 <= hi && Occurs(raw, FENCE, lo + k) {
      OccursInSlice(raw, lo, hi, k);
    }
    if k: nat :| lo <= k && k + 3 <= hi && Occurs(raw, FENCE, k) {
      assert Occurs(part, FENCE, k - lo);
    }
  }

  /** The stripped span when the first fence is at `at`. */
  lemma FenceSpan(raw: string, at: nat, p: nat, q: nat)
    requires Find(raw, FENCE) == Some(at) && at + 3 <= p < q <= |raw| && raw[p] == '{' && raw[q - 1] == '}'
    ensures var hi := TrimSpan(raw).1;
      && at + 3 <= hi
      && (var from := SkipTag(raw, at + 3, hi);
          StripSpan(raw) == TrimIn(raw, from, FenceEnd(raw, from, hi)))
  {
    hide Find, TrimSpan, SkipTag, FenceEnd, TrimIn;
    FenceThroughTrim(raw);
  }

  lemma FencedLocate(raw: string, c: nat, p: nat, from: nat, upTo: nat, obj: Json, between: string)
    requires obj.Object? && Valid(obj)
    requires c <= from <= p && p + |Print(obj)| <= |raw| && raw[p..p + |Print(obj)|] == Print(obj)
    requires from <= upTo <= |raw| && raw[c..p] == between
    requires StripSpan(raw) == TrimIn(raw, from, upTo)
    requires '{' in between ==> from <= FirstBrace(between) + c
    ensures Locate(raw) == Some((p, p + |Print(obj)|)) <==> '{' !in between && upTo >= p + |Print(obj)|
  {
    hide Find, StripSpan, Print, LocateIn, TrimSpan;
    ObjectStarts(obj);
    var q := p + |Print(obj)|;
    assert raw[p] == Print(obj)[0] && raw[q - 1] == Print(obj)[|Print(obj)| - 1];
    var (lo, hi) := StripSpan(raw);
    assert forall k :: c <= k < p ==> raw[k] == between[k - c];
    if upTo >= q {
      assert !IsSpace(raw[p]) && !IsSpace(raw[q - 1]);
      LocatesObject(raw, lo, hi, p, obj);
      if '{' in between {
        var k := c + FirstBrace(between);
        assert raw[k] == '{' && !IsSpace(raw[k]);
      }
    }
  }

  function FirstBrace(s: string): (i: nat)
    requires '{' in s
    ensures i < |s| && s[i] == '{'
  {
    if s[0] == '{' then 0 else 1 + FirstBrace(s[1..])
  }

  // ------------------------------------------------ replies that defeat it

  const EMPTY: Json := Object("", NoMember)

  lemma EmptyObject()
    ensures Valid(EMPTY) && Print(EMPTY) == "{}"
  {
  }

  lemma NoFenceAt(raw: string, f: nat)
    requires f < |raw| && raw[f] != '`'
    ensures !Occurs(raw, FENCE, f)
  {
    if f + 3 <= |raw| {
      assert raw[f..f + 3][0] == raw[f];
    }
  }

  lemma StrayBraceDefeats()
    ensures Locate("{" + Print(EMPTY) + "") != Some((1, 3))
  {
    hide Locate, Find, Occurs;
    EmptyObject();
    NoFenceAt("{" + Print(EMPTY) + "", 0);
    PlainReply("{", EMPTY, "");
  }

  lemma LaterFenceDefeats()
    ensures Locate("" + Print(EMPTY) + FENCE) != Some((0, 2))
  {
    hide Locate;
    EmptyObject();
    PlainReply("", EMPTY, FENCE);
    assert Occurs("" + Print(EMPTY) + FENCE, FENCE, 2);
  }

  lemma BraceInFenceDefeats()
    ensures Locate("" + FENCE + "{" + Print(EMPTY) + "") != Some((4, 6))
  {
    hide Locate;
    EmptyObject();
    var raw := "" + FENCE + "{" + Print(EMPTY) + "";
    FindIs(raw, FENCE, 0);
    FencedReply("", "{", EMPTY, "");
  }
}
