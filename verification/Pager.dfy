/** Reading a file page by page (pkg/agent/builtin_tools_sandbox.go). */
module Pager {
  import Text

  const DEFAULT_LINES := 2000
  const PAGE_BYTES := 24000
  const MAX_LINE := 2000

  // ------------------------------------------------ lines

  function Split(s: string): (r: seq<string>)
    ensures 1 <= |r| <= |s| + 1
    ensures forall l :: l in r ==> |l| <= |s| && '\n' !in l
  {
    if s == "" then [""]
    else
      var rest := Split(s[1..]);
      if s[0] == '\n' then [""] + rest else [[s[0]] + rest[0]] + rest[1..]
  }

  function Join(lines: seq<string>): string
    requires lines != []
  {
    if |lines| == 1 then lines[0] else lines[0] + "\n" + Join(lines[1..])
  }

  lemma {:induction false} SplitLosesNothing(s: string)
    ensures Join(Split(s)) == s
  {
    if s != "" {
      SplitLosesNothing(s[1..]);
      JoinBlank(Split(s[1..]));
      JoinChar(Split(s[1..]), s[0]);
      assert s == [s[0]] + s[1..];
    }
  }

  lemma JoinBlank(rest: seq<string>)
    requires rest != []
    ensures Join([""] + rest) == "\n" + Join(rest)
  {
    var all := [""] + rest;
    assert all[1..] == rest && all[0] == "";
    assert "" + "\n" == "\n";
  }

  lemma JoinChar(rest: seq<string>, c: char)
    requires rest != []
    ensures Join([[c] + rest[0]] + rest[1..]) == [c] + Join(rest)
  {
    var all := [[c] + rest[0]] + rest[1..];
    assert all[1..] == rest[1..] && all[0] == [c] + rest[0];
    if |rest| > 1 {
      Reassociate([c], rest[0], "\n");
      Reassociate([c], rest[0] + "\n", Join(rest[1..]));
    }
  }

  /** The lines a reader sees: no phantom line after a final newline. */
  function Lines(content: string): (r: seq<string>)
    ensures |r| <= |content| && forall l :: l in r ==> |l| <= |content|
    ensures r == Split(content) || Split(content) == r + [""]
  {
    var r := Split(content);
    LastLine(content);
    if r[|r| - 1] == "" then r[..|r| - 1] else r
  }

  /** The lines joined are the content, but for the newline it may end with. */
  lemma LinesMeaning(content: string)
    ensures content == "" <==> Lines(content) == []
    ensures content != "" ==>
      content == Join(Lines(content)) + if content[|content| - 1] == '\n' then "\n" else ""
  {
    hide Split, Join;
    SplitLosesNothing(content);
    var all := Split(content);
    var front, last := all[..|all| - 1], all[|all| - 1];
    assert all == front + [last] && last in all;
    JoinOne(last);
    if front != [] {
      JoinSnoc(front, last);
    }
    if content != "" {
      assert last != "" ==> content[|content| - 1] == last[|last| - 1];
    }
  }

  lemma JoinOne(line: string)
    ensures Join([line]) == line
  {
  }

  lemma {:induction false} JoinSnoc(lines: seq<string>, last: string)
    requires lines != []
    ensures Join(lines + [last]) == Join(lines) + "\n" + last
  {
    var all := lines + [last];
    if |lines| == 1 {
      assert all[1..] == [last];
    } else {
      JoinSnoc(lines[1..], last);
      assert all[1..] == lines[1..] + [last];
      assert lines[0] + "\n" + (Join(lines[1..]) + "\n" + last) == lines[0] + "\n" + Join(lines[1..]) + "\n" + last;
    }
  }

  lemma {:induction false} LastLine(s: string)
    ensures Split(s)[|Split(s)| - 1] != "" ==> |Split(s)| <= |s|
  {
    if s != "" {
      LastLine(s[1..]);
    }
  }

  // ------------------------------------------------ one rendered line

  function Pad(s: string, width: nat): (r: string)
    ensures |r| == if |s| < width then width else |s|
    decreases width - |s|
  {
    if |s| >= width then s else Pad(" " + s, width)
  }

  function Shortened(line: string): string {
    if |line| <= MAX_LINE then line
    else
      var cut := Text.RuneCut(line, MAX_LINE);
      line[..cut] + "\U{e2}\U{80}\U{a6} [line truncated: " + Text.Decimal(cut) + " of " + Text.Decimal(|line|)
      + " bytes shown]"
  }

  function Rendered(lines: seq<string>, k: nat): string
    requires k < |lines|
  {
    Pad(Text.Decimal(k + 1), 6) + "\t" + Shortened(lines[k]) + "\n"
  }

  lemma {:induction false} PadMeaning(s: string, width: nat) returns (blank: string)
    ensures Pad(s, width) == blank + s && forall c :: c in blank ==> c == ' '
    ensures |blank| == if |s| < width then width - |s| else 0
    decreases width - |s|
  {
    if |s| >= width {
      blank := "";
    } else {
      var more := PadMeaning(" " + s, width);
      blank := more + " ";
      assert more + (" " + s) == blank + s;
    }
  }

  /** One shown line: its number from 1, right in a column of six, a tab, and the text; of
      a text longer than 2000 bytes as many whole runes as fit, and how much that is. */
  lemma RenderedMeaning(lines: seq<string>, k: nat) returns (blank: string, number: string, shown: string, cut: nat)
    requires k < |lines|
    ensures Rendered(lines, k) == blank + number + "\t" + shown + "\n"
    ensures Text.Value(number) == k + 1 && number[0] != '0' && forall c :: c in number ==> '0' <= c <= '9'
    ensures |blank| == (if |number| < 6 then 6 - |number| else 0) && forall c :: c in blank ==> c == ' '
    ensures |lines[k]| <= 2000 ==> shown == lines[k]
    ensures |lines[k]| > 2000 ==>
      && cut <= 2000 && (forall i :: cut < i <= 2000 ==> 0x80 <= lines[k][i] as int < 0xC0)
      && (cut > 0 ==> !(0x80 <= lines[k][cut] as int < 0xC0))
      && shown == lines[k][..cut] + "\U{e2}\U{80}\U{a6} [line truncated: " + Text.Decimal(cut) + " of "
                  + Text.Decimal(|lines[k]|) + " bytes shown]"
  {
    hide Pad, Text.Decimal;
    number, shown, cut := Text.Decimal(k + 1), Shortened(lines[k]), 0;
    blank := PadMeaning(number, 6);
    Text.DecimalMeaning(k + 1);
    if |lines[k]| > MAX_LINE {
      cut := Text.RuneCut(lines[k], MAX_LINE);
    }
  }

  /** Lines [from, stop), rendered. */
  function Body(lines: seq<string>, from: nat, stop: nat): string
    requires from <= stop <= |lines|
    decreases stop
  {
    if stop == from then "" else Body(lines, from, stop - 1) + Rendered(lines, stop - 1)
  }

  // ------------------------------------------------ one page

  datatype Page = Page(text: string, totalLines: nat, startLine: nat, endLine: nat, nextOffset: int)

  /** Go's int64 addition, for a sum that can only overflow upwards. */
  function Plus(a: int, b: int): int {
    if a + b < Text.INT64_LIMIT then a + b else a + b - 2 * Text.INT64_LIMIT
  }

  function Distance(a: int, b: int): int {
    if a < b then b - a else a - b
  }

  /** The line nearest to the offset. */
  function Clamp(offset: int, n: nat): (r: nat)
    ensures r <= n && forall m: nat :: m <= n ==> Distance(r, offset) <= Distance(m, offset)
  {
    if offset < 0 then 0 else if offset > n then n else offset
  }

  /** Where a default page starting at `offset` ends if it has come to `i`. */
  function Fill(lines: seq<string>, offset: nat, i: nat, end: nat): (stop: nat)
    requires offset <= i <= end <= |lines|
    requires i > offset + 1 ==> |Body(lines, offset, i)| <= PAGE_BYTES
    ensures i <= stop <= end && (offset < end ==> offset < stop)
    ensures stop > offset + 1 ==> |Body(lines, offset, stop)| <= PAGE_BYTES
    ensures stop < end ==> |Body(lines, offset, stop + 1)| > PAGE_BYTES
    decreases end - i
  {
    hide Rendered;
    if i == end || (i > offset && |Body(lines, offset, i)| + |Rendered(lines, i)| > PAGE_BYTES) then i
    else Fill(lines, offset, i + 1, end)
  }

  /** The line a page must not go past. */
  function End(n: nat, offset: nat, limit: int): int {
    var sum := Plus(offset, if limit <= 0 then DEFAULT_LINES else limit);
    if sum < n then sum else n
  }

  /** One past the last line of the page. */
  function Stop(lines: seq<string>, offset: nat, limit: int): (stop: nat)
    requires offset <= |lines|
    ensures offset <= stop <= |lines|
  {
    var end := End(|lines|, offset, limit);
    if end < offset then offset
    else if limit <= 0 then Fill(lines, offset, offset, end)
    else end
  }

  /** A page says what it shows, shows it, and says where to go on. */
  method WithLineNumbers(content: string, offset: int, limit: int) returns (page: Page)
    requires |content| < Text.INT64_LIMIT
    requires -Text.INT64_LIMIT <= offset < Text.INT64_LIMIT && -Text.INT64_LIMIT <= limit < Text.INT64_LIMIT
    ensures var lines := Lines(content); var from := Clamp(offset, |lines|); var stop := Stop(lines, from, limit);
      var start, end := if stop > from then from + 1 else 0, if stop > from then stop else 0;
      page == if stop < |lines|
              then Page(Body(lines, from, stop) + Trailer(start, end, |lines|, stop), |lines|, start, end, stop)
              else Page(Body(lines, from, stop), |lines|, start, end, -1)
  {
    hide Lines, Split, Body, Stop, Fill, Plus, Trailer;
    var lines := SplitLines(content);
    var from := if offset < 0 then 0 else if offset > |lines| then |lines| else offset;
    assert from == Clamp(offset, |lines|);
    var maxLines, maxBytes: nat := limit, 0;
    if limit <= 0 {
      maxLines, maxBytes := DEFAULT_LINES, PAGE_BYTES;
    }
    var end := |lines|;
    if Plus(from, maxLines) < end {
      end := Plus(from, maxLines);
    }
    StopIs(lines, from, limit, end);
    var b, i := Render(lines, from, end, maxBytes);
    page := Page("", |lines|, 0, 0, -1);
    if i > from {
      page := page.(startLine := from + 1, endLine := i);
    }
    if i < |lines| {
      b := b + Trailer(page.startLine, page.endLine, page.totalLines, i);
      page := page.(nextOffset := i);
    }
    page := page.(text := b);
  }

  lemma StopIs(lines: seq<string>, from: nat, limit: int, end: int)
    requires from <= |lines|
    requires var sum := Plus(from, if limit <= 0 then DEFAULT_LINES else limit);
      end == if sum < |lines| then sum else |lines|
    ensures end <= |lines|
    ensures Stop(lines, from, limit) ==
      if end < from then from else if limit <= 0 then Fill(lines, from, from, end) else end
  {
  }

  method SplitLines(content: string) returns (lines: seq<string>)
    ensures lines == Lines(content)
  {
    lines := Split(content);
    LastLine(content);
    if lines[|lines| - 1] == "" {
      lines := lines[..|lines| - 1];
    }
  }

  method Render(lines: seq<string>, from: nat, end: int, maxBytes: nat) returns (b: string, i: nat)
    requires from <= |lines| && end <= |lines| && (maxBytes == 0 || maxBytes == PAGE_BYTES)
    ensures i == if end < from then from else if maxBytes > 0 then Fill(lines, from, from, end) else end
    ensures b == Body(lines, from, i)
  {
    hide Rendered;
    b, i := "", from;
    while i < end
      invariant from <= i <= |lines| && b == Body(lines, from, i)
      invariant if end < from then i == from else i <= end
      invariant maxBytes > 0 && end >= from && i > from + 1 ==> |b| <= PAGE_BYTES
      invariant maxBytes > 0 && end >= from ==> Fill(lines, from, i, end) == Fill(lines, from, from, end)
    {
      var rendered := Rendered(lines, i);
      if maxBytes > 0 && i > from && |b| + |rendered| > maxBytes {
        break;
      }
      b := b + rendered;
      i := i + 1;
    }
  }

  function Trailer(start: nat, end: nat, total: nat, next: nat): string {
    "[lines " + Text.Decimal(start) + "-" + Text.Decimal(end) + " of " + Text.Decimal(total)
    + " shown; call fs_read with offset=" + Text.Decimal(next) + " to continue]\n"
  }

  /** The last line of a page that is not the last: what is shown, of how much, and the
      offset to go on at. */
  lemma TrailerMeaning(start: nat, end: nat, total: nat, next: nat)
    returns (first: string, last: string, all: string, offset: string)
    ensures Trailer(start, end, total, next) == "[lines " + first + "-" + last + " of " + all
      + " shown; call fs_read with offset=" + offset + " to continue]\n"
    ensures Text.Value(first) == start && Text.Value(last) == end
    ensures Text.Value(all) == total && Text.Value(offset) == next
    ensures forall c :: c in first + last + all + offset ==> '0' <= c <= '9'
  {
    first, last, all, offset := Text.Decimal(start), Text.Decimal(end), Text.Decimal(total), Text.Decimal(next);
    Text.DecimalMeaning(start);
    Text.DecimalMeaning(end);
    Text.DecimalMeaning(total);
    Text.DecimalMeaning(next);
  }

  /** Where a page ends: after as many lines as were asked for or there are; by default
      after 2000, or sooner, before the line that would take it past 24000 bytes. */
  lemma StopMeaning(lines: seq<string>, offset: nat, limit: int)
    requires offset <= |lines| < Text.INT64_LIMIT - 2000 && limit < Text.INT64_LIMIT
    ensures var stop := Stop(lines, offset, limit);
      && (0 < limit && offset + limit < Text.INT64_LIMIT ==>
           stop == if offset + limit < |lines| then offset + limit else |lines|)
      && (0 < limit && offset + limit >= Text.INT64_LIMIT ==> stop == offset)
      && (limit <= 0 ==> offset <= stop <= offset + 2000 && (stop == offset ==> offset == |lines|))
      && (limit <= 0 && stop > offset + 1 ==> |Body(lines, offset, stop)| <= 24000)
      && (limit <= 0 && stop < |lines| && stop < offset + 2000 ==> |Body(lines, offset, stop + 1)| > 24000)
  {
    hide Body;
  }

  /** A page shows each of its lines in its place. */
  lemma ShowsEachLine(lines: seq<string>, from: nat, stop: nat, k: nat)
    requires from <= k < stop <= |lines|
    ensures Body(lines, from, stop) == Body(lines, from, k) + Rendered(lines, k) + Body(lines, k + 1, stop)
    ensures Body(lines, from, from) == ""
  {
    hide Rendered;
    BodiesJoin(lines, from, k + 1, stop);
  }

  // ------------------------------------------------ reading on

  /** A page moves on exactly when Go can add the limit to the offset: an explicit limit
      that overflows gives an empty page that points back at itself. */
  lemma AdvancesIff(lines: seq<string>, offset: nat, limit: int)
    requires offset < |lines| < Text.INT64_LIMIT && limit < Text.INT64_LIMIT
    ensures Stop(lines, offset, limit) > offset <==>
      offset + (if limit <= 0 then DEFAULT_LINES else limit) < Text.INT64_LIMIT
  {
    hide Body;
  }

  /** What a reader gets who passes each page's next offset back, with these limits. */
  function Reading(lines: seq<string>, limits: seq<int>, from: nat): string
    requires from <= |lines|
  {
    if limits == [] then ""
    else
      var stop := Stop(lines, from, limits[0]);
      Body(lines, from, stop) + if stop < |lines| then Reading(lines, limits[1..], stop) else ""
  }

  lemma {:induction false} BodiesJoin(lines: seq<string>, a: nat, b: nat, c: nat)
    requires a <= b <= c <= |lines|
    ensures Body(lines, a, b) + Body(lines, b, c) == Body(lines, a, c)
    decreases c
  {
    if c > b {
      hide Rendered;
      BodiesJoin(lines, a, b, c - 1);
      Reassociate(Body(lines, a, b), Body(lines, b, c - 1), Rendered(lines, c - 1));
    }
  }

  lemma Reassociate(x: string, y: string, z: string)
    ensures x + (y + z) == (x + y) + z
  {
  }

  /** Whatever limits a reader uses, no line is skipped, repeated or out of order. */
  lemma {:induction false} NothingSkipped(lines: seq<string>, limits: seq<int>, from: nat) returns (end: nat)
    requires from <= |lines|
    ensures from <= end <= |lines| && Reading(lines, limits, from) == Body(lines, from, end)
  {
    hide Stop, Rendered;
    if limits == [] {
      end := from;
    } else {
      var stop := Stop(lines, from, limits[0]);
      if stop < |lines| {
        end := NothingSkipped(lines, limits[1..], stop);
        BodiesJoin(lines, from, stop, end);
      } else {
        end := stop;
      }
    }
  }

  /** Reading on ends: no more pages than lines are needed for the whole file. */
  lemma {:induction false} WholeFileRead(lines: seq<string>, limits: seq<int>, from: nat)
    requires from <= |lines| && |limits| >= |lines| - from
    requires forall k :: 0 <= k < |limits| ==>
      |lines| + (if limits[k] <= 0 then DEFAULT_LINES else limits[k]) <= Text.INT64_LIMIT
    ensures Reading(lines, limits, from) == Body(lines, from, |lines|)
    decreases |limits|
  {
    hide Stop, Rendered;
    if from < |lines| {
      AdvancesIff(lines, from, limits[0]);
      var stop := Stop(lines, from, limits[0]);
      BodiesJoin(lines, from, stop, |lines|);
      if stop < |lines| {
        WholeFileRead(lines, limits[1..], stop);
      }
    } else if limits != [] {
      assert Stop(lines, from, limits[0]) == from;
    }
  }

  /** With limits that overflow at its offset a reader never gets past it. */
  lemma {:induction false} OverflowingLimitsStall(lines: seq<string>, limits: seq<int>, from: nat)
    requires from < |lines| < Text.INT64_LIMIT
    requires forall k :: 0 <= k < |limits| ==> 0 < limits[k] < Text.INT64_LIMIT <= from + limits[k]
    ensures Reading(lines, limits, from) == ""
  {
    hide Stop, Rendered;
    if limits != [] {
      AdvancesIff(lines, from, limits[0]);
      OverflowingLimitsStall(lines, limits[1..], from);
    }
  }

  /** A default page keeps to its byte budget, however long its first line is. */
  lemma DefaultPageFits(content: string, offset: nat, limit: int)
    requires |content| < Text.INT64_LIMIT && offset <= |Lines(content)| && limit <= 0
    ensures |Body(Lines(content), offset, Stop(Lines(content), offset, limit))| <= PAGE_BYTES
  {
    hide Lines, Rendered;
    var lines := Lines(content);
    var stop := Stop(lines, offset, limit);
    if stop == offset + 1 {
      LineFits(lines, offset);
      assert Body(lines, offset, offset) == "";
    }
  }

  lemma LineFits(lines: seq<string>, k: nat)
    requires k < |lines| < Text.INT64_LIMIT && |lines[k]| < Text.INT64_LIMIT
    ensures |Rendered(lines, k)| < PAGE_BYTES
  {
    hide Text.Decimal, Text.RuneCut;
    Text.Int64Digits(k + 1);
    Text.Int64Digits(|lines[k]|);
    if |lines[k]| > MAX_LINE {
      Text.Int64Digits(Text.RuneCut(lines[k], MAX_LINE));
    }
  }

  /** The second of two lines, asked for with the largest limit there is. */
  lemma LargestLimitStalls()
    ensures Stop(["a", "b"], 1, Text.INT64_LIMIT - 1) == 1
  {
    AdvancesIff(["a", "b"], 1, Text.INT64_LIMIT - 1);
  }
}
