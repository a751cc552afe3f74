/** Cutting the body of a note into chunks: sections at headings, sections into pieces of bounded length. */
module Parser {
  import opened Text
  import opened Models
  import opened Packing

  // ---- lines ----

  /** Python's `s.split("\n")`. */
  function Lines(s: string): (ls: seq<string>)
    ensures ls != []
  {
    if s == "" then [""]
    else if s[0] == '\n' then [""] + Lines(s[1..])
    else [[s[0]] + Lines(s[1..])[0]] + Lines(s[1..])[1..]
  }

  lemma {:induction false} GrowLine(c: char, head: string, rest: seq<string>)
    ensures EraseAll([[c] + head] + rest) == Erase([c]) + EraseAll([head] + rest)
  {
    EraseAllCons([c] + head, rest);
    EraseAllCons(head, rest);
    EraseConcat([c], head);
    Associate(Erase([c]), Erase(head), EraseAll(rest));
  }

  lemma {:induction false} BreakLine(rest: seq<string>)
    ensures EraseAll([""] + rest) == EraseAll(rest)
  {
    EraseAllCons("", rest);
  }

  lemma {:induction false} EraseHead(s: string)
    requires s != ""
    ensures Erase(s) == Erase([s[0]]) + Erase(s[1..])
  {
    EraseConcat([s[0]], s[1..]);
    assert s == [s[0]] + s[1..];
  }

  lemma {:induction false} LinesErase(s: string)
    ensures EraseAll(Lines(s)) == Erase(s)
  {
    if s == "" {
      OneErase("");
    } else {
      var ls := Lines(s[1..]);
      LinesErase(s[1..]);
      EraseHead(s);
      if s[0] == '\n' {
        BreakLine(ls);
      } else {
        GrowLine(s[0], ls[0], ls[1..]);
        assert ls == [ls[0]] + ls[1..];
      }
    }
  }

  /** The lines joined again are the text, and none holds a line break. */
  lemma {:induction false} LinesJoin(s: string)
    ensures JoinWith("\n", Lines(s)) == s && forall l :: l in Lines(s) ==> '\n' !in l
  {
    if s == "" {
      JoinOne("\n", "");
    } else {
      LinesJoin(s[1..]);
      var ls := Lines(s[1..]);
      FirstAndRest(s);
      if s[0] == '\n' {
        JoinCons("\n", "", ls);
      } else {
        GrownLine(s[0], ls);
      }
    }
  }

  lemma {:induction false} GrownLine(c: char, ls: seq<string>)
    requires ls != [] && c != '\n' && forall l :: l in ls ==> '\n' !in l
    ensures JoinWith("\n", [[c] + ls[0]] + ls[1..]) == [c] + JoinWith("\n", ls)
    ensures forall l :: l in [[c] + ls[0]] + ls[1..] ==> '\n' !in l
  {
    var rest := ls[1..];
    assert ls == [ls[0]] + rest && ls[0] in ls;
    assert forall l :: l in rest ==> l in ls;
    if rest == [] {
      JoinOne("\n", ls[0]);
      JoinOne("\n", [c] + ls[0]);
      NothingAfter([[c] + ls[0]]);
    } else {
      JoinCons("\n", ls[0], rest);
      JoinCons("\n", [c] + ls[0], rest);
      JoinAssociates([c], ls[0], "\n");
      JoinAssociates([c], ls[0] + "\n", JoinWith("\n", rest));
    }
  }

  // ---- headings outside fenced code ----

  /** A line that opens or closes fenced code. */
  predicate IsFence(line: string) {
    "```" <= LStrip(line) || "~~~" <= LStrip(line)
  }

  /** After white space, three back-ticks or three tildes. */
  lemma {:induction false} FenceLine(l: string, rest: string)
    requires Blank(l) && ("```" <= rest || "~~~" <= rest)
    ensures IsFence(l + rest)
  {
    assert rest[0] in "`~" && !IsSpace('`') && !IsSpace('~');
    LStripIs(l, rest);
  }

  lemma {:induction false} FenceShape(line: string) returns (l: string)
    requires IsFence(line)
    ensures l <= line && Blank(l) && ("```" <= line[|l|..] || "~~~" <= line[|l|..])
  {
    l := LStripShape(line);
  }

  function HashCount(line: string): (n: nat)
    ensures n <= |line|
  {
    if line != "" && line[0] == '#' then 1 + HashCount(line[1..]) else 0
  }

  /** One to six `#` followed by white space. */
  predicate IsHeading(line: string) {
    1 <= HashCount(line) <= 6 && HashCount(line) < |line| && IsSpace(line[HashCount(line)])
  }

  function HeadingText(line: string): string {
    Strip(line[HashCount(line)..])
  }

  ghost predicate Hashes(line: string, k: nat) {
    k < |line| && IsSpace(line[k]) && forall j :: 0 <= j < k ==> line[j] == '#'
  }

  lemma {:induction false} HashCountIs(line: string, k: nat)
    requires Hashes(line, k)
    ensures HashCount(line) == k
  {
    assert !IsSpace('#');
    if k > 0 { HashCountIs(line[1..], k - 1); }
  }

  lemma {:induction false} HashesCounted(line: string)
    ensures forall j :: 0 <= j < HashCount(line) ==> line[j] == '#'
  {
    if line != "" && line[0] == '#' {
      HashesCounted(line[1..]);
      assert forall j :: 0 < j < HashCount(line) ==> line[j] == line[1..][j - 1];
    }
  }

  /** A heading is one to six `#`, white space, and its text. */
  lemma {:induction false} HeadingLine(line: string)
    ensures IsHeading(line) <==> exists k :: 1 <= k <= 6 && Hashes(line, k)
    ensures forall k :: 1 <= k <= 6 && Hashes(line, k) ==> HeadingText(line) == Strip(line[k + 1..])
  {
    HashesCounted(line);
    if IsHeading(line) { assert Hashes(line, HashCount(line)); }
    forall k | 1 <= k <= 6 && Hashes(line, k)
      ensures IsHeading(line) && HeadingText(line) == Strip(line[k + 1..])
    {
      HashCountIs(line, k);
      assert line[k..][1..] == line[k + 1..];
    }
  }

  /** How many of the first `i` lines open or close fenced code. */
  ghost function FencesBefore(lines: seq<string>, i: nat): set<nat>
    requires i <= |lines|
  {
    set j: nat | j < i && IsFence(lines[j])
  }

  /** Whether line `i` starts inside fenced code: an odd number of fence lines comes before it. */
  function InFence(lines: seq<string>, i: nat): bool
    requires i <= |lines|
  {
    if i == 0 then false else if IsFence(lines[i - 1]) then !InFence(lines, i - 1) else InFence(lines, i - 1)
  }

  lemma {:induction false} FencesNext(lines: seq<string>, i: nat)
    requires i < |lines|
    ensures |FencesBefore(lines, i + 1)| == |FencesBefore(lines, i)| + if IsFence(lines[i]) then 1 else 0
  {
    assert FencesBefore(lines, i + 1) == FencesBefore(lines, i) + if IsFence(lines[i]) then {i} else {};
  }

  lemma {:induction false} InFenceOdd(lines: seq<string>, i: nat)
    requires i <= |lines|
    ensures InFence(lines, i) <==> |FencesBefore(lines, i)| % 2 == 1
  {
    if i > 0 {
      InFenceOdd(lines, i - 1);
      FencesNext(lines, i - 1);
    } else {
      assert FencesBefore(lines, 0) == {};
    }
  }

  predicate HeadingAt(lines: seq<string>, i: nat)
    requires i < |lines|
  {
    !IsFence(lines[i]) && !InFence(lines, i) && IsHeading(lines[i])
  }

  /** A heading line counts when an even number of fences comes before it. */
  lemma {:induction false} HeadingAtExactly(lines: seq<string>, i: nat)
    requires i < |lines|
    ensures HeadingAt(lines, i) <==>
      |FencesBefore(lines, i)| % 2 == 0 && exists k :: 1 <= k <= 6 && Hashes(lines[i], k)
  {
    InFenceOdd(lines, i);
    HeadingLine(lines[i]);
    if IsFence(lines[i]) && IsHeading(lines[i]) { NoFenceHeading(lines[i]); }
  }

  lemma {:induction false} NoFenceHeading(line: string)
    requires IsHeading(line)
    ensures !IsFence(line)
  {
  }

  /** The text of the last heading outside fenced code at or before line `i`; empty when there is none. */
  function HeadingInForce(lines: seq<string>, i: nat): string
    requires i < |lines|
  {
    if HeadingAt(lines, i) then HeadingText(lines[i]) else if i == 0 then "" else HeadingInForce(lines, i - 1)
  }

  /** `HeadingInForce` is the last heading: no heading lies between it and line `i`. */
  lemma {:induction false} HeadingInForceIsLast(lines: seq<string>, j: nat, i: nat)
    requires j <= i < |lines| && HeadingAt(lines, j) && forall k :: j < k <= i ==> !HeadingAt(lines, k)
    ensures HeadingInForce(lines, i) == HeadingText(lines[j])
  {
    if j < i { HeadingInForceIsLast(lines, j, i - 1); }
  }

  /** Before the first heading no heading is in force. */
  lemma {:induction false} NoHeadingInForce(lines: seq<string>, i: nat)
    requires i < |lines| && forall k :: 0 <= k <= i ==> !HeadingAt(lines, k)
    ensures HeadingInForce(lines, i) == ""
  {
    if i > 0 { NoHeadingInForce(lines, i - 1); }
  }

  /** The first heading from line `i` on, or the end. */
  function NextHeading(lines: seq<string>, i: nat): (j: nat)
    requires i <= |lines|
    ensures i <= j <= |lines| && (j < |lines| ==> HeadingAt(lines, j))
    ensures forall k :: i <= k < j ==> !HeadingAt(lines, k)
    decreases |lines| - i
  {
    if i == |lines| || HeadingAt(lines, i) then i else NextHeading(lines, i + 1)
  }

  // ---- sections ----

  datatype Section = Section(heading: string, startLine: nat, text: string)

  /** The section made of the lines `buf`, if they are not all blank. */
  function SectionOf(heading: string, start: nat, buf: seq<string>): seq<Section> {
    var text := Strip(JoinWith("\n", buf));
    if text == "" then [] else [Section(heading, start, text)]
  }

  /** The section whose first line is `a` (counted from 0) and that ends before line `b`, if it is not blank. */
  function SectionAt(lines: seq<string>, a: nat, b: nat): seq<Section>
    requires a < b <= |lines|
  {
    SectionOf(HeadingInForce(lines, a), a + 1, lines[a..b])
  }

  /** The sections from line `a` on: each runs to the next heading outside fenced code. */
  function SectionsFrom(lines: seq<string>, a: nat): seq<Section>
    requires a < |lines|
    decreases |lines| - a
  {
    var b := NextHeading(lines, a + 1);
    SectionAt(lines, a, b) + if b < |lines| then SectionsFrom(lines, b) else []
  }

  /** Lines from the start of the text or a heading up to the next heading or the end. */
  ghost predicate Stretch(lines: seq<string>, a: nat, b: nat) {
    && a < b <= |lines| && (a == 0 || HeadingAt(lines, a)) && (b == |lines| || HeadingAt(lines, b))
    && forall k :: a < k < b ==> !HeadingAt(lines, k)
  }

  /** The section that these lines are. */
  ghost predicate Covers(s: Section, lines: seq<string>, a: nat, b: nat)
    requires a < b <= |lines|
  {
    && s.startLine == a + 1 && s.heading == HeadingInForce(lines, a)
    && s.text == Strip(JoinWith("\n", lines[a..b])) && s.text != ""
  }

  ghost predicate CoversStretch(s: Section, lines: seq<string>, a: nat) {
    exists b: nat :: Stretch(lines, a, b) && Covers(s, lines, a, b)
  }

  lemma {:induction false} OneStretch(lines: seq<string>, a: nat, b: nat, c: nat)
    requires Stretch(lines, a, b) && Stretch(lines, a, c)
    ensures b == c
  {
  }

  lemma {:induction false} FirstSection(lines: seq<string>, a: nat, b: nat, s: Section)
    requires Stretch(lines, a, b)
    ensures s in SectionAt(lines, a, b) <==> CoversStretch(s, lines, a)
  {
    if CoversStretch(s, lines, a) {
      var c: nat :| Stretch(lines, a, c) && Covers(s, lines, a, c);
      OneStretch(lines, a, b, c);
    }
  }

  ghost predicate CoversFrom(s: Section, lines: seq<string>, a: nat) {
    exists c: nat :: a <= c && CoversStretch(s, lines, c)
  }

  lemma {:induction false} NextStretch(lines: seq<string>, a: nat, b: nat, s: Section)
    requires Stretch(lines, a, b)
    ensures CoversFrom(s, lines, a) <==> CoversStretch(s, lines, a) || (b < |lines| && CoversFrom(s, lines, b))
  {
    forall c: nat | a < c && CoversStretch(s, lines, c) ensures b <= c < |lines| {
      var d: nat :| Stretch(lines, c, d) && Covers(s, lines, c, d);
    }
  }

  lemma {:induction false} SectionsCover(lines: seq<string>, a: nat, s: Section)
    requires a < |lines| && (a == 0 || HeadingAt(lines, a))
    ensures s in SectionsFrom(lines, a) <==> CoversFrom(s, lines, a)
    decreases |lines| - a
  {
    var b := NextHeading(lines, a + 1);
    FirstSection(lines, a, b, s);
    NextStretch(lines, a, b, s);
    if b < |lines| { SectionsCover(lines, b, s); }
  }

  /** The sections are exactly the stretches between headings outside fenced code that are not blank. */
  lemma {:induction false} SectionsExactly(lines: seq<string>, s: Section)
    requires lines != []
    ensures s in SectionsFrom(lines, 0) <==>
      exists a: nat, b: nat :: Stretch(lines, a, b) && Covers(s, lines, a, b)
  {
    SectionsCover(lines, 0, s);
    if a: nat, b: nat :| Stretch(lines, a, b) && Covers(s, lines, a, b) { assert CoversStretch(s, lines, a); }
    if CoversFrom(s, lines, 0) {
      var a: nat :| CoversStretch(s, lines, a);
    }
  }

  function SectionTexts(ss: seq<Section>): seq<string> {
    seq(|ss|, i requires 0 <= i < |ss| => ss[i].text)
  }

  lemma {:induction false} SectionAtErase(lines: seq<string>, a: nat, b: nat)
    requires a < b <= |lines|
    ensures EraseAll(SectionTexts(SectionAt(lines, a, b))) == EraseAll(lines[a..b])
  {
    var joined := JoinWith("\n", lines[a..b]);
    assert IsSpace('\n');
    JoinErases("\n", lines[a..b]);
    StripErases(joined);
    EraseAllCons(Strip(joined), []);
    assert [Strip(joined)] + [] == [Strip(joined)] && EraseAll([]) == "";
    assert SectionTexts(SectionAt(lines, a, b)) == if Strip(joined) == "" then [] else [Strip(joined)];
  }

  lemma {:induction false} SectionTextsConcat(x: seq<Section>, y: seq<Section>)
    ensures EraseAll(SectionTexts(x + y)) == EraseAll(SectionTexts(x)) + EraseAll(SectionTexts(y))
  {
    assert SectionTexts(x + y) == SectionTexts(x) + SectionTexts(y);
    EraseAllConcat(SectionTexts(x), SectionTexts(y));
  }

  lemma {:induction false} EraseAllSplit(ls: seq<string>, a: nat, b: nat)
    requires a <= b <= |ls|
    ensures EraseAll(ls[a..]) == EraseAll(ls[a..b]) + EraseAll(ls[b..])
  {
    EraseAllConcat(ls[a..b], ls[b..]);
    assert ls[a..b] + ls[b..] == ls[a..];
  }

  /** Sections lose only white space. */
  lemma {:induction false} SectionsErase(lines: seq<string>, a: nat)
    requires a < |lines|
    ensures EraseAll(SectionTexts(SectionsFrom(lines, a))) == EraseAll(lines[a..])
    decreases |lines| - a
  {
    var b := NextHeading(lines, a + 1);
    SectionAtErase(lines, a, b);
    EraseAllSplit(lines, a, b);
    if b < |lines| {
      SectionsErase(lines, b);
      SectionTextsConcat(SectionAt(lines, a, b), SectionsFrom(lines, b));
    } else {
      SectionTextsConcat(SectionAt(lines, a, b), []);
      assert SectionTexts([]) == [] && lines[b..] == [];
    }
  }

  /** A section carries the heading in force at its first line. */
  ghost predicate Anchored(s: Section, lines: seq<string>) {
    && 1 <= s.startLine <= |lines| && s.text != ""
    && s.heading == HeadingInForce(lines, s.startLine - 1)
  }

  lemma {:induction false} SectionsAnchored(lines: seq<string>, a: nat)
    requires a < |lines|
    ensures forall s :: s in SectionsFrom(lines, a) ==> Anchored(s, lines) && s.startLine > a
    decreases |lines| - a
  {
    var b := NextHeading(lines, a + 1);
    if b < |lines| { SectionsAnchored(lines, b); }
    SectionAnchored(lines, a, b);
  }

  lemma {:induction false} SectionAnchored(lines: seq<string>, a: nat, b: nat)
    requires a < b <= |lines|
    ensures forall s :: s in SectionAt(lines, a, b) ==> Anchored(s, lines) && s.startLine > a
  {
  }

  ghost predicate Increasing(ss: seq<Section>) {
    forall i, j :: 0 <= i < j < |ss| ==> ss[i].startLine < ss[j].startLine
  }

  lemma {:induction false} IncreasingCons(head: seq<Section>, tail: seq<Section>, a: nat, b: nat)
    requires |head| <= 1 && a < b && (forall s :: s in head ==> s.startLine == a + 1)
    requires Increasing(tail) && forall s :: s in tail ==> s.startLine > b
    ensures Increasing(head + tail)
  {
    var ss := head + tail;
    forall i, j | 0 <= i < j < |ss| ensures ss[i].startLine < ss[j].startLine {
      assert j >= |head| && ss[j] == tail[j - |head|] && tail[j - |head|] in tail;
      if i < |head| { assert ss[i] == head[i] && head[i] in head; }
    }
  }

  /** Sections come in the order of the text. */
  lemma {:induction false} SectionsOrdered(lines: seq<string>, a: nat)
    requires a < |lines|
    ensures Increasing(SectionsFrom(lines, a))
    decreases |lines| - a
  {
    var b := NextHeading(lines, a + 1);
    if b < |lines| {
      SectionsOrdered(lines, b);
      SectionsAnchored(lines, b);
      IncreasingCons(SectionAt(lines, a, b), SectionsFrom(lines, b), a, b);
    } else {
      assert SectionAt(lines, a, b) + [] == SectionAt(lines, a, b);
    }
  }

  lemma {:induction false} JoinBlank(ls: seq<string>)
    ensures Blank(JoinWith("\n", ls)) <==> forall l :: l in ls ==> Strip(l) == ""
  {
    assert IsSpace('\n');
    JoinErases("\n", ls);
    EraseBlank(JoinWith("\n", ls));
    AllBlank(ls);
  }

  lemma {:induction false} AllBlank(ls: seq<string>)
    ensures EraseAll(ls) == "" <==> forall l :: l in ls ==> Strip(l) == ""
  {
    if ls != [] {
      var front, last := ls[..|ls| - 1], ls[|ls| - 1];
      AllBlank(front);
      assert ls == front + [last];
      EraseAllAppend(front, last);
      StripErases(last);
      EraseBlank(last);
    }
  }

  /** The test `buf and any(s.strip() for s in buf)` and the section it lets through. */
  method EmitSection(heading: string, start: nat, buf: seq<string>) returns (out: seq<Section>)
    ensures out == SectionOf(heading, start, buf)
  {
    var some := false;
    for i := 0 to |buf|
      invariant some <==> exists l :: l in buf[..i] && Strip(l) != ""
    {
      assert buf[..i + 1] == buf[..i] + [buf[i]];
      some := some || Strip(buf[i]) != "";
    }
    assert buf[..|buf|] == buf;
    JoinBlank(buf);
    StripErases(JoinWith("\n", buf));
    out := if some then [Section(heading, start, Strip(JoinWith("\n", buf)))] else [];
  }

  method IterSections(body: string) returns (sections: seq<Section>)
    ensures sections == SectionsFrom(Lines(body), 0)
  {
    sections := ScanLines(Lines(body));
  }

  method ScanLines(lines: seq<string>) returns (sections: seq<Section>)
    requires lines != []
    ensures sections == SectionsFrom(lines, 0)
  {
    var scan := FIRST_SCAN;
    ScanStarts(lines);
    for i := 0 to |lines|
      invariant Scanned(lines, i, scan)
    {
      scan := ScanLine(lines, i, scan);
    }
    sections := ScanEnd(lines, scan);
  }

  method ScanEnd(lines: seq<string>, scan: Scan) returns (sections: seq<Section>)
    requires lines != [] && Scanned(lines, |lines|, scan)
    ensures sections == SectionsFrom(lines, 0)
  {
    var out := EmitSection(scan.heading, scan.start, scan.buf);
    CloseLast(lines, scan, out);
    sections := scan.sections + out;
  }

  /** The variables of the scan: heading and lines of the open section, its first line (counted from 1),
      whether the scan is inside fenced code, and the sections already closed. */
  datatype Scan = Scan(heading: string, buf: seq<string>, start: nat, inFence: bool, sections: seq<Section>)

  const FIRST_SCAN := Scan("", [], 1, false, [])

  ghost predicate Scanned(lines: seq<string>, i: nat, s: Scan)
    requires i <= |lines|
  {
    match s
    case Scan(heading, buf, start, inFence, sections) =>
      && inFence == InFence(lines, i)
      && if i == 0 then start == 1 && heading == "" && buf == [] && sections == [] else Open(lines, i, s)
  }

  ghost predicate Open(lines: seq<string>, i: nat, s: Scan)
    requires i <= |lines|
  {
    && 1 <= s.start <= i && s.buf == lines[s.start - 1..i]
    && s.heading == HeadingInForce(lines, s.start - 1)
    && (forall k :: s.start <= k < i ==> !HeadingAt(lines, k))
    && SectionsFrom(lines, 0) == s.sections + SectionsFrom(lines, s.start - 1)
  }

  lemma {:induction false} ScanStarts(lines: seq<string>)
    ensures Scanned(lines, 0, FIRST_SCAN)
  {
  }

  method ScanLine(lines: seq<string>, i: nat, s: Scan) returns (s': Scan)
    requires i < |lines| && Scanned(lines, i, s)
    ensures Scanned(lines, i + 1, s')
  {
    var line := lines[i];
    if IsFence(line) {
      s' := s.(inFence := !s.inFence, buf := s.buf + [line]);
      KeepLine(lines, i, s, s');
    } else if !s.inFence && IsHeading(line) {
      var out := [];
      if s.buf != [] {
        out := EmitSection(s.heading, s.start, s.buf);
      }
      s' := Scan(HeadingText(line), [line], i + 1, s.inFence, s.sections + out);
      StartSection(lines, i, s, s', out);
    } else {
      s' := s.(buf := s.buf + [line]);
      KeepLine(lines, i, s, s');
    }
  }

  lemma {:induction false} KeepFirst(lines: seq<string>, s': Scan)
    requires lines != [] && !HeadingAt(lines, 0)
    requires s' == Scan("", [lines[0]], 1, InFence(lines, 1), [])
    ensures Scanned(lines, 1, s')
  {
    NothingBefore(SectionsFrom(lines, 0));
    SliceGrows(lines, 0, 0);
  }

  lemma {:induction false} KeepNext(lines: seq<string>, i: nat, s: Scan, s': Scan)
    requires 0 < i < |lines| && Open(lines, i, s) && !HeadingAt(lines, i)
    requires s' == s.(buf := s.buf + [lines[i]], inFence := InFence(lines, i + 1))
    ensures Scanned(lines, i + 1, s')
  {
    SliceGrows(lines, s.start - 1, i);
  }

  lemma {:induction false} KeepLine(lines: seq<string>, i: nat, s: Scan, s': Scan)
    requires i < |lines| && Scanned(lines, i, s) && !HeadingAt(lines, i)
    requires s' == s.(buf := s.buf + [lines[i]], inFence := InFence(lines, i + 1))
    ensures Scanned(lines, i + 1, s')
  {
    if i == 0 {
      NothingBefore([lines[0]]);
      KeepFirst(lines, s');
    } else {
      KeepNext(lines, i, s, s');
    }
  }

  lemma {:induction false} CloseSection(lines: seq<string>, i: nat, s: Scan, out: seq<Section>)
    requires 0 < i < |lines| && Open(lines, i, s) && HeadingAt(lines, i)
    requires out == SectionOf(s.heading, s.start, s.buf)
    ensures SectionsFrom(lines, 0) == (s.sections + out) + SectionsFrom(lines, i)
  {
    var a := s.start - 1;
    assert NextHeading(lines, s.start) == i;
    assert out == SectionAt(lines, a, i);
    Regroup(SectionsFrom(lines, 0), s.sections, SectionsFrom(lines, a), out, SectionsFrom(lines, i));
  }

  lemma {:induction false} SameFence(lines: seq<string>, i: nat)
    requires i < |lines| && HeadingAt(lines, i)
    ensures InFence(lines, i + 1) == InFence(lines, i)
  {
  }

  lemma {:induction false} OpenSection(lines: seq<string>, i: nat, s': Scan)
    requires i < |lines| && HeadingAt(lines, i) && SectionsFrom(lines, 0) == s'.sections + SectionsFrom(lines, i)
    requires s'.heading == HeadingText(lines[i]) && s'.buf == [lines[i]] && s'.start == i + 1
      && s'.inFence == InFence(lines, i + 1)
    ensures Scanned(lines, i + 1, s')
  {
    SliceGrows(lines, i, i);
  }

  lemma {:induction false} StartSection(lines: seq<string>, i: nat, s: Scan, s': Scan, out: seq<Section>)
    requires i < |lines| && Scanned(lines, i, s) && HeadingAt(lines, i)
    requires out == if s.buf == [] then [] else SectionOf(s.heading, s.start, s.buf)
    requires s' == Scan(HeadingText(lines[i]), [lines[i]], i + 1, s.inFence, s.sections + out)
    ensures Scanned(lines, i + 1, s')
  {
    if i > 0 {
      CloseSection(lines, i, s, out);
    }
    NothingBefore(SectionsFrom(lines, i));
    SameFence(lines, i);
    OpenSection(lines, i, s');
  }

  lemma {:induction false} CloseLast(lines: seq<string>, s: Scan, out: seq<Section>)
    requires lines != [] && Scanned(lines, |lines|, s)
    requires out == SectionOf(s.heading, s.start, s.buf)
    ensures s.sections + out == SectionsFrom(lines, 0)
  {
    assert NextHeading(lines, s.start) == |lines|;
    assert out == SectionAt(lines, s.start - 1, |lines|);
    assert out + [] == out;
  }

  // ---- _split_long ----

  /** Python's `s.split("\n\n")`. */
  function Paragraphs(s: string, start: nat, i: nat): (ps: seq<string>)
    requires start <= i <= |s|
    ensures ps != []
    decreases |s| - i
  {
    if i + 2 > |s| then [s[start..]]
    else if s[i] == '\n' && s[i + 1] == '\n' then [s[start..i]] + Paragraphs(s, i + 2, i + 2)
    else Paragraphs(s, start, i + 1)
  }

  lemma {:induction false} ParagraphsErase(s: string, start: nat, i: nat)
    requires start <= i <= |s|
    ensures EraseAll(Paragraphs(s, start, i)) == Erase(s[start..])
    decreases |s| - i
  {
    if i + 2 > |s| {
      EraseAllCons(s[start..], []);
      assert [s[start..]] + [] == [s[start..]] && EraseAll([]) == "";
    } else if s[i] == '\n' && s[i + 1] == '\n' {
      ParagraphsErase(s, i + 2, i + 2);
      EraseAllCons(s[start..i], Paragraphs(s, i + 2, i + 2));
      BreakErase(s, start, i);
    } else {
      ParagraphsErase(s, start, i + 1);
    }
  }

  lemma {:induction false} BreakErase(s: string, start: nat, i: nat)
    requires start <= i && i + 2 <= |s| && s[i] == '\n' && s[i + 1] == '\n'
    ensures Erase(s[start..]) == Erase(s[start..i]) + Erase(s[i + 2..])
  {
    var gap := s[i..i + 2];
    assert IsSpace('\n');
    EraseBlank(gap);
    SplitAt(s, start, i);
    SplitAt(s, i, i + 2);
    EraseConcat(gap, s[i + 2..]);
    EraseConcat(s[start..i], s[i..]);
  }

  // ---- what split("\n\n") gives ----

  const BREAK: string := "\n\n"

  ghost predicate NoBreak(p: string) {
    forall i :: 0 <= i < |p| - 1 ==> p[i] != '\n' || p[i + 1] != '\n'
  }

  /** The paragraphs joined again are the text, and none holds a break. */
  lemma {:induction false} ParagraphsJoin(s: string, start: nat, i: nat)
    requires start <= i <= |s| && NoBreak(s[start..i]) && (start < i < |s| && s[i - 1] == '\n' ==> s[i] != '\n')
    ensures JoinWith(BREAK, Paragraphs(s, start, i)) == s[start..]
    ensures forall p :: p in Paragraphs(s, start, i) ==> NoBreak(p)
    decreases |s| - i
  {
    if i + 2 > |s| {
      NoBreakGrows(s, start, i);
      JoinOne(BREAK, s[start..]);
    } else if s[i] == '\n' && s[i + 1] == '\n' {
      ParagraphsJoin(s, i + 2, i + 2);
      JoinCons(BREAK, s[start..i], Paragraphs(s, i + 2, i + 2));
      BreakBetween(s, start, i);
    } else {
      NoBreakGrows(s, start, i);
      ParagraphsJoin(s, start, i + 1);
    }
  }

  lemma {:induction false} NoBreakGrows(s: string, start: nat, i: nat)
    requires start <= i <= |s| && NoBreak(s[start..i]) && (start < i < |s| && s[i - 1] == '\n' ==> s[i] != '\n')
    ensures i < |s| ==> NoBreak(s[start..i + 1])
    ensures i + 2 > |s| ==> NoBreak(s[start..])
  {
    if i < |s| {
      var t := s[start..i + 1];
      forall j | 0 <= j < |t| - 1 ensures t[j] != '\n' || t[j + 1] != '\n' {
        if j + 1 < i - start { assert t[j] == s[start..i][j] && t[j + 1] == s[start..i][j + 1]; }
      }
      if i + 1 == |s| { assert s[start..] == t; }
    } else {
      assert s[start..] == s[start..i];
    }
  }

  lemma {:induction false} BreakBetween(s: string, start: nat, i: nat)
    requires start <= i && i + 2 <= |s| && s[i] == '\n' && s[i + 1] == '\n'
    ensures s[start..i] + BREAK + s[i + 2..] == s[start..]
  {
    assert s[i..i + 2] == BREAK;
    SplitAt(s, start, i);
    SplitAt(s, i, i + 2);
    JoinAssociates(s[start..i], BREAK, s[i + 2..]);
  }

  // ---- the pieces of a long text ----

  /** The paragraphs that are not blank. */
  function NonBlank(paras: seq<string>): seq<string> {
    if paras == [] then []
    else NonBlank(paras[..|paras| - 1]) + if Strip(paras[|paras| - 1]) != "" then [paras[|paras| - 1]] else []
  }

  /** What a bin of paragraphs becomes: one piece, or the slices of a paragraph that is too long. */
  function BinPieces(b: seq<string>, maxChars: int): seq<string>
    requires maxChars >= 1
  {
    if |JoinWith(BREAK, b)| <= maxChars then [Strip(JoinWith(BREAK, b))] else HardPieces(b[0], maxChars)
  }

  function AllPieces(bins: Bins, maxChars: int): seq<string>
    requires maxChars >= 1
  {
    if bins == [] then [] else AllPieces(bins[..|bins| - 1], maxChars) + BinPieces(bins[|bins| - 1], maxChars)
  }

  /** `_split_long`. */
  function SplitOf(text: string, maxChars: int): seq<string>
    requires maxChars >= 1
  {
    if |text| <= maxChars then [text]
    else AllPieces(BinsOf(NonBlank(Paragraphs(text, 0, 0)), BREAK, maxChars), maxChars)
  }

  lemma {:induction false} AllPiecesAppend(bins: Bins, b: seq<string>, maxChars: int)
    requires maxChars >= 1
    ensures AllPieces(bins + [b], maxChars) == AllPieces(bins, maxChars) + BinPieces(b, maxChars)
  {
    assert (bins + [b])[..|bins|] == bins;
  }

  lemma {:induction false} NonBlankAppend(paras: seq<string>, p: string)
    ensures NonBlank(paras + [p]) == NonBlank(paras) + if Strip(p) != "" then [p] else []
  {
    assert (paras + [p])[..|paras|] == paras;
  }

  lemma {:induction false} NonBlankAre(paras: seq<string>, p: string)
    ensures p in NonBlank(paras) <==> p in paras && Strip(p) != ""
  {
    if paras != [] { NonBlankAre(paras[..|paras| - 1], p); }
  }

  method SplitLong(text: string, maxChars: int) returns (parts: seq<string>)
    requires maxChars >= 1
    ensures parts == SplitOf(text, maxChars)
  {
    if |text| <= maxChars {
      return [text];
    }
    parts := PackParagraphs(Paragraphs(text, 0, 0), maxChars);
  }

  /** The pieces and the buffer are those of the closed bins and the open one. */
  ghost predicate Buffered(parts: seq<string>, buf: string, bs: (Bins, seq<string>), maxChars: int)
    requires maxChars >= 1
  {
    match bs
    case (closed, open) =>
      && parts == AllPieces(closed, maxChars) && buf == JoinWith(BREAK, open)
      && |buf| <= maxChars && (buf == "" <==> open == []) && (open != [] ==> Strip(buf) != "")
  }

  method PackParagraphs(paras: seq<string>, maxChars: int) returns (parts: seq<string>)
    requires maxChars >= 1
    ensures parts == AllPieces(BinsOf(NonBlank(paras), BREAK, maxChars), maxChars)
  {
    parts := [];
    var buf := "";
    ghost var bs: (Bins, seq<string>) := ([], []);
    for i := 0 to |paras|
      invariant bs == FiledAll(NonBlank(paras[..i]), maxChars) && Buffered(parts, buf, bs, maxChars)
    {
      parts, buf, bs := PackOne(parts, buf, paras[i], maxChars, bs);
      FiledNext(paras, i, maxChars);
    }
    WholeSlice(paras);
    AllPiecesAppend(bs.0, bs.1, maxChars);
    if Strip(buf) != "" {
      parts := parts + [Strip(buf)];
    }
  }

  function FiledAll(items: seq<string>, maxChars: int): (Bins, seq<string>) {
    Filing(items, |items|, BREAK, maxChars)
  }

  lemma {:induction false} FilingPrefix(items: seq<string>, i: nat, p: string, maxChars: int)
    requires i <= |items|
    ensures Filing(items + [p], i, BREAK, maxChars) == Filing(items, i, BREAK, maxChars)
  {
    if i > 0 { FilingPrefix(items, i - 1, p, maxChars); }
  }

  lemma {:induction false} FiledNext(paras: seq<string>, i: nat, maxChars: int)
    requires i < |paras|
    ensures FiledAll(NonBlank(paras[..i + 1]), maxChars) ==
      if Strip(paras[i]) == "" then FiledAll(NonBlank(paras[..i]), maxChars)
      else Filed(FiledAll(NonBlank(paras[..i]), maxChars), paras[i], BREAK, maxChars)
  {
    var items := NonBlank(paras[..i]);
    PrefixNext(paras, i + 1);
    NonBlankAppend(paras[..i], paras[i]);
    if Strip(paras[i]) == "" {
      NothingAfter(items);
    } else {
      FilingPrefix(items, |items|, paras[i], maxChars);
    }
  }

  method PackOne(parts: seq<string>, buf: string, para: string, maxChars: int, ghost bs: (Bins, seq<string>))
    returns (parts': seq<string>, buf': string, ghost bs': (Bins, seq<string>))
    requires maxChars >= 1 && Buffered(parts, buf, bs, maxChars)
    ensures Buffered(parts', buf', bs', maxChars)
    ensures bs' == if Strip(para) == "" then bs else Filed(bs, para, BREAK, maxChars)
  {
    parts', buf', bs' := parts, buf, bs;
    if Strip(para) == "" {
      return;
    }
    bs' := Filed(bs, para, BREAK, maxChars);
    if |para| > maxChars {
      SlicedBuffered(parts, buf, para, maxChars, bs);
    } else if buf == "" || |buf| + |para| + 2 > maxChars {
      OpenedBuffered(parts, buf, para, maxChars, bs);
    } else {
      JoinedBuffered(parts, buf, para, maxChars, bs);
    }
    if |buf'| + |para| + 2 > maxChars && buf' != "" {
      parts', buf' := parts' + [Strip(buf')], "";
    }
    if |para| > maxChars {
      if buf' != "" {
        parts', buf' := parts' + [Strip(buf')], "";
      }
      var slices := Slices(para, maxChars);
      parts' := parts' + slices;
    } else {
      buf' := if buf' != "" then buf' + "\n\n" + para else para;
    }
  }

  lemma {:induction false} FlushedBuffered(parts: seq<string>, buf: string, maxChars: int, bs: (Bins, seq<string>))
    requires maxChars >= 1 && Buffered(parts, buf, bs, maxChars)
    ensures AllPieces(Shut(bs), maxChars) == if buf != "" then parts + [Strip(buf)] else parts
  {
    AllPiecesAppend(bs.0, bs.1, maxChars);
  }

  /** A paragraph that is too long is sliced. */
  lemma {:induction false} SlicedBuffered(parts: seq<string>, buf: string, para: string, maxChars: int,
                                          bs: (Bins, seq<string>))
    requires maxChars >= 1 && Buffered(parts, buf, bs, maxChars) && |para| > maxChars
    ensures Buffered((if buf != "" then parts + [Strip(buf)] else parts) + HardPieces(para, maxChars), "",
                     Filed(bs, para, BREAK, maxChars), maxChars)
  {
    FlushedBuffered(parts, buf, maxChars, bs);
    JoinOne(BREAK, para);
    AllPiecesAppend(Shut(bs), [para], maxChars);
  }

  /** A paragraph that does not fit into the buffer starts a new one. */
  lemma {:induction false} OpenedBuffered(parts: seq<string>, buf: string, para: string, maxChars: int,
                                          bs: (Bins, seq<string>))
    requires maxChars >= 1 && Buffered(parts, buf, bs, maxChars) && |para| <= maxChars && Strip(para) != ""
    requires buf == "" || |buf| + |para| + 2 > maxChars
    ensures var flushed := if buf != "" then parts + [Strip(buf)] else parts;
      Buffered(flushed, para, Filed(bs, para, BREAK, maxChars), maxChars)
  {
    FlushedBuffered(parts, buf, maxChars, bs);
    JoinOne(BREAK, para);
    NothingBefore([para]);
    StripErases(para);
    EraseBlank("");
    EraseBlank(para);
  }

  lemma {:induction false} JoinedBuffered(parts: seq<string>, buf: string, para: string, maxChars: int,
                                          bs: (Bins, seq<string>))
    requires maxChars >= 1 && Buffered(parts, buf, bs, maxChars) && Strip(para) != ""
    requires buf != "" && |buf| + |para| + 2 <= maxChars
    ensures Buffered(parts, buf + BREAK + para, Filed(bs, para, BREAK, maxChars), maxChars)
  {
    JoinAppend(BREAK, bs.1, para);
    JoinedNonBlank(buf, para);
  }

  lemma {:induction false} JoinedNonBlank(buf: string, para: string)
    requires Strip(para) != ""
    ensures para != "" && Strip(buf + BREAK + para) != ""
  {
    StripErases(para);
    StripErases(buf + BREAK + para);
    EraseBlank(para);
    EraseBlank(buf + BREAK + para);
    EraseConcat(buf + BREAK, para);
  }

  /** `para[j : j + max_chars]` for every multiple `j` of `max_chars`. */
  method Slices(para: string, maxChars: int) returns (parts: seq<string>)
    requires maxChars >= 1
    ensures parts == HardPieces(para, maxChars)
  {
    parts := [];
    var j := 0;
    while j < |para|
      invariant 0 <= j <= |para| && parts + HardPieces(para[j..], maxChars) == HardPieces(para, maxChars)
    {
      var k := if j + maxChars <= |para| then j + maxChars else |para|;
      SliceNext(para, j, k, maxChars);
      Associate(parts, [para[j..k]], HardPieces(para[k..], maxChars));
      parts := parts + [para[j..k]];
      j := k;
    }
    NothingAfter(parts);
  }

  lemma {:induction false} SliceNext(para: string, j: nat, k: nat, maxChars: int)
    requires maxChars >= 1 && j < |para| && k == if j + maxChars <= |para| then j + maxChars else |para|
    ensures HardPieces(para[j..], maxChars) == [para[j..k]] + HardPieces(para[k..], maxChars)
  {
    HardPiecesNext(para[j..], maxChars, k - j);
    SplitTail(para, j, k);
  }

  // ---- what the pieces keep ----

  lemma {:induction false} NonBlankErase(paras: seq<string>)
    ensures EraseAll(NonBlank(paras)) == EraseAll(paras)
  {
    if paras != [] {
      var front, last := paras[..|paras| - 1], paras[|paras| - 1];
      NonBlankErase(front);
      EraseAllAppend(front, last);
      KeptErase(NonBlank(front), last);
      PrefixNext(paras, |paras|);
      WholeSlice(paras);
    }
  }

  lemma {:induction false} KeptErase(kept: seq<string>, p: string)
    ensures EraseAll(kept + if Strip(p) != "" then [p] else []) == EraseAll(kept) + Erase(p)
  {
    EraseAllAppend(kept, p);
    StripErases(p);
    EraseBlank(p);
    NothingAfter(kept);
    NothingAfter(EraseAll(kept));
  }

  lemma {:induction false} BinKept(b: seq<string>, maxChars: int)
    requires maxChars >= 1 && GoodBin(b, BREAK, maxChars)
    ensures EraseAll(BinPieces(b, maxChars)) == EraseAll(b)
    ensures forall p :: p in BinPieces(b, maxChars) ==> |p| <= maxChars
  {
    if |JoinWith(BREAK, b)| <= maxChars {
      StripErases(JoinWith(BREAK, b));
      assert IsSpace('\n');
      JoinErases(BREAK, b);
      OneErase(Strip(JoinWith(BREAK, b)));
    } else {
      HardPiecesFit(b[0], maxChars);
      OneErase(b[0]);
      assert b == [b[0]];
    }
  }

  lemma {:induction false} BinsKept(bins: Bins, maxChars: int)
    requires maxChars >= 1 && forall b :: b in bins ==> GoodBin(b, BREAK, maxChars)
    ensures EraseAll(AllPieces(bins, maxChars)) == EraseAll(AllOf(bins))
    ensures forall p :: p in AllPieces(bins, maxChars) ==> |p| <= maxChars
  {
    if bins != [] {
      var front, last := bins[..|bins| - 1], bins[|bins| - 1];
      assert last in bins && forall b :: b in front ==> b in bins;
      BinsKept(front, maxChars);
      BinKept(last, maxChars);
      EraseAllConcat(AllPieces(front, maxChars), BinPieces(last, maxChars));
      EraseAllConcat(AllOf(front), last);
    }
  }

  /** The pieces lose only white space and fit. */
  lemma {:induction false} SplitKeeps(text: string, maxChars: int)
    requires maxChars >= 1
    ensures EraseAll(SplitOf(text, maxChars)) == Erase(text)
    ensures forall p :: p in SplitOf(text, maxChars) ==> |p| <= maxChars
  {
    if |text| <= maxChars {
      OneErase(text);
    } else {
      var paras := Paragraphs(text, 0, 0);
      BinsPacked(NonBlank(paras), BREAK, maxChars);
      BinsKept(BinsOf(NonBlank(paras), BREAK, maxChars), maxChars);
      NonBlankErase(paras);
      ParagraphsErase(text, 0, 0);
      assert text[0..] == text;
    }
  }

  /** A text that is too long: its paragraphs, blank ones apart, are put together in order, as many to a piece as fit
      with two line breaks between, and only a paragraph that is too long by itself is sliced. */
  lemma {:induction false} SplitPacked(text: string, maxChars: int)
    requires |text| > maxChars >= 1
    ensures exists bins ::
      Packed(bins, NonBlank(Paragraphs(text, 0, 0)), BREAK, maxChars)
      && SplitOf(text, maxChars) == AllPieces(bins, maxChars)
  {
    BinsPacked(NonBlank(Paragraphs(text, 0, 0)), BREAK, maxChars);
  }

  // ---- chunk_body ----

  function ChunkTexts(cs: seq<Chunk>): seq<string> {
    seq(|cs|, i requires 0 <= i < |cs| => cs[i].text)
  }

  /** What every chunk of a note promises: its identity, its bound, and the heading it is anchored at. */
  ghost predicate GoodChunk(c: Chunk, i: nat, path: string, lines: seq<string>, maxChars: int) {
    && c.notePath == path && c.chunkId == ChunkId(path, i) && c.index == i
    && c.text != "" && Trimmed(c.text) && |c.text| <= maxChars && c.tokens == ApproxTokens(c.text)
    && 1 <= c.startLine <= |lines| && c.heading == HeadingInForce(lines, c.startLine - 1)
  }

  ghost predicate GoodChunks(cs: seq<Chunk>, path: string, lines: seq<string>, maxChars: int) {
    forall i :: 0 <= i < |cs| ==> GoodChunk(cs[i], i, path, lines, maxChars)
  }

  /** The chunks of a body know their own place and carry their own ids. */
  lemma {:induction false} GoodChunksPlaced(n: Note, maxChars: int)
    requires GoodChunks(n.chunks, n.path, Lines(n.body), maxChars)
    ensures Canonical(n) && OwnIds(n)
  {
    forall i | 0 <= i < |n.chunks| ensures n.chunks[i].notePath == n.path && n.chunks[i].index == i
      && n.chunks[i].chunkId == ChunkId(n.path, i) {
      assert GoodChunk(n.chunks[i], i, n.path, Lines(n.body), maxChars);
    }
  }

  // ---- which text belongs to which section ----

  /** The characters of `text` that are not white space, each with the line its section starts at. */
  function Marks(text: string, line: nat): seq<(char, nat)> {
    seq(|Erase(text)|, i requires 0 <= i < |Erase(text)| => (Erase(text)[i], line))
  }

  function Letters(ms: seq<(char, nat)>): string {
    seq(|ms|, i requires 0 <= i < |ms| => ms[i].0)
  }

  function SectionMarks(ss: seq<Section>): seq<(char, nat)> {
    if ss == [] then [] else SectionMarks(ss[..|ss| - 1]) + Marks(ss[|ss| - 1].text, ss[|ss| - 1].startLine)
  }

  function ChunkMarks(cs: seq<Chunk>): seq<(char, nat)> {
    if cs == [] then [] else ChunkMarks(cs[..|cs| - 1]) + Marks(cs[|cs| - 1].text, cs[|cs| - 1].startLine)
  }

  lemma {:induction false} LettersConcat(a: seq<(char, nat)>, b: seq<(char, nat)>)
    ensures Letters(a + b) == Letters(a) + Letters(b)
  {
  }

  lemma {:induction false} MarksLetters(text: string, line: nat)
    ensures Letters(Marks(text, line)) == Erase(text)
  {
  }

  lemma {:induction false} SectionLetters(ss: seq<Section>)
    ensures Letters(SectionMarks(ss)) == EraseAll(SectionTexts(ss))
  {
    if ss != [] {
      var front, last := ss[..|ss| - 1], ss[|ss| - 1];
      SectionLetters(front);
      LettersConcat(SectionMarks(front), Marks(last.text, last.startLine));
      MarksLetters(last.text, last.startLine);
      assert SectionTexts(ss) == SectionTexts(front) + [last.text];
      EraseAllAppend(SectionTexts(front), last.text);
    }
  }

  lemma {:induction false} ChunkLetters(cs: seq<Chunk>)
    ensures Letters(ChunkMarks(cs)) == EraseAll(ChunkTexts(cs))
  {
    if cs != [] {
      var front, last := cs[..|cs| - 1], cs[|cs| - 1];
      ChunkLetters(front);
      LettersConcat(ChunkMarks(front), Marks(last.text, last.startLine));
      MarksLetters(last.text, last.startLine);
      assert ChunkTexts(cs) == ChunkTexts(front) + [last.text];
      EraseAllAppend(ChunkTexts(front), last.text);
    }
  }

  lemma {:induction false} MarksConcat(a: string, b: string, line: nat)
    ensures Marks(a + b, line) == Marks(a, line) + Marks(b, line)
  {
    EraseConcat(a, b);
  }

  // ---- which pieces become chunks ----

  /** Heading, first line and text of each chunk. */
  function Anchors(cs: seq<Chunk>): seq<(string, nat, string)> {
    seq(|cs|, i requires 0 <= i < |cs| => (cs[i].heading, cs[i].startLine, cs[i].text))
  }

  /** The pieces of one section, stripped, blank ones dropped, each with the anchor of the section. */
  function Cuts(s: Section, pieces: seq<string>): seq<(string, nat, string)> {
    if pieces == [] then []
    else
      var text := Strip(pieces[|pieces| - 1]);
      Cuts(s, pieces[..|pieces| - 1]) + if text != "" then [(s.heading, s.startLine, text)] else []
  }

  function SectionCuts(ss: seq<Section>, maxChars: int): seq<(string, nat, string)>
    requires maxChars >= 1
  {
    if ss == [] then []
    else
      var last := ss[|ss| - 1];
      SectionCuts(ss[..|ss| - 1], maxChars) + Cuts(last, SplitOf(last.text, maxChars))
  }

  method ChunkBody(path: string, body: string, maxChars: int) returns (chunks: seq<Chunk>)
    requires maxChars >= 1
    ensures GoodChunks(chunks, path, Lines(body), maxChars)
    ensures EraseAll(ChunkTexts(chunks)) == Erase(body)
    ensures ChunkMarks(chunks) == SectionMarks(SectionsFrom(Lines(body), 0))
    ensures Anchors(chunks) == SectionCuts(SectionsFrom(Lines(body), 0), maxChars)
  {
    ghost var lines := Lines(body);
    var sections := IterSections(body);
    SectionsAnchored(lines, 0);
    chunks := ChunkSections(path, sections, maxChars, lines);
    BodyKept(body, chunks);
  }

  lemma {:induction false} BodyKept(body: string, chunks: seq<Chunk>)
    requires ChunkMarks(chunks) == SectionMarks(SectionsFrom(Lines(body), 0))
    ensures EraseAll(ChunkTexts(chunks)) == Erase(body)
  {
    var lines := Lines(body);
    LinesErase(body);
    SectionsErase(lines, 0);
    assert lines[0..] == lines;
    SectionLetters(SectionsFrom(lines, 0));
    ChunkLetters(chunks);
  }

  /** The chunks made so far are good and hold exactly the marked text `t`. */
  ghost predicate Chunked(cs: seq<Chunk>, path: string, lines: seq<string>, maxChars: int, t: seq<(char, nat)>) {
    GoodChunks(cs, path, lines, maxChars) && ChunkMarks(cs) == t
  }

  method ChunkSections(path: string, sections: seq<Section>, maxChars: int, ghost lines: seq<string>)
    returns (chunks: seq<Chunk>)
    requires maxChars >= 1 && forall s :: s in sections ==> Anchored(s, lines)
    ensures Chunked(chunks, path, lines, maxChars, SectionMarks(sections))
    ensures Anchors(chunks) == SectionCuts(sections, maxChars)
  {
    chunks := [];
    ghost var seen: seq<Section> := [];
    for i := 0 to |sections|
      invariant seen == sections[..i]
      invariant Chunked(chunks, path, lines, maxChars, SectionMarks(seen))
      invariant Anchors(chunks) == SectionCuts(seen, maxChars)
    {
      chunks := ChunkSection(path, sections[i], chunks, maxChars, lines, SectionMarks(seen));
      SectionsAppend(seen, sections[i], maxChars);
      PrefixNext(sections, i + 1);
      seen := seen + [sections[i]];
    }
    WholeSlice(sections);
  }

  lemma {:induction false} SectionsAppend(seen: seq<Section>, s: Section, maxChars: int)
    requires maxChars >= 1
    ensures SectionMarks(seen + [s]) == SectionMarks(seen) + Marks(s.text, s.startLine)
    ensures SectionCuts(seen + [s], maxChars) == SectionCuts(seen, maxChars) + Cuts(s, SplitOf(s.text, maxChars))
  {
    assert (seen + [s])[..|seen|] == seen;
  }

  method ChunkSection(path: string, s: Section, chunks: seq<Chunk>, maxChars: int, ghost lines: seq<string>,
                      ghost t: seq<(char, nat)>)
    returns (chunks': seq<Chunk>)
    requires maxChars >= 1 && Anchored(s, lines) && Chunked(chunks, path, lines, maxChars, t)
    ensures Chunked(chunks', path, lines, maxChars, t + Marks(s.text, s.startLine))
    ensures Anchors(chunks') == Anchors(chunks) + Cuts(s, SplitOf(s.text, maxChars))
  {
    var pieces := SplitLong(s.text, maxChars);
    SplitKeeps(s.text, maxChars);
    chunks' := ChunkPieces(path, s, pieces, chunks, maxChars, lines, t);
    assert Marks(Flat(pieces), s.startLine) == Marks(s.text, s.startLine);
  }

  /** The chunks of one section; the number of chunks so far is the next index. */
  method ChunkPieces(path: string, s: Section, pieces: seq<string>, chunks: seq<Chunk>, maxChars: int,
                     ghost lines: seq<string>, ghost t: seq<(char, nat)>)
    returns (chunks': seq<Chunk>)
    requires Anchored(s, lines) && Chunked(chunks, path, lines, maxChars, t)
    requires forall p :: p in pieces ==> |p| <= maxChars
    ensures Chunked(chunks', path, lines, maxChars, t + Marks(Flat(pieces), s.startLine))
    ensures Anchors(chunks') == Anchors(chunks) + Cuts(s, pieces)
  {
    chunks' := chunks;
    ghost var held := t;
    HoldNone(t, pieces, s.startLine);
    for i := 0 to |pieces|
      invariant held == t + Marks(Flat(pieces[..i]), s.startLine)
      invariant Chunked(chunks', path, lines, maxChars, held)
      invariant Anchors(chunks') == Anchors(chunks) + Cuts(s, pieces[..i])
    {
      CutsNext(s, pieces, i, Anchors(chunks));
      chunks' := ChunkPiece(path, s, pieces[i], chunks', maxChars, lines, held);
      HoldMore(t, pieces, i, s.startLine);
      held := held + Marks(pieces[i], s.startLine);
    }
    assert pieces[..|pieces|] == pieces;
  }

  lemma {:induction false} HoldNone(t: seq<(char, nat)>, pieces: seq<string>, line: nat)
    ensures t + Marks(Flat(pieces[..0]), line) == t
  {
    assert pieces[..0] == [] && Marks("", line) == [];
  }

  lemma {:induction false} HoldMore(t: seq<(char, nat)>, pieces: seq<string>, i: nat, line: nat)
    requires i < |pieces|
    ensures t + Marks(Flat(pieces[..i]), line) + Marks(pieces[i], line) == t + Marks(Flat(pieces[..i + 1]), line)
  {
    var seen := pieces[..i];
    assert pieces[..i + 1] == seen + [pieces[i]];
    FlatAppend(seen, pieces[i]);
    MarksConcat(Flat(seen), pieces[i], line);
    Associate(t, Marks(Flat(seen), line), Marks(pieces[i], line));
  }

  lemma {:induction false} CutsNext(s: Section, pieces: seq<string>, i: nat, before: seq<(string, nat, string)>)
    requires i < |pieces|
    ensures before + Cuts(s, pieces[..i + 1]) == before + Cuts(s, pieces[..i]) +
      if Strip(pieces[i]) != "" then [(s.heading, s.startLine, Strip(pieces[i]))] else []
  {
    assert pieces[..i + 1][..i] == pieces[..i];
  }

  method ChunkPiece(path: string, s: Section, piece: string, chunks: seq<Chunk>, maxChars: int,
                    ghost lines: seq<string>, ghost t: seq<(char, nat)>)
    returns (chunks': seq<Chunk>)
    requires Anchored(s, lines) && Chunked(chunks, path, lines, maxChars, t) && |piece| <= maxChars
    ensures Chunked(chunks', path, lines, maxChars, t + Marks(piece, s.startLine))
    ensures Anchors(chunks') == Anchors(chunks) +
      if Strip(piece) != "" then [(s.heading, s.startLine, Strip(piece))] else []
  {
    var text, idx := Strip(piece), |chunks|;
    StripErases(piece);
    ghost var l, r := StripShape(piece);
    assert Marks(text, s.startLine) == Marks(piece, s.startLine);
    if text == "" {
      assert t + Marks("", s.startLine) == t;
      return chunks;
    }
    var c := Chunk(path, ChunkId(path, idx), idx, s.heading, text, s.startLine, ApproxTokens(text));
    assert (chunks + [c])[..|chunks|] == chunks;
    chunks' := chunks + [c];
  }

  // ---- a paragraph stays in one chunk ----

  lemma {:induction false} PieceOfBin(bins: Bins, b: seq<string>, maxChars: int)
    requires maxChars >= 1 && b in bins && |JoinWith(BREAK, b)| <= maxChars
    ensures Strip(JoinWith(BREAK, b)) in AllPieces(bins, maxChars)
  {
    if b != bins[|bins| - 1] { PieceOfBin(bins[..|bins| - 1], b, maxChars); }
  }

  lemma {:induction false} StrippedWithin(s: string, p: string)
    requires Contains(s, p) && Strip(p) != ""
    ensures Contains(Strip(s), Strip(p)) && Strip(s) != ""
  {
    var l, r := StripShape(p);
    ContainsStrip(p);
    ContainsThrough(s, p, Strip(p));
    StripContains(s, Strip(p));
  }

  /** A paragraph that fits is never cut: it lies whole, but for white space around it, in one piece. */
  lemma {:induction false} ParagraphWhole(text: string, maxChars: int, p: string) returns (piece: string)
    requires maxChars >= 1 && p in Paragraphs(text, 0, 0) && Strip(p) != "" && |p| <= maxChars
    ensures piece in SplitOf(text, maxChars) && Contains(Strip(piece), Strip(p)) && Strip(piece) != ""
  {
    if |text| <= maxChars {
      piece := text;
      ParagraphsJoin(text, 0, 0);
      JoinContains(BREAK, Paragraphs(text, 0, 0), p);
      assert text[0..] == text;
      StrippedWithin(text, p);
    } else {
      piece := ParagraphInPiece(text, maxChars, p);
    }
  }

  lemma {:induction false} ParagraphInPiece(text: string, maxChars: int, p: string) returns (piece: string)
    requires |text| > maxChars >= 1 && p in Paragraphs(text, 0, 0) && Strip(p) != "" && |p| <= maxChars
    ensures piece in SplitOf(text, maxChars) && Contains(Strip(piece), Strip(p)) && Strip(piece) != ""
  {
    var items := NonBlank(Paragraphs(text, 0, 0));
    var bins := BinsOf(items, BREAK, maxChars);
    BinsPacked(items, BREAK, maxChars);
    NonBlankAre(Paragraphs(text, 0, 0), p);
    var b := BinOf(bins, p);
    OneFits(b, p, maxChars);
    PieceOfBin(bins, b, maxChars);
    JoinContains(BREAK, b, p);
    StrippedWithin(JoinWith(BREAK, b), p);
    piece := Strip(JoinWith(BREAK, b));
    var l, r := StripShape(JoinWith(BREAK, b));
    StripTrimmed(piece);
  }

  lemma {:induction false} OneFits(b: seq<string>, p: string, maxChars: int)
    requires GoodBin(b, BREAK, maxChars) && p in b && |p| <= maxChars
    ensures |JoinWith(BREAK, b)| <= maxChars
  {
    if |b| == 1 { assert b[0] == p; }
  }

  lemma {:induction false} CutOf(s: Section, pieces: seq<string>, piece: string)
    requires piece in pieces && Strip(piece) != ""
    ensures (s.heading, s.startLine, Strip(piece)) in Cuts(s, pieces)
  {
    if piece != pieces[|pieces| - 1] { CutOf(s, pieces[..|pieces| - 1], piece); }
  }

  lemma {:induction false} SectionCut(ss: seq<Section>, s: Section, maxChars: int, c: (string, nat, string))
    requires maxChars >= 1 && s in ss && c in Cuts(s, SplitOf(s.text, maxChars))
    ensures c in SectionCuts(ss, maxChars)
  {
    if s != ss[|ss| - 1] { SectionCut(ss[..|ss| - 1], s, maxChars, c); }
  }

  /** So in the chunks of a note: a paragraph that fits lies whole in a chunk that carries the anchor of its section. */
  lemma {:induction false} ParagraphInChunk(chunks: seq<Chunk>, body: string, maxChars: int, s: Section, p: string)
    requires maxChars >= 1 && Anchors(chunks) == SectionCuts(SectionsFrom(Lines(body), 0), maxChars)
    requires s in SectionsFrom(Lines(body), 0) && p in Paragraphs(s.text, 0, 0) && Strip(p) != "" && |p| <= maxChars
    ensures exists c ::
      c in chunks && c.heading == s.heading && c.startLine == s.startLine && Contains(c.text, Strip(p))
  {
    var piece := ParagraphWhole(s.text, maxChars, p);
    var cut := (s.heading, s.startLine, Strip(piece));
    CutOf(s, SplitOf(s.text, maxChars), piece);
    SectionCut(SectionsFrom(Lines(body), 0), s, maxChars, cut);
    var i :| 0 <= i < |chunks| && Anchors(chunks)[i] == cut;
    assert chunks[i] in chunks;
  }
}
