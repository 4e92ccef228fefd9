/**
 What a block scalar says, in the terms of the lines that are written: folded and literal style, every way
 to end, with the indentation written in the header or taken from the first line.
 */
module BlockReadings {
  import opened Options
  import opened Digest
  import opened Paths
  import opened Scalars
  import opened Frontmatter
  import opened FrontmatterFacts

  // ---------------------------------------------------------------- headers

  function ChompText(chomp: Chomp): string {
    match chomp
    case Strip => "-"
    case Clip => ""
    case Keep => "+"
  }

  function IndentText(indent: Option<nat>): string
    requires indent.Some? ==> 1 <= indent.value <= 9
  {
    if indent.Some? then [(indent.value + 48) as char] else ""
  }

  /** A header: the style, then the indentation and the chomping indicator, in either order. */
  function HeaderText(h: Header, digitFirst: bool): string
    requires h.indent.Some? ==> 1 <= h.indent.value <= 9
  {
    (if h.folded then ">" else "|") +
    if digitFirst then IndentText(h.indent) + ChompText(h.chomp) else ChompText(h.chomp) + IndentText(h.indent)
  }

  /** Exactly these texts are headers. */
  lemma HeaderIff(raw: string, h: Header)
    ensures ParseHeader(raw) == Some(h) <==>
      && (h.indent.Some? ==> 1 <= h.indent.value <= 9)
      && (raw == HeaderText(h, true) || raw == HeaderText(h, false))
  {
    if ParseHeader(raw) == Some(h) {
      HeaderIsText(raw, h);
    }
    if h.indent.Some? ==> 1 <= h.indent.value <= 9 {
      if raw == HeaderText(h, true) { TextIsHeader(h, true); }
      if raw == HeaderText(h, false) { TextIsHeader(h, false); }
    }
  }

  /** What one indicator adds to a header. */
  function Indicated(c: char, h: Header): Option<Header> {
    if c == '-' && h.chomp.Clip? then Some(h.(chomp := Strip))
    else if c == '+' && h.chomp.Clip? then Some(h.(chomp := Keep))
    else if '1' <= c <= '9' && h.indent.None? then Some(h.(indent := Some(c as int - 48)))
    else None
  }

  lemma IndicatorsStep(s: string, h: Header)
    requires s != ""
    ensures Indicators(s, h) == match Indicated(s[0], h) case None => None case Some(g) => Indicators(s[1..], g)
  {
  }

  lemma IndicatorsEnd(h: Header)
    ensures Indicators("", h) == Some(h)
  {
  }

  /** At most two indicators are read, one of each kind. */
  lemma IndicatorsRead(s: string, h: Header)
    ensures Indicators(s, h) ==
      if s == "" then Some(h)
      else if |s| == 1 then Indicated(s[0], h)
      else if |s| == 2 then (match Indicated(s[0], h) case None => None case Some(g) => Indicated(s[1], g))
      else (match Indicated(s[0], h) case None => None case Some(g) =>
            match Indicated(s[1], g) case None => None case Some(f) => Indicators(s[2..], f))
  {
    hide Indicators, Indicated;
    if s == "" {
      IndicatorsEnd(h);
    } else {
      IndicatorsStep(s, h);
      var t := s[1..];
      if Indicated(s[0], h).Some? {
        var g := Indicated(s[0], h).value;
        if t == "" {
          IndicatorsEnd(g);
        } else {
          IndicatorsStep(t, g);
          assert t[0] == s[1] && t[1..] == s[2..];
          if |s| == 2 && Indicated(s[1], g).Some? {
            assert s[2..] == "";
            IndicatorsEnd(Indicated(s[1], g).value);
          }
        }
      }
    }
  }

  lemma ThirdIndicatorFails(h: Header, s: string)
    requires h.chomp.Clip? && h.indent.None? && |s| >= 3
    ensures Indicators(s, h).None?
  {
    hide Indicators;
    IndicatorsRead(s, h);
    if Indicated(s[0], h).Some? && Indicated(s[1], Indicated(s[0], h).value).Some? {
      var f := Indicated(s[1], Indicated(s[0], h).value).value;
      assert !f.chomp.Clip? && f.indent.Some?;
      IndicatorsStep(s[2..], f);
    }
  }

  lemma TextIsHeader(h: Header, digitFirst: bool)
    requires h.indent.Some? ==> 1 <= h.indent.value <= 9
    ensures ParseHeader(HeaderText(h, digitFirst)) == Some(h)
  {
    hide Indicators;
    var raw := HeaderText(h, digitFirst);
    var s := raw[1..];
    assert raw[0] == if h.folded then '>' else '|';
    assert s == if digitFirst then IndentText(h.indent) + ChompText(h.chomp) else ChompText(h.chomp) + IndentText(h.indent);
    IndicatorsRead(s, Header(h.folded, Clip, None));
  }

  lemma HeaderIsText(raw: string, h: Header)
    requires ParseHeader(raw) == Some(h)
    ensures h.indent.Some? ==> 1 <= h.indent.value <= 9
    ensures raw == HeaderText(h, true) || raw == HeaderText(h, false)
  {
    hide Indicators;
    var s := raw[1..];
    var plain := Header(raw[0] == '>', Clip, None);
    assert raw == [raw[0]] + s;
    IndicatorsRead(s, plain);
    if |s| >= 3 { ThirdIndicatorFails(plain, s); }
    if |s| == 1 {
      assert s == [s[0]];
    } else if |s| == 2 {
      assert s == [s[0]] + [s[1]];
    }
  }

  // ---------------------------------------------------------------- lines as they are written

  /** A line of the block: nothing for an empty one, otherwise the indentation and the text. */
  function Written(text: string, n: nat): string {
    if text == "" then "" else Spaces(n) + text
  }

  function WrittenAll(texts: Lines, n: nat): (r: Lines)
    ensures |r| == |texts|
  {
    seq(|texts|, i requires 0 <= i < |texts| => Written(texts[i], n))
  }

  predicate StartsDeeper(text: string) {
    text != "" && text[0] == ' '
  }

  /** What the scanner notes about a line. */
  function Noted(text: string): BlockLine {
    BlockLine(text, Trim(text) == "", StartsDeeper(text))
  }

  function NotedAll(texts: Lines): (r: seq<BlockLine>)
    ensures |r| == |texts|
  {
    seq(|texts|, i requires 0 <= i < |texts| => Noted(texts[i]))
  }

  /** The first line with text shows the indentation. */
  ghost predicate ShowsIndent(texts: Lines) {
    forall i :: 0 <= i < |texts| && texts[i] != "" && (forall j :: 0 <= j < i ==> texts[j] == "") ==> texts[i][0] != ' '
  }

  lemma {:induction false} IndentOfWritten(n: nat, text: string)
    requires text != ""
    ensures Indent(Spaces(n) + text) >= n
    ensures Indent(Spaces(n) + text) > n <==> text[0] == ' '
  {
    if n > 0 {
      assert (Spaces(n) + text)[1..] == Spaces(n - 1) + text;
      IndentOfWritten(n - 1, text);
    } else {
      assert Spaces(0) + text == text;
    }
  }

  lemma LineIsNoted(n: nat, text: string)
    requires text != ""
    ensures BlockLineOf(Spaces(n) + text, n) == Noted(text)
  {
    hide Trim;
    IndentOfWritten(n, text);
    assert (Spaces(n) + text)[n..] == text;
  }

  lemma NothingIsNoted()
    ensures EMPTY_LINE == Noted("")
  {
  }

  /** The block ends here: at the end of the lines, a fence, a line that is not set in, or one set in less. */
  predicate EndsAt(rest: Lines, n: nat) {
    EndsBlock(rest) || (rest[0] != "" && rest[0][0] != '\t' && 0 < Indent(rest[0]) < n)
  }

  predicate TabNext(rest: Lines) {
    rest != [] && rest[0] != "" && rest[0][0] == '\t'
  }

  lemma ScanStops(lines: Lines, index: nat, base: Option<nat>, out: seq<BlockLine>, a: Account, n: nat)
    requires index <= |lines| && EndsAt(lines[index..], n) && (base == Some(n) || EndsBlock(lines[index..]))
    ensures ScanBlock(lines, index, base, out, a) == Some(Scan(out, index, a))
  {
    if index < |lines| { assert lines[index..][0] == lines[index]; }
  }

  lemma ScanFailsAtTab(lines: Lines, index: nat, base: Option<nat>, out: seq<BlockLine>, a: Account)
    requires index <= |lines| && TabNext(lines[index..])
    ensures ScanBlock(lines, index, base, out, a) == None
  {
    assert lines[index..][0] == lines[index];
    assert FENCE[0] == '-';
  }

  lemma ScanLine(lines: Lines, index: nat, base: Option<nat>, out: seq<BlockLine>, a: Account, n: nat, text: string)
    requires index < |lines| && lines[index] == Written(text, n) && 1 <= n
    requires text != "" ==> base == Some(n) || (base.None? && text[0] != ' ')
    ensures ScanBlock(lines, index, base, out, a) ==
      match Charge(a, Written(text, n), 1)
      case None => None
      case Some(b) => ScanBlock(lines, index + 1, if text == "" then base else Some(n), out + [Noted(text)], b)
  {
    hide Charge, Trim;
    if text == "" {
      NothingIsNoted();
    } else {
      LineIsNoted(n, text);
      IndentOfWritten(n, text);
      assert lines[index][0] == ' ';
    }
  }

  /** The indentation that is known behind the first `i` lines. */
  function ColumnAfter(base: Option<nat>, texts: Lines, i: nat, n: nat): Option<nat>
    requires i <= |texts|
  {
    if base.Some? || (exists j :: 0 <= j < i && texts[j] != "") then Some(n) else None
  }

  /** Reading the written lines leads behind them exactly when they fit the limits. */
  lemma {:induction false} ScanReads(pre: Lines, texts: Lines, n: nat, rest: Lines, i: nat, base: Option<nat>, a: Account)
    requires 1 <= n && i <= |texts| && (base == Some(n) || (base.None? && ShowsIndent(texts)))
    ensures
      var body := WrittenAll(texts, n);
      var lines := pre + body + rest;
      ScanBlock(lines, |pre| + i, ColumnAfter(base, texts, i, n), NotedAll(texts[..i]), Plus(a, body[..i])) ==
        if i == |texts| || WithinLimits(Plus(a, body))
        then ScanBlock(lines, |pre| + |texts|, ColumnAfter(base, texts, |texts|, n), NotedAll(texts), Plus(a, body))
        else None
    decreases |texts| - i
  {
    hide Utf8, Cost, ScanBlock, Noted;
    var body := WrittenAll(texts, n);
    var lines := pre + body + rest;
    if i == |texts| {
      assert body[..i] == body && texts[..i] == texts;
    } else {
      assert lines[|pre| + i] == body[i] == Written(texts[i], n);
      CostGrows(a, body, i);
      assert NotedAll(texts[..i + 1]) == NotedAll(texts[..i]) + [Noted(texts[i])];
      if i + 1 == |texts| { assert body[..i + 1] == body; }
      var column := ColumnAfter(base, texts, i, n);
      ScanLine(lines, |pre| + i, column, NotedAll(texts[..i]), Plus(a, body[..i]), n, texts[i]);
      assert ColumnAfter(base, texts, i + 1, n) == if texts[i] == "" then column else Some(n);
      ScanReads(pre, texts, n, rest, i + 1, base, a);
    }
  }

  // ---------------------------------------------------------------- joining lines

  lemma AssembledStep(folded: bool, out: seq<BlockLine>)
    requires out != []
    ensures
      var n := |out| - 1;
      Assembled(folded, out) ==
        if n == 0 then out[0].value else Assembled(folded, out[..n]) + Glue(folded, out[n - 1], out[n]) + out[n].value
  {
    if |out| == 1 { assert out[..0] == [] && Assembled(folded, out[..0]) == ""; }
  }

  lemma Regroup(x: string, g: string, y: string, h: string, v: string)
    ensures (x + g + y) + h + v == x + g + (y + h + v)
  {
  }

  lemma {:induction false} AssembledConcat(folded: bool, xs: seq<BlockLine>, ys: seq<BlockLine>)
    requires xs != [] && ys != []
    ensures Assembled(folded, xs + ys) ==
      Assembled(folded, xs) + Glue(folded, xs[|xs| - 1], ys[0]) + Assembled(folded, ys)
  {
    hide Glue, Assembled;
    var n := |ys| - 1;
    var all := xs + ys;
    AssembledStep(folded, all);
    AssembledStep(folded, ys);
    if n == 0 {
      assert all[..|all| - 1] == xs;
    } else {
      assert all[..|all| - 1] == xs + ys[..n];
      AssembledConcat(folded, xs, ys[..n]);
      Regroup(Assembled(folded, xs), Glue(folded, xs[|xs| - 1], ys[0]), Assembled(folded, ys[..n]),
              Glue(folded, ys[n - 1], ys[n]), ys[n].value);
    }
  }

  lemma NotedConcat(x: Lines, y: Lines)
    ensures NotedAll(x + y) == NotedAll(x) + NotedAll(y)
  {
    hide Noted;
  }

  /** Joined is joining at the end. */
  lemma {:induction false} JoinEnd(x: Lines, y: string, sep: char)
    requires x != []
    ensures Join(x + [y], sep) == Join(x, sep) + [sep] + y
  {
    var all := x + [y];
    if |x| == 1 {
      assert all[1..] == [y] && all[0] == x[0];
    } else {
      JoinEnd(x[1..], y, sep);
      assert all[1..] == x[1..] + [y] && all[0] == x[0];
    }
  }

  /** Lines between which always the same text stands. */
  lemma {:induction false} AssembledEvenly(folded: bool, texts: Lines, sep: char)
    requires texts != []
    requires forall i :: 0 < i < |texts| ==> Glue(folded, Noted(texts[i - 1]), Noted(texts[i])) == [sep]
    ensures Assembled(folded, NotedAll(texts)) == Join(texts, sep)
  {
    hide Glue, Trim;
    var n := |texts| - 1;
    var all, front := NotedAll(texts), texts[..n];
    assert all[..n] == NotedAll(front);
    if n > 0 {
      AssembledEvenly(folded, front, sep);
      JoinEnd(front, texts[n], sep);
      assert texts == front + [texts[n]];
    } else {
      assert Assembled(folded, all[..0]) == "";
    }
  }

  // ---------------------------------------------------------------- folded text

  /** Lines at the block's indentation, which flow together, or deeper lines, which stand as they are. */
  datatype Run = Flow(lines: Lines) | Deep(lines: Lines)

  /** Blank lines, then a run. */
  datatype Part = Part(gap: Lines, run: Run)

  ghost predicate GoodRun(r: Run) {
    && r.lines != []
    && forall l :: l in r.lines ==> Trim(l) != "" && '\n' !in l && (StartsDeeper(l) <==> r.Deep?)
  }

  ghost predicate GoodGap(gap: Lines) {
    forall l :: l in gap ==> Trim(l) == ""
  }

  /** Runs that flow are set apart by at least one blank line. */
  ghost predicate GoodParts(parts: seq<Part>) {
    && (forall i :: 0 <= i < |parts| ==> GoodRun(parts[i].run) && GoodGap(parts[i].gap))
    && (forall i :: 0 < i < |parts| && parts[i - 1].run.Flow? && parts[i].run.Flow? ==> parts[i].gap != [])
  }

  function LinesOf(parts: seq<Part>): Lines {
    if parts == [] then []
    else
      var n := |parts| - 1;
      LinesOf(parts[..n]) + parts[n].gap + parts[n].run.lines
  }

  /** Flowing lines are joined by single spaces; deeper ones keep their line breaks. */
  function RunText(r: Run): string {
    Join(r.lines, if r.Flow? then ' ' else '\n')
  }

  /** Each blank line is a line break; without one, a single break stands beside a deeper line. */
  function GapText(gap: Lines, first: bool): string {
    if first then Join(gap, '\n') else if gap == [] then "\n" else "\n" + Join(gap, '\n')
  }

  function FoldedText(parts: seq<Part>): string {
    if parts == [] then ""
    else
      var n := |parts| - 1;
      FoldedText(parts[..n]) + GapText(parts[n].gap, n == 0) + RunText(parts[n].run)
  }

  /** `k` empty lines between two runs are `k` line breaks. */
  lemma {:induction false} EmptyGapText(k: nat)
    ensures GapText(Empties(k), false) == Newlines(if k == 0 then 1 else k)
  {
    if k > 0 {
      JoinOfEmpty(k);
      assert "\n" + Newlines(k - 1) == Newlines(k);
    }
  }

  lemma {:induction false} JoinOfEmpty(k: nat)
    requires k > 0
    ensures Join(Empties(k), '\n') == Newlines(k - 1)
  {
    if k > 1 {
      JoinOfEmpty(k - 1);
      assert Empties(k)[1..] == Empties(k - 1);
      assert "" + ['\n'] + Newlines(k - 2) == Newlines(k - 1);
    }
  }

  lemma RunAssembles(r: Run)
    requires GoodRun(r)
    ensures Assembled(true, NotedAll(r.lines)) == RunText(r)
  {
    hide Trim;
    var sep := if r.Flow? then ' ' else '\n';
    forall i | 0 < i < |r.lines|
      ensures Glue(true, Noted(r.lines[i - 1]), Noted(r.lines[i])) == [sep]
    {
      assert r.lines[i - 1] in r.lines && r.lines[i] in r.lines;
    }
    AssembledEvenly(true, r.lines, sep);
  }

  lemma GapAssembles(gap: Lines)
    requires GoodGap(gap) && gap != []
    ensures Assembled(true, NotedAll(gap)) == Join(gap, '\n')
  {
    hide Trim;
    forall i | 0 < i < |gap|
      ensures Glue(true, Noted(gap[i - 1]), Noted(gap[i])) == ['\n']
    {
      assert gap[i - 1] in gap && gap[i] in gap;
    }
    AssembledEvenly(true, gap, '\n');
  }

  /** A gap and a run, the gap swallowing the break before the run. */
  lemma PartAssembles(p: Part)
    requires GoodRun(p.run) && GoodGap(p.gap)
    ensures Assembled(true, NotedAll(p.gap + p.run.lines)) == GapText(p.gap, true) + RunText(p.run)
  {
    hide Trim, Assembled;
    RunAssembles(p.run);
    if p.gap == [] {
      assert p.gap + p.run.lines == p.run.lines && Join(p.gap, '\n') == "";
    } else {
      GapAssembles(p.gap);
      NotedConcat(p.gap, p.run.lines);
      AssembledConcat(true, NotedAll(p.gap), NotedAll(p.run.lines));
      assert p.gap[|p.gap| - 1] in p.gap && p.run.lines[0] in p.run.lines;
    }
  }

  lemma LastLine(parts: seq<Part>)
    requires GoodParts(parts) && parts != []
    ensures LinesOf(parts) != [] && LinesOf(parts)[|LinesOf(parts)| - 1] in parts[|parts| - 1].run.lines
  {
    var r := parts[|parts| - 1].run;
    assert GoodRun(r);
    assert LinesOf(parts)[|LinesOf(parts)| - 1] == r.lines[|r.lines| - 1];
  }

  /** Folding gives the text of the runs and gaps. */
  lemma {:induction false} FoldedAssembles(parts: seq<Part>)
    requires GoodParts(parts)
    ensures Assembled(true, NotedAll(LinesOf(parts))) == FoldedText(parts)
  {
    hide Trim, Assembled, RunText, Glue, GapText, Noted, GoodRun, GoodGap, FoldedText, Join;
    FoldedStep(parts);
    if parts == [] {
      NothingAssembled();
    } else {
      var n := |parts| - 1;
      var front, p := parts[..n], parts[n];
      FoldedAssembles(front);
      PartAssembles(p);
      var x, y := LinesOf(front), p.gap + p.run.lines;
      assert LinesOf(parts) == x + y;
      RunHasLines(p.run);
      if n == 0 {
        assert x + y == y;
      } else {
        LastLine(front);
        NotedConcat(x, y);
        AssembledConcat(true, NotedAll(x), NotedAll(y));
        BreakBetween(x[|x| - 1], y[0], parts[n - 1].run, p);
        Rebracket(FoldedText(front), GapText(p.gap, true), RunText(p.run));
      }
    }
  }

  lemma FoldedStep(parts: seq<Part>)
    ensures parts == [] ==> FoldedText(parts) == ""
    ensures |parts| == 1 ==> FoldedText(parts) == GapText(parts[0].gap, true) + RunText(parts[0].run)
    ensures |parts| > 1 ==>
      var n := |parts| - 1;
      FoldedText(parts) == FoldedText(parts[..n]) + GapText(parts[n].gap, false) + RunText(parts[n].run)
  {
    if |parts| == 1 { assert parts[..0] == [] && FoldedText(parts[..0]) == ""; }
  }

  lemma Rebracket(x: string, g: string, r: string)
    ensures x + "\n" + (g + r) == x + ("\n" + g) + r
  {
  }

  lemma RunHasLines(r: Run)
    requires GoodRun(r)
    ensures r.lines != []
  {
  }

  lemma NothingAssembled()
    ensures Assembled(true, NotedAll([])) == ""
  {
  }

  lemma BreakBetween(last: string, first: string, before: Run, p: Part)
    requires GoodRun(before) && last in before.lines && GoodRun(p.run) && GoodGap(p.gap)
    requires first == if p.gap == [] then p.run.lines[0] else p.gap[0]
    requires before.Flow? && p.run.Flow? ==> p.gap != []
    ensures Glue(true, Noted(last), Noted(first)) == "\n"
    ensures GapText(p.gap, false) == "\n" + GapText(p.gap, true)
  {
    hide Trim;
    if p.gap == [] {
      assert first in p.run.lines;
    } else {
      assert first in p.gap;
    }
  }

  /** Any lines are runs with blank lines between and behind them. */
  lemma {:induction false} Arranged(texts: Lines) returns (parts: seq<Part>, gap: Lines)
    requires forall l :: l in texts ==> '\n' !in l
    ensures GoodParts(parts) && GoodGap(gap) && texts == LinesOf(parts) + gap
  {
    hide Trim, GoodParts, LinesOf, StartsDeeper;
    if texts == [] {
      parts, gap := [], [];
      NoParts();
    } else {
      var n := |texts| - 1;
      var front, l := texts[..n], texts[n];
      assert texts == front + [l] && l in texts;
      parts, gap := Arranged(front);
      if Trim(l) == "" {
        assert front + [l] == LinesOf(parts) + (gap + [l]);
        gap := gap + [l];
      } else if gap == [] && parts != [] && parts[|parts| - 1].run.Deep? == StartsDeeper(l) {
        assert front == LinesOf(parts);
        parts := Longer(parts, l);
        assert LinesOf(parts) + [] == LinesOf(parts);
      } else {
        parts := OneMore(parts, gap, l);
        gap := [];
        assert LinesOf(parts) + [] == LinesOf(parts);
      }
    }
  }

  lemma NoParts()
    ensures GoodParts([]) && LinesOf([]) == []
  {
  }

  /** A line that starts a new run. */
  lemma OneMore(parts: seq<Part>, gap: Lines, l: string) returns (r: seq<Part>)
    requires GoodParts(parts) && GoodGap(gap) && Trim(l) != "" && '\n' !in l
    requires gap == [] && parts != [] ==> parts[|parts| - 1].run.Deep? != StartsDeeper(l)
    ensures GoodParts(r) && LinesOf(r) == LinesOf(parts) + gap + [l]
  {
    hide Trim;
    var p := Part(gap, if StartsDeeper(l) then Deep([l]) else Flow([l]));
    r := parts + [p];
    assert r[..|parts|] == parts;
    assert GoodRun(p.run);
    assert forall i :: 0 <= i < |parts| ==> r[i] == parts[i];
  }

  /** The last run is longer by one line of its kind. */
  lemma Longer(parts: seq<Part>, l: string) returns (r: seq<Part>)
    requires GoodParts(parts) && parts != [] && Trim(l) != "" && '\n' !in l
    requires parts[|parts| - 1].run.Deep? == StartsDeeper(l)
    ensures GoodParts(r) && LinesOf(r) == LinesOf(parts) + [l]
  {
    hide Trim;
    var n := |parts| - 1;
    var p := parts[n];
    assert GoodRun(p.run);
    var q := p.(run := if p.run.Flow? then Flow(p.run.lines + [l]) else Deep(p.run.lines + [l]));
    r := parts[..n] + [q];
    assert r[..n] == parts[..n];
    assert GoodRun(q.run);
    assert forall i :: 0 <= i < n ==> r[i] == parts[i];
    assert LinesOf(parts[..n]) + p.gap + (p.run.lines + [l]) == (LinesOf(parts[..n]) + p.gap + p.run.lines) + [l];
  }

  // ---------------------------------------------------------------- endings

  function Newlines(k: nat): (s: string)
    ensures |s| == k && forall i :: 0 <= i < k ==> s[i] == '\n'
  {
    seq(k, i => '\n')
  }

  /** The text and its end: no line break, exactly one, or all of them. */
  function Ended(chomp: Chomp, text: string, breaks: nat): string {
    match chomp
    case Strip => text
    case Clip => if text == "" then "" else text + "\n"
    case Keep => text + Newlines(breaks)
  }

  lemma {:induction false} DropAll(text: string, k: nat)
    requires text == "" || text[|text| - 1] != '\n'
    ensures DropNewlines(text + Newlines(k)) == text
  {
    var s := text + Newlines(k);
    if k == 0 {
      assert s == text;
    } else {
      assert s[..|s| - 1] == text + Newlines(k - 1);
      DropAll(text, k - 1);
    }
  }

  lemma ChompedIsEnded(chomp: Chomp, text: string, k: nat)
    requires text == "" || text[|text| - 1] != '\n'
    ensures Chomped(chomp, text + Newlines(k)) == Ended(chomp, text, k)
  {
    DropAll(text, k);
  }

  function Empties(k: nat): (r: Lines)
    ensures |r| == k && forall i :: 0 <= i < k ==> r[i] == ""
  {
    seq(k, i => "")
  }

  /** Empty lines at the end add a break each. */
  lemma {:induction false} TailAssembles(folded: bool, texts: Lines, k: nat)
    requires texts != []
    ensures Assembled(folded, NotedAll(texts + Empties(k))) == Assembled(folded, NotedAll(texts)) + Newlines(k)
  {
    hide Noted, Assembled, Glue;
    if k == 0 {
      assert texts + Empties(0) == texts;
    } else {
      TailAssembles(folded, texts, k - 1);
      var x := texts + Empties(k - 1);
      assert texts + Empties(k) == x + [""];
      NotedConcat(x, [""]);
      AssembledConcat(folded, NotedAll(x), NotedAll([""]));
      EmptyAssembles(folded, x[|x| - 1]);
      assert Newlines(k) == Newlines(k - 1) + "\n";
      Regroup(Assembled(folded, NotedAll(texts)), Newlines(k - 1), "", "\n", "");
    }
  }

  lemma EmptyAssembles(folded: bool, last: string)
    ensures Glue(folded, Noted(last), Noted("")) == "\n" && Assembled(folded, NotedAll([""])) == ""
  {
    var one := NotedAll([""]);
    assert one == [Noted("")] && one[..0] == [] && Assembled(folded, one[..0]) == "";
  }

  lemma {:induction false} OnlyEmpties(folded: bool, k: nat)
    requires k > 0
    ensures Assembled(folded, NotedAll(Empties(k))) == Newlines(k - 1)
  {
    hide Assembled, Glue, Noted;
    EmptyAssembles(folded, "");
    TailAssembles(folded, [""], k - 1);
    assert [""] + Empties(k - 1) == Empties(k);
    assert "" + Newlines(k - 1) == Newlines(k - 1);
  }

  /** A block of lines and empty lines behind them, whose joined text does not end in a break. */
  lemma ValueIsEnded(h: Header, texts: Lines, k: nat, text: string)
    requires texts == [] ==> text == ""
    requires texts != [] ==> text == Assembled(h.folded, NotedAll(texts)) && text != "" && text[|text| - 1] != '\n'
    ensures BlockValue(h, NotedAll(texts + Empties(k))) == Ended(h.chomp, text, if texts == [] then k else k + 1)
  {
    hide Noted, Chomped, Assembled;
    var all := texts + Empties(k);
    if texts == [] {
      assert all == Empties(k);
      if k > 0 {
        OnlyEmpties(h.folded, k);
        assert Newlines(k - 1) + "\n" == Newlines(k) == "" + Newlines(k);
      } else {
        NothingToAssemble(h.folded, NotedAll(all));
        assert "" + Newlines(0) == "";
      }
      ChompedIsEnded(h.chomp, "", k);
    } else {
      TailAssembles(h.folded, texts, k);
      assert text + Newlines(k) + "\n" == text + Newlines(k + 1);
      ChompedIsEnded(h.chomp, text, k + 1);
    }
  }

  lemma NothingToAssemble(folded: bool, out: seq<BlockLine>)
    requires out == []
    ensures Assembled(folded, out) == ""
  {
  }

  // ---------------------------------------------------------------- whole blocks

  /** The indentation is written in the header, or shown by the first line with text. */
  ghost predicate GoodHeader(h: Header, n: nat, texts: Lines) {
    1 <= n && (h.indent == Some(n) || (h.indent.None? && ShowsIndent(texts)))
  }

  /** A block that is read: its value, and all its lines counted, unless a limit is passed. */
  function BlockOrLimit(value: string, next: nat, body: Lines, max: nat, a: Account): Option<Block> {
    if (body == [] || WithinLimits(Plus(a, body))) && |value| <= max then Some(Block(value, next, Plus(a, body))) else None
  }

  /** What stands behind the block ends it; a line that is set in less does so once the indentation is known. */
  ghost predicate GoodEnd(h: Header, n: nat, texts: Lines, rest: Lines) {
    EndsBlock(rest) || (EndsAt(rest, n) && (h.indent.Some? || exists j :: 0 <= j < |texts| && texts[j] != ""))
  }

  /** A tab at the start of the next line is refused. */
  lemma TabIsRefused(pre: Lines, opening: string, raw: string, h: Header, texts: Lines, n: nat, rest: Lines, max: nat, a: Account)
    requires ParseHeader(raw) == Some(h) && GoodHeader(h, n, texts) && TabNext(rest)
    ensures ParseBlock(pre + [opening] + WrittenAll(texts, n) + rest, |pre|, raw, max, a) == None
  {
    hide Utf8, Cost, Trim, ScanBlock, BlockValue, WithinLimits, ParseHeader, ShowsIndent, TabNext;
    var body := WrittenAll(texts, n);
    var head := pre + [opening];
    var lines := head + body + rest;
    NothingAdded(a, body);
    assert texts[..0] == [] && NotedAll(texts[..0]) == [] && body[..0] == [];
    ScanReads(head, texts, n, rest, 0, h.indent, a);
    assert lines[|head| + |texts|..] == rest;
    ScanFailsAtTab(lines, |head| + |texts|, ColumnAfter(h.indent, texts, |texts|, n), NotedAll(texts), Plus(a, body));
  }

  lemma BlockReads(pre: Lines, opening: string, raw: string, h: Header, texts: Lines, n: nat, rest: Lines, max: nat, a: Account)
    requires ParseHeader(raw) == Some(h) && GoodHeader(h, n, texts) && GoodEnd(h, n, texts, rest)
    ensures
      var body := WrittenAll(texts, n);
      ParseBlock(pre + [opening] + body + rest, |pre|, raw, max, a) ==
        BlockOrLimit(BlockValue(h, NotedAll(texts)), |pre| + 1 + |texts|, body, max, a)
  {
    hide Utf8, Cost, Trim, ScanBlock, BlockValue, WithinLimits, ParseHeader, ShowsIndent, EndsBlock;
    var body := WrittenAll(texts, n);
    var head := pre + [opening];
    var lines := head + body + rest;
    NothingAdded(a, body);
    assert texts[..0] == [] && NotedAll(texts[..0]) == [];
    assert body[..0] == [];
    ScanReads(head, texts, n, rest, 0, h.indent, a);
    assert lines[|head| + |texts|..] == rest;
    ScanStops(lines, |head| + |texts|, ColumnAfter(h.indent, texts, |texts|, n), NotedAll(texts), Plus(a, body), n);
  }

  lemma FoldedEnds(parts: seq<Part>)
    requires GoodParts(parts) && parts != []
    ensures FoldedText(parts) != "" && FoldedText(parts)[|FoldedText(parts)| - 1] != '\n'
  {
    hide Trim;
    var r := parts[|parts| - 1].run;
    assert GoodRun(r);
    var last := r.lines[|r.lines| - 1];
    assert last in r.lines;
    assert last != "" by { if last == "" { EmptyIsBlank(); } }
    var sep := if r.Flow? then ' ' else '\n';
    if |r.lines| > 1 {
      JoinEnd(r.lines[..|r.lines| - 1], last, sep);
      assert r.lines == r.lines[..|r.lines| - 1] + [last];
    }
    assert RunText(r)[|RunText(r)| - 1] == last[|last| - 1];
    assert last[|last| - 1] in last;
  }

  lemma EmptyIsBlank()
    ensures Trim("") == ""
  {
  }

  /**
   A folded block reads as its text: flowing lines joined by single spaces, blank lines and deeper lines as
   line breaks; it ends as the header says. The only reasons to refuse it are the limits.
   */
  lemma FoldedBlockReadsBack(
      pre: Lines, opening: string, digitFirst: bool, h: Header, parts: seq<Part>, k: nat, n: nat, rest: Lines, max: nat, a: Account)
    requires h.folded && (h.indent.Some? ==> 1 <= h.indent.value <= 9) && GoodEnd(h, n, LinesOf(parts) + Empties(k), rest)
    requires GoodParts(parts) && GoodHeader(h, n, LinesOf(parts) + Empties(k))
    ensures
      var body := WrittenAll(LinesOf(parts) + Empties(k), n);
      ParseBlock(pre + [opening] + body + rest, |pre|, HeaderText(h, digitFirst), max, a) ==
        BlockOrLimit(Ended(h.chomp, FoldedText(parts), if parts == [] then k else k + 1), |pre| + 1 + |body|, body, max, a)
  {
    hide Utf8, Cost, Trim, BlockValue, WithinLimits, ParseHeader, ShowsIndent, Assembled, ParseBlock, HeaderText, FoldedText, GoodRun, GoodEnd;
    TextIsHeader(h, digitFirst);
    var texts := LinesOf(parts);
    BlockReads(pre, opening, HeaderText(h, digitFirst), h, texts + Empties(k), n, rest, max, a);
    FoldedAssembles(parts);
    if parts != [] {
      LastLine(parts);
      FoldedEnds(parts);
    } else {
      FoldedNothing();
    }
    ValueIsEnded(h, texts, k, FoldedText(parts));
  }

  lemma FoldedNothing()
    ensures FoldedText([]) == ""
  {
  }

  lemma LiteralAssembles(texts: Lines)
    requires texts != []
    ensures Assembled(false, NotedAll(texts)) == Join(texts, '\n')
  {
    hide Trim;
    AssembledEvenly(false, texts, '\n');
  }

  /** A literal block reads as its lines, with a line break between any two; it ends as the header says. */
  lemma LiteralReadsBack(
      pre: Lines, opening: string, digitFirst: bool, h: Header, texts: Lines, k: nat, n: nat, rest: Lines, max: nat, a: Account)
    requires !h.folded && (h.indent.Some? ==> 1 <= h.indent.value <= 9) && GoodEnd(h, n, texts + Empties(k), rest)
    requires GoodHeader(h, n, texts + Empties(k))
    requires texts != [] ==> texts[|texts| - 1] != "" && '\n' !in texts[|texts| - 1]
    ensures
      var body := WrittenAll(texts + Empties(k), n);
      ParseBlock(pre + [opening] + body + rest, |pre|, HeaderText(h, digitFirst), max, a) ==
        BlockOrLimit(Ended(h.chomp, Join(texts, '\n'), if texts == [] then k else k + 1), |pre| + 1 + |body|, body, max, a)
  {
    hide Utf8, Cost, Trim, BlockValue, WithinLimits, ParseHeader, ShowsIndent, Assembled, ParseBlock, HeaderText, GoodEnd;
    TextIsHeader(h, digitFirst);
    BlockReads(pre, opening, HeaderText(h, digitFirst), h, texts + Empties(k), n, rest, max, a);
    if texts != [] {
      LiteralAssembles(texts);
      JoinedEnds(texts, '\n');
    }
    ValueIsEnded(h, texts, k, Join(texts, '\n'));
  }

  lemma JoinedEnds(texts: Lines, sep: char)
    requires texts != [] && texts[|texts| - 1] != ""
    ensures
      var last := texts[|texts| - 1];
      Join(texts, sep) != "" && Join(texts, sep)[|Join(texts, sep)| - 1] == last[|last| - 1]
  {
    hide Join;
    var n := |texts| - 1;
    if n == 0 {
      JoinOne(texts, sep);
    } else {
      JoinEnd(texts[..n], texts[n], sep);
      assert texts == texts[..n] + [texts[n]];
    }
  }

  lemma JoinOne(texts: Lines, sep: char)
    requires |texts| == 1
    ensures Join(texts, sep) == texts[0]
  {
  }
}
