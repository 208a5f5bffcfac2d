/**
 The configuration parser: a cursor loop over `[`, `]`, `=` and newline (Configuration/ConfigurationReader.cpp).
 Positions are indices into the content; the end of the content stands for the end iterator.
 */
module ConfigurationReader {
  import opened Texts

  type KeyValue = (string, string)
  type SectionTable = map<string, seq<KeyValue>>

  /** Counting the pairs of a section over a range whose first iterator lies behind its last is undefined. */
  datatype FillResult = Filled(table: SectionTable) | Undefined

  // ---------- searches ----------

  /** The first position of c at or after `from`, or the end. */
  function Find(s: string, c: char, from: nat): (pos: nat)
    requires from <= |s|
    ensures from <= pos <= |s|
    decreases |s| - from
  {
    if from == |s| || s[from] == c then from else Find(s, c, from + 1)
  }

  lemma {:induction false} FindFinds(s: string, c: char, from: nat)
    requires from <= |s|
    ensures var pos := Find(s, c, from);
      c !in s[from..pos] && (pos < |s| ==> s[pos] == c)
    decreases |s| - from
  {
    if from < |s| && s[from] != c {
      FindFinds(s, c, from + 1);
      var pos := Find(s, c, from + 1);
      assert s[from..pos] == [s[from]] + s[from + 1..pos];
    }
  }

  lemma {:induction false} FindIs(s: string, c: char, from: nat, pos: nat)
    requires from <= pos <= |s| && c !in s[from..pos] && (pos < |s| ==> s[pos] == c)
    ensures Find(s, c, from) == pos
    decreases pos - from
  {
    if from < pos {
      assert s[from] == s[from..pos][0];
      assert s[from + 1..pos] == s[from..pos][1..];
      FindIs(s, c, from + 1, pos);
    }
  }

  /** Just behind a found position; a failed search answers the end twice. */
  function Behind(s: string, pos: nat): (after: nat)
    requires pos <= |s|
    ensures pos <= after <= |s| && (pos < |s| ==> after == pos + 1)
  {
    if pos == |s| then |s| else pos + 1
  }

  /** Just behind the last c before `before`, or the beginning. */
  function FindBack(s: string, c: char, before: nat): (pos: nat)
    requires before <= |s|
    ensures pos <= before
  {
    if before == 0 || s[before - 1] == c then before else FindBack(s, c, before - 1)
  }

  lemma {:induction false} FindBackFinds(s: string, c: char, before: nat)
    requires before <= |s|
    ensures var pos := FindBack(s, c, before);
      c !in s[pos..before] && (pos > 0 ==> s[pos - 1] == c)
  {
    if before > 0 && s[before - 1] != c {
      FindBackFinds(s, c, before - 1);
      var pos := FindBack(s, c, before - 1);
      assert s[pos..before] == s[pos..before - 1] + [s[before - 1]];
    }
  }

  lemma {:induction false} FindBackIs(s: string, c: char, before: nat, pos: nat)
    requires pos <= before <= |s| && c !in s[pos..before] && (pos > 0 ==> s[pos - 1] == c)
    ensures FindBack(s, c, before) == pos
    decreases before
  {
    if pos < before {
      assert s[before - 1] == s[pos..before][before - 1 - pos];
      assert s[pos..before - 1] == s[pos..before][..before - 1 - pos];
      FindBackIs(s, c, before - 1, pos);
    }
  }

  method Search(s: string, c: char, from: nat) returns (pos: nat, after: nat)
    requires from <= |s|
    ensures pos == Find(s, c, from) && after == Behind(s, pos)
  {
    pos := from;
    while pos < |s| && s[pos] != c
      invariant from <= pos <= |s|
      invariant Find(s, c, from) == Find(s, c, pos)
    {
      pos := pos + 1;
    }
    after := if pos == |s| then pos else pos + 1;
  }

  method SearchBack(s: string, c: char, before: nat) returns (pos: nat)
    requires before <= |s|
    ensures pos == FindBack(s, c, before)
  {
    pos := before;
    while pos > 0 && s[pos - 1] != c
      invariant pos <= before
      invariant FindBack(s, c, before) == FindBack(s, c, pos)
    {
      pos := pos - 1;
    }
  }

  // ---------- the parser ----------

  /** The pair whose `=` stands at kv. */
  function PairAt(s: string, kv: nat): KeyValue
    requires kv < |s|
  {
    (s[FindBack(s, '\n', kv)..kv], s[kv + 1..Find(s, '\n', kv + 1)])
  }

  /** The first `=` behind the line on which kv stands. */
  function NextSeparator(s: string, kv: nat): (next: nat)
    requires kv < |s|
    ensures kv < next <= |s|
  {
    Find(s, '=', Behind(s, Find(s, '\n', kv + 1)))
  }

  /** The pairs of the section that ends where the next one opens. */
  function Pairs(s: string, kv: nat, end: nat): seq<KeyValue>
    requires kv <= |s| && end <= |s|
    decreases |s| - kv
  {
    if kv >= end then [] else [PairAt(s, kv)] + Pairs(s, NextSeparator(s, kv), end)
  }

  function Sections(s: string, open: nat, table: SectionTable): FillResult
    requires open <= |s|
    decreases |s| - open
  {
    if open == |s| then Filled(table)
    else
      var close := Find(s, ']', open + 1);
      if close == |s| then Filled(table)
      else
        var kv, next := Find(s, '=', close + 1), Find(s, '[', open + 1);
        if kv > next then Undefined
        else Sections(s, next, table[s[open + 1..close] := Pairs(s, kv, next)])
  }

  function Parse(s: string): FillResult {
    Sections(s, Find(s, '[', 0), map[])
  }

  /** fillTable, into an emptied table; it answers whether it found any section. */
  method FillTable(content: string) returns (res: FillResult, ok: bool)
    ensures res == Parse(content)
    ensures res.Filled? ==> (ok <==> res.table != map[])
  {
    ok := false;
    var table: SectionTable := map[];
    var open, afterOpen := Search(content, '[', 0);
    while open != |content|
      invariant open <= |content| && afterOpen == Behind(content, open)
      invariant Parse(content) == Sections(content, open, table)
      decreases |content| - open
    {
      var close, afterClose := Search(content, ']', afterOpen);
      if close == |content| {
        break;
      }
      SectionsUnfold(content, open, table);
      var name := content[afterOpen..close];
      var kv, afterKv := Search(content, '=', afterClose);
      open, afterOpen := Search(content, '[', afterOpen);
      if kv > open {
        return Undefined, false;
      }
      assert table[name := []][name := Pairs(content, kv, open)] == table[name := Pairs(content, kv, open)];
      table := FillSection(content, kv, afterKv, open, name, table[name := []]);
    }
    res, ok := Filled(table), table != map[];
  }

  /** The inner loop: the pairs up to the next section are appended one by one to the section's container. */
  method FillSection(content: string, firstKv: nat, afterFirstKv: nat, end: nat, name: string, start: SectionTable)
    returns (table: SectionTable)
    requires firstKv <= |content| && end <= |content| && afterFirstKv == Behind(content, firstKv)
    requires name in start && start[name] == []
    ensures table == start[name := Pairs(content, firstKv, end)]
  {
    var kv, afterKv := firstKv, afterFirstKv;
    table := start;
    while kv < end
      invariant kv <= |content| && afterKv == Behind(content, kv)
      invariant name in table && table == start[name := table[name]]
      invariant table[name] + Pairs(content, kv, end) == Pairs(content, firstKv, end)
      decreases |content| - kv
    {
      var nextLine, afterLine := Search(content, '\n', afterKv);
      var lineStart := SearchBack(content, '\n', kv);
      var pair := (content[lineStart..kv], content[afterKv..nextLine]);
      AppendAssociates(table[name], pair, Pairs(content, NextSeparator(content, kv), end));
      table := table[name := table[name] + [pair]];
      kv, afterKv := Search(content, '=', afterLine);
    }
    assert table[name] + [] == table[name];
  }

  lemma AppendAssociates<T>(a: seq<T>, x: T, b: seq<T>)
    ensures a + ([x] + b) == (a + [x]) + b
  {
  }

  // ---------- every pair is one whole line ----------

  /**
   key, `=`, value is content[i..j], bounded on both sides by a newline or an end of the content, with none inside.
   */
  ghost predicate WholeLine(s: string, pair: KeyValue) {
    exists i: nat, j: nat ::
      i <= j <= |s| && s[i..j] == pair.0 + "=" + pair.1 && '\n' !in s[i..j]
      && (i == 0 || s[i - 1] == '\n') && (j == |s| || s[j] == '\n')
  }

  lemma PairIsWholeLine(s: string, kv: nat)
    requires kv < |s| && s[kv] == '='
    ensures WholeLine(s, PairAt(s, kv))
  {
    var i, j := FindBack(s, '\n', kv), Find(s, '\n', kv + 1);
    FindBackFinds(s, '\n', kv);
    FindFinds(s, '\n', kv + 1);
    assert s[i..j] == s[i..kv] + [s[kv]] + s[kv + 1..j];
  }

  lemma {:induction false} PairsAreWholeLines(s: string, kv: nat, end: nat)
    requires kv <= |s| && end <= |s| && (kv < |s| ==> s[kv] == '=')
    ensures forall pair :: pair in Pairs(s, kv, end) ==> WholeLine(s, pair)
    decreases |s| - kv
  {
    if kv < end {
      PairIsWholeLine(s, kv);
      FindFinds(s, '=', Behind(s, Find(s, '\n', kv + 1)));
      PairsAreWholeLines(s, NextSeparator(s, kv), end);
    }
  }

  ghost predicate AllWholeLines(s: string, table: SectionTable) {
    forall name, pair :: name in table && pair in table[name] ==> WholeLine(s, pair)
  }

  lemma SectionHoldsWholeLines(s: string, open: nat, close: nat, table: SectionTable)
    requires open < close < |s| && AllWholeLines(s, table)
    ensures AllWholeLines(s, table[s[open + 1..close] := Pairs(s, Find(s, '=', close + 1), Find(s, '[', open + 1))])
  {
    FindFinds(s, '=', close + 1);
    PairsAreWholeLines(s, Find(s, '=', close + 1), Find(s, '[', open + 1));
  }

  lemma {:induction false} SectionsHoldWholeLines(s: string, open: nat, table: SectionTable)
    requires open <= |s| && AllWholeLines(s, table)
    ensures Sections(s, open, table).Filled? ==> AllWholeLines(s, Sections(s, open, table).table)
    decreases |s| - open
  {
    if open < |s| && Find(s, ']', open + 1) < |s| {
      var close := Find(s, ']', open + 1);
      var kv, next := Find(s, '=', close + 1), Find(s, '[', open + 1);
      if kv <= next {
        SectionHoldsWholeLines(s, open, close, table);
        SectionsHoldWholeLines(s, next, table[s[open + 1..close] := Pairs(s, kv, next)]);
      }
    }
  }

  /** Whatever the content, every pair stored is one whole line of it. */
  lemma StoredPairsAreWholeLines(s: string)
    ensures Parse(s).Filled? ==> AllWholeLines(s, Parse(s).table)
  {
    SectionsHoldWholeLines(s, Find(s, '[', 0), map[]);
  }

  // ---------- parsing undoes printing ----------

  /** A line of a section: a setting, or blank or commenting text. */
  datatype BodyLine = Setting(pair: KeyValue) | Other(text: string)

  /** A section has a name, what follows the `]` on the line of the name, and its lines. */
  datatype Section = Section(name: string, tail: string, lines: seq<BodyLine>)

  /** The settings among some lines, in order. */
  function Settings(lines: seq<BodyLine>): seq<KeyValue> {
    if lines == [] then []
    else if lines[0].Setting? then [lines[0].pair] + Settings(lines[1..])
    else Settings(lines[1..])
  }

  /** Everything behind the `]`, of which the tail is the first line. */
  function Body(section: Section): (lines: seq<BodyLine>)
    ensures Settings(lines) == Settings(section.lines)
  {
    var lines := [Other(section.tail)] + section.lines;
    assert lines[1..] == section.lines;
    lines
  }

  function Line(pair: KeyValue): string {
    pair.0 + ("=" + (pair.1 + "\n"))
  }

  function PrintLine(line: BodyLine): string {
    match line
    case Setting(pair) => Line(pair)
    case Other(text) => text + "\n"
  }

  function PrintLines(lines: seq<BodyLine>): string {
    if lines == [] then "" else PrintLine(lines[0]) + PrintLines(lines[1..])
  }

  function PrintSection(section: Section): string {
    "[" + (section.name + ("]" + PrintLines(Body(section))))
  }

  function Print(doc: seq<Section>): string {
    if doc == [] then "" else PrintSection(doc[0]) + Print(doc[1..])
  }

  predicate CleanPair(pair: KeyValue) {
    && '=' !in pair.0 && '[' !in pair.0 && '\n' !in pair.0
    && '[' !in pair.1 && '\n' !in pair.1
  }

  predicate CleanLine(line: BodyLine) {
    match line
    case Setting(pair) => CleanPair(pair)
    case Other(text) => '=' !in text && '[' !in text
  }

  predicate CleanLines(lines: seq<BodyLine>) {
    forall i :: 0 <= i < |lines| ==> CleanLine(lines[i])
  }

  predicate CleanSection(section: Section) {
    '[' !in section.name && ']' !in section.name && CleanLines(Body(section))
  }

  predicate CleanDocument(doc: seq<Section>) {
    forall i :: 0 <= i < |doc| ==> CleanSection(doc[i])
  }

  /** No section but possibly the last is without a setting. */
  predicate OnlyLastEmpty(doc: seq<Section>) {
    forall i :: 0 <= i < |doc| - 1 ==> Settings(doc[i].lines) != []
  }

  /** The table of a document: a section repeated under one name replaces the earlier one. */
  function AsTable(doc: seq<Section>, table: SectionTable): SectionTable {
    if doc == [] then table else AsTable(doc[1..], table[doc[0].name := Settings(doc[0].lines)])
  }

  lemma FindBehindText(s: string, p: nat, x: string, c: char)
    requires At(s, p, x) && c !in x
    requires p + |x| == |s| || s[p + |x|] == c
    ensures Find(s, c, p) == p + |x|
  {
    AtSlice(s, p, x);
    FindIs(s, c, p, p + |x|);
  }

  lemma FindBackBeforeText(s: string, p: nat, x: string, c: char)
    requires At(s, p, x) && c !in x
    requires p == 0 || s[p - 1] == c
    ensures FindBack(s, c, p + |x|) == p
  {
    AtSlice(s, p, x);
    FindBackIs(s, c, p + |x|, p);
  }

  lemma LineParts(s: string, p: nat, pair: KeyValue)
    requires At(s, p, Line(pair))
    ensures var kv := p + |pair.0|;
      && |Line(pair)| == |pair.0| + |pair.1| + 2
      && At(s, p, pair.0) && s[kv] == '='
      && At(s, kv + 1, pair.1) && s[kv + 1 + |pair.1|] == '\n'
  {
    var kv, value := p + |pair.0|, pair.1 + "\n";
    AtSplit(s, p, pair.0, "=" + value);
    AtSplit(s, kv, "=", value);
    AtChar(s, kv, '=');
    AtSplit(s, kv + 1, pair.1, "\n");
    AtChar(s, kv + 1 + |pair.1|, '\n');
  }

  /** What the parser sees of a printed pair that begins a line. */
  lemma PairOfPrinted(s: string, p: nat, pair: KeyValue)
    requires At(s, p, Line(pair)) && CleanPair(pair) && (p == 0 || s[p - 1] == '\n')
    ensures var kv := p + |pair.0|;
      && Find(s, '=', p) == kv && kv < |s| && PairAt(s, kv) == pair
      && Behind(s, Find(s, '\n', kv + 1)) == p + |Line(pair)|
      && s[p + |Line(pair)| - 1] == '\n'
  {
    LineParts(s, p, pair);
    AtSlice(s, p, pair.0);
    AtSlice(s, p + |pair.0| + 1, pair.1);
    FindBehindText(s, p, pair.0, '=');
    FindBackBeforeText(s, p, pair.0, '\n');
    FindBehindText(s, p + |pair.0| + 1, pair.1, '\n');
  }

  lemma FindIsNotHere(s: string, c: char, p: nat)
    requires p < |s| && s[p] != c
    ensures Find(s, c, p) > p && Find(s, c, p) == Find(s, c, p + 1)
  {
  }

  lemma PairsWithOneMore(s: string, kv: nat, q: nat, rest: seq<KeyValue>, end: nat)
    requires kv < end <= |s| && Behind(s, Find(s, '\n', kv + 1)) == q
    requires Pairs(s, Find(s, '=', q), end) == rest
    ensures Pairs(s, kv, end) == [PairAt(s, kv)] + rest
  {
  }

  lemma FindSkips(s: string, c: char, from: nat, p: nat)
    requires from <= p <= |s| && c !in s[from..p]
    ensures Find(s, c, from) == Find(s, c, p)
  {
    var pos := Find(s, c, p);
    FindFinds(s, c, p);
    assert s[from..pos] == s[from..p] + s[p..pos];
    FindIs(s, c, from, pos);
  }

  /** The first `=` behind a section's last pair belongs to a later section, or there is none. */
  lemma NoMorePairs(s: string, p: nat, end: nat)
    requires p <= end <= |s| && '=' !in s[p..end] && (end == |s| || s[end] == '[')
    ensures var kv := Find(s, '=', p); Pairs(s, kv, end) == [] && (kv > end <==> end != |s|)
  {
    FindSkips(s, '=', p, end);
    if end < |s| {
      FindIsNotHere(s, '=', end);
    }
  }

  /** What the parser's searches find, from p to end, are these pairs. */
  ghost predicate Laid(s: string, p: nat, pairs: seq<KeyValue>, end: nat)
    requires p <= |s|
    decreases |pairs|
  {
    if pairs == [] then p <= end <= |s| && '=' !in s[p..end]
    else
      var kv := Find(s, '=', p);
      && kv < end && kv < |s| && PairAt(s, kv) == pairs[0]
      && Laid(s, Behind(s, Find(s, '\n', kv + 1)), pairs[1..], end)
  }

  lemma LaidWithOneMore(s: string, p: nat, kv: nat, next: nat, pairs: seq<KeyValue>, end: nat)
    requires p <= |s| && pairs != [] && Find(s, '=', p) == kv && kv < next <= |s| && PairAt(s, kv) == pairs[0]
    requires next <= end && Behind(s, Find(s, '\n', kv + 1)) == next && Laid(s, next, pairs[1..], end)
    ensures Laid(s, p, pairs, end)
  {
  }

  /** Text without `=` in front hides no pair and makes none. */
  lemma {:induction false} LaidBehindText(s: string, p: nat, next: nat, pairs: seq<KeyValue>, end: nat)
    requires p <= next <= |s| && '=' !in s[p..next] && Laid(s, next, pairs, end)
    ensures Laid(s, p, pairs, end)
  {
    FindSkips(s, '=', p, next);
    if pairs == [] {
      assert s[p..end] == s[p..next] + s[next..end];
    }
  }

  lemma {:induction false} OtherIsSkipped(s: string, p: nat, text: string, pairs: seq<KeyValue>, end: nat)
    requires At(s, p, text + "\n") && '=' !in text && Laid(s, p + |text| + 1, pairs, end)
    ensures Laid(s, p, pairs, end)
  {
    AtSlice(s, p, text + "\n");
    LaidBehindText(s, p, p + |text| + 1, pairs, end);
  }

  /** Where the first of some printed lines ends the others begin, on a new line. */
  lemma {:induction false} FirstLineEnds(s: string, p: nat, line: BodyLine, rest: string)
    requires At(s, p, PrintLine(line) + rest)
    ensures var next := p + |PrintLine(line)|;
      && 0 < next <= |s| && s[next - 1] == '\n' && At(s, p, PrintLine(line)) && At(s, next, rest)
      && next + |rest| == p + |PrintLine(line) + rest|
  {
    AtSplit(s, p, PrintLine(line), rest);
    var k := |PrintLine(line)| - 1;
    assert s[p + k] == PrintLine(line)[k];
  }

  lemma {:induction false} SettingParts(s: string, p: nat, pair: KeyValue) returns (kv: nat, next: nat)
    requires At(s, p, Line(pair)) && CleanPair(pair) && (p == 0 || s[p - 1] == '\n')
    ensures next == p + |Line(pair)| && p <= kv < next <= |s|
    ensures Find(s, '=', p) == kv && PairAt(s, kv) == pair && Behind(s, Find(s, '\n', kv + 1)) == next
  {
    PairOfPrinted(s, p, pair);
    kv, next := p + |pair.0|, p + |Line(pair)|;
  }

  lemma {:induction false} SettingIsLaid(s: string, p: nat, pair: KeyValue, rest: seq<KeyValue>, end: nat)
    requires At(s, p, Line(pair)) && CleanPair(pair) && (p == 0 || s[p - 1] == '\n')
    requires p + |Line(pair)| <= end && Laid(s, p + |Line(pair)|, rest, end)
    ensures Laid(s, p, [pair] + rest, end)
  {
    var kv, next := SettingParts(s, p, pair);
    LaidWithOneMore(s, p, kv, next, [pair] + rest, end);
  }

  lemma {:induction false} PrintedLineIsLaid(s: string, p: nat, line: BodyLine, rest: seq<KeyValue>, end: nat)
    requires At(s, p, PrintLine(line)) && CleanLine(line)
    requires line.Setting? ==> p == 0 || s[p - 1] == '\n'
    requires p + |PrintLine(line)| <= end && Laid(s, p + |PrintLine(line)|, rest, end)
    ensures Laid(s, p, if line.Setting? then [line.pair] + rest else rest, end)
  {
    match line {
      case Setting(pair) =>
        SettingIsLaid(s, p, pair, rest, end);
      case Other(text) =>
        OtherIsSkipped(s, p, text, rest, end);
    }
  }

  lemma {:induction false} FirstOfPrinted(s: string, p: nat, lines: seq<BodyLine>)
    returns (line: BodyLine, next: nat, rest: seq<BodyLine>)
    requires lines != [] && At(s, p, PrintLines(lines)) && CleanLines(lines)
    ensures line == lines[0] && CleanLine(line) && CleanLines(rest) && |rest| < |lines|
    ensures Settings(lines) == if line.Setting? then [line.pair] + Settings(rest) else Settings(rest)
    ensures 0 < next <= |s| && s[next - 1] == '\n' && next == p + |PrintLine(line)|
    ensures At(s, p, PrintLine(line)) && At(s, next, PrintLines(rest))
    ensures next + |PrintLines(rest)| == p + |PrintLines(lines)|
  {
    line, next, rest := lines[0], p + |PrintLine(lines[0])|, lines[1..];
    FirstLineEnds(s, p, line, PrintLines(rest));
  }

  lemma {:induction false} PrintedLinesAreLaid(s: string, p: nat, lines: seq<BodyLine>, end: nat)
    requires At(s, p, PrintLines(lines)) && CleanLines(lines) && end == p + |PrintLines(lines)|
    requires lines != [] && lines[0].Setting? ==> p == 0 || s[p - 1] == '\n'
    ensures Laid(s, p, Settings(lines), end)
    decreases |lines|
  {
    if lines != [] {
      var line, next, rest := FirstOfPrinted(s, p, lines);
      PrintedLinesAreLaid(s, next, rest, end);
      PrintedLineIsLaid(s, p, line, Settings(rest), end);
    }
  }

  lemma {:induction false} PairsOfLaid(s: string, p: nat, pairs: seq<KeyValue>, end: nat)
    requires p <= |s| && end <= |s| && Laid(s, p, pairs, end) && (end == |s| || s[end] == '[')
    ensures var kv := Find(s, '=', p);
      && Pairs(s, kv, end) == pairs
      && (kv > end <==> pairs == [] && end != |s|)
    decreases |pairs|
  {
    if pairs == [] {
      NoMorePairs(s, p, end);
    } else {
      var kv := Find(s, '=', p);
      var next := Behind(s, Find(s, '\n', kv + 1));
      PairsOfLaid(s, next, pairs[1..], end);
      PairsWithOneMore(s, kv, next, pairs[1..], end);
    }
  }

  lemma {:induction false} PrintedLinesHaveNoBracket(lines: seq<BodyLine>)
    requires CleanLines(lines)
    ensures '[' !in PrintLines(lines)
    decreases |lines|
  {
    if lines != [] {
      assert CleanLine(lines[0]) && CleanLines(lines[1..]);
      assert '[' !in PrintLine(lines[0]);
      PrintedLinesHaveNoBracket(lines[1..]);
    }
  }

  /** What the parser finds of a section from its `[` at p, over its `]` at close, to the next section at end. */
  ghost predicate SectionLaid(s: string, p: nat, close: nat, section: Section, end: nat) {
    && p < |s| && p < end <= |s| && (end == |s| || s[end] == '[')
    && p < close < |s| && Find(s, ']', p + 1) == close && s[p + 1..close] == section.name
    && Laid(s, close + 1, Settings(section.lines), end)
    && Find(s, '[', p + 1) == end
  }

  lemma HeaderParts(s: string, p: nat, name: string, body: string)
    requires At(s, p, "[" + (name + ("]" + body)))
    ensures var close := p + 1 + |name|;
      && |"[" + (name + ("]" + body))| == |name| + 2 + |body|
      && close < |s| && s[p] == '[' && At(s, p + 1, name) && s[close] == ']'
      && At(s, close + 1, body) && At(s, p + 1, name + ("]" + body))
  {
    var close := p + 1 + |name|;
    AtSplit(s, p, "[", name + ("]" + body));
    AtChar(s, p, '[');
    AtSplit(s, p + 1, name, "]" + body);
    AtSplit(s, close, "]", body);
    AtChar(s, close, ']');
  }

  /** The searches over a header with this text behind it. */
  lemma HeaderFinds(s: string, p: nat, name: string, body: string)
    requires At(s, p, "[" + (name + ("]" + body))) && '[' !in name && ']' !in name && '[' !in body
    requires var end := p + |name| + 2 + |body|; end == |s| || (end < |s| && s[end] == '[')
    ensures var close := p + 1 + |name|;
      && p < |s| && close < |s| && Find(s, ']', p + 1) == close && s[p + 1..close] == name
      && At(s, close + 1, body) && Find(s, '[', p + 1) == close + 1 + |body|
  {
    HeaderParts(s, p, name, body);
    AtSlice(s, p + 1, name);
    FindBehindText(s, p + 1, name + ("]" + body), '[');
    FindBehindText(s, p + 1, name, ']');
  }

  lemma PrintedSectionLength(section: Section)
    ensures |PrintSection(section)| == |section.name| + 2 + |PrintLines(Body(section))|
  {
  }

  lemma {:induction false} HeaderOfPrinted(s: string, p: nat, section: Section, end: nat)
    requires At(s, p, PrintSection(section)) && CleanSection(section)
    requires end == p + |PrintSection(section)| && (end == |s| || s[end] == '[')
    ensures var close := p + 1 + |section.name|;
      && p < |s| && close < |s| && Find(s, ']', p + 1) == close && s[p + 1..close] == section.name
      && At(s, close + 1, PrintLines(Body(section)))
      && Find(s, '[', p + 1) == end && end == close + 1 + |PrintLines(Body(section))|
  {
    PrintedSectionLength(section);
    PrintedLinesHaveNoBracket(Body(section));
    HeaderFinds(s, p, section.name, PrintLines(Body(section)));
  }

  lemma {:induction false} PrintedSectionIsLaid(s: string, p: nat, section: Section, end: nat)
    requires At(s, p, PrintSection(section)) && CleanSection(section)
    requires end == p + |PrintSection(section)| && (end == |s| || s[end] == '[')
    ensures SectionLaid(s, p, p + 1 + |section.name|, section, end)
  {
    HeaderOfPrinted(s, p, section, end);
    PrintedLinesAreLaid(s, p + 2 + |section.name|, Body(section), end);
  }

  /** The expected outcome of parsing a printed document on top of a table. */
  function Expected(doc: seq<Section>, table: SectionTable): FillResult {
    if OnlyLastEmpty(doc) then Filled(AsTable(doc, table)) else Undefined
  }

  lemma PrintStartsWithBracket(doc: seq<Section>)
    ensures doc != [] ==> Print(doc) != "" && Print(doc)[0] == '['
  {
  }

  lemma SectionsUnfold(s: string, open: nat, table: SectionTable)
    requires open < |s| && Find(s, ']', open + 1) < |s|
    ensures var close := Find(s, ']', open + 1);
      var kv, next := Find(s, '=', close + 1), Find(s, '[', open + 1);
      Sections(s, open, table) ==
        if kv > next then Undefined else Sections(s, next, table[s[open + 1..close] := Pairs(s, kv, next)])
  {
  }

  /** The parser's step over one section. */
  lemma {:induction false} SectionsStepOver(s: string, p: nat, close: nat, section: Section, end: nat,
                                            table: SectionTable)
    requires SectionLaid(s, p, close, section, end)
    ensures Sections(s, p, table) ==
      if Settings(section.lines) == [] && end != |s| then Undefined
          else Sections(s, end, table[section.name := Settings(section.lines)])
  {
    PairsOfLaid(s, close + 1, Settings(section.lines), end);
    SectionsUnfold(s, p, table);
  }

  lemma {:induction false} PrintedSectionStep(s: string, p: nat, section: Section, end: nat, table: SectionTable)
    requires At(s, p, PrintSection(section)) && CleanSection(section)
    requires end == p + |PrintSection(section)| && (end == |s| || s[end] == '[')
    ensures Sections(s, p, table) ==
      if Settings(section.lines) == [] && end != |s| then Undefined
          else Sections(s, end, table[section.name := Settings(section.lines)])
  {
    PrintedSectionIsLaid(s, p, section, end);
    SectionsStepOver(s, p, p + 1 + |section.name|, section, end, table);
  }

  lemma LastPartEnds(s: string, p: nat, x: string, y: string)
    requires At(s, p, x + y) && p + |x + y| == |s| && x != "" && (y != "" ==> y[0] == '[')
    ensures var end := p + |x|;
      && p < end <= |s| && At(s, p, x) && At(s, end, y) && end + |y| == |s|
      && (end == |s| <==> y == "") && (end < |s| ==> s[end] == '[')
  {
    AtSplit(s, p, x, y);
    if y != "" {
      assert s[p + |x| + 0] == y[0];
    }
  }

  /** Where the first section ends the next one opens. */
  lemma {:induction false} FirstSectionEnds(s: string, p: nat, doc: seq<Section>)
    requires At(s, p, Print(doc)) && p + |Print(doc)| == |s| && doc != []
    ensures var rest, end := doc[1..], p + |PrintSection(doc[0])|;
      && p < end <= |s| && At(s, p, PrintSection(doc[0])) && At(s, end, Print(rest)) && end + |Print(rest)| == |s|
      && (end == |s| <==> rest == []) && (end < |s| ==> s[end] == '[')
  {
    PrintStartsWithBracket(doc[1..]);
    LastPartEnds(s, p, PrintSection(doc[0]), Print(doc[1..]));
  }

  /** The parser's step over the first section of a printed document, beside that of the document itself. */
  lemma {:induction false} FirstSectionStepsOver(s: string, p: nat, doc: seq<Section>, table: SectionTable)
    returns (broken: bool, end: nat, rest: seq<Section>, table': SectionTable)
    requires At(s, p, Print(doc)) && p + |Print(doc)| == |s| && doc != [] && CleanDocument(doc)
    ensures p < end <= |s| && At(s, end, Print(rest)) && end + |Print(rest)| == |s|
    ensures CleanDocument(rest) && |rest| < |doc|
    ensures Sections(s, p, table) == if broken then Undefined else Sections(s, end, table')
    ensures Expected(doc, table) == if broken then Undefined else Expected(rest, table')
  {
    var section := doc[0];
    end, rest, table' := p + |PrintSection(section)|, doc[1..], table[section.name := Settings(section.lines)];
    broken := Settings(section.lines) == [] && rest != [];
    FirstSectionEnds(s, p, doc);
    PrintedSectionStep(s, p, section, end, table);
    ExpectedStep(doc, table);
  }

  lemma {:induction false} SectionsOfPrinted(s: string, p: nat, doc: seq<Section>, table: SectionTable)
    requires At(s, p, Print(doc)) && p + |Print(doc)| == |s| && CleanDocument(doc)
    ensures Sections(s, p, table) == Expected(doc, table)
    decreases |doc|
  {
    if doc != [] {
      var broken, end, rest, table' := FirstSectionStepsOver(s, p, doc, table);
      SectionsOfPrinted(s, end, rest, table');
    }
  }

  lemma ExpectedStep(doc: seq<Section>, table: SectionTable)
    requires doc != []
    ensures Expected(doc, table) ==
      if Settings(doc[0].lines) == [] && doc[1..] != [] then Undefined
          else Expected(doc[1..], table[doc[0].name := Settings(doc[0].lines)])
  {
    if Settings(doc[0].lines) != [] || |doc| == 1 {
      OnlyLastEmptyTail(doc);
    }
  }

  lemma OnlyLastEmptyTail(doc: seq<Section>)
    requires doc != [] && (Settings(doc[0].lines) != [] || |doc| == 1)
    ensures OnlyLastEmpty(doc) <==> OnlyLastEmpty(doc[1..])
  {
    if OnlyLastEmpty(doc[1..]) {
      assert forall i :: 1 <= i < |doc| - 1 ==> doc[i] == doc[1..][i - 1];
    }
  }

  /**
   Parsing undoes printing, whatever text without a `[` stands above the first section, exactly when no section but the
   last is without a setting; with such a section before another one the parser counts over a reversed range.
   */
  lemma ParsingUndoesPrinting(lead: string, doc: seq<Section>)
    requires '[' !in lead && CleanDocument(doc)
    ensures Parse(lead + Print(doc)) == if OnlyLastEmpty(doc) then Filled(AsTable(doc, map[])) else Undefined
  {
    var s := lead + Print(doc);
    assert s[0..|lead|] == lead;
    PrintStartsWithBracket(doc);
    FindSkips(s, '[', 0, |lead|);
    SectionsOfPrinted(s, |lead|, doc, map[]);
  }

  /** With distinct names the table holds each section of the document, its pairs in order, and nothing else. */
  lemma {:induction false} TableHoldsTheSections(doc: seq<Section>, table: SectionTable)
    requires forall i, j :: 0 <= i < j < |doc| ==> doc[i].name != doc[j].name
    ensures forall i :: 0 <= i < |doc| ==>
      doc[i].name in AsTable(doc, table) && AsTable(doc, table)[doc[i].name] == Settings(doc[i].lines)
    ensures forall name :: name in AsTable(doc, table) ==>
      name in table || exists i :: 0 <= i < |doc| && doc[i].name == name
    ensures forall name :: name in table && (forall i :: 0 <= i < |doc| ==> doc[i].name != name) ==>
      name in AsTable(doc, table) && AsTable(doc, table)[name] == table[name]
    decreases |doc|
  {
    if doc != [] {
      var rest, table' := doc[1..], table[doc[0].name := Settings(doc[0].lines)];
      TableHoldsTheSections(rest, table');
      forall i | 0 <= i < |doc|
        ensures doc[i].name in AsTable(doc, table) && AsTable(doc, table)[doc[i].name] == Settings(doc[i].lines)
      {
        if i > 0 {
          assert rest[i - 1] == doc[i];
        } else {
          assert forall j :: 0 <= j < |rest| ==> rest[j].name != doc[0].name;
        }
      }
      forall name | name in AsTable(doc, table) && name !in table
        ensures exists i :: 0 <= i < |doc| && doc[i].name == name
      {
        if name != doc[0].name {
          assert name in AsTable(rest, table') && name !in table';
          var i :| 0 <= i < |rest| && rest[i].name == name;
          assert doc[i + 1].name == name;
        }
      }
    }
  }

  // ---------- text above the first section and behind the last line ----------

  /** The content s stands in t at d, at the beginning of a line, with at most one newline behind it. */
  ghost predicate Embedded(s: string, t: string, d: nat) {
    && At(t, d, s) && (d == 0 || t[d - 1] == '\n')
    && (|t| == d + |s| || (|t| == d + |s| + 1 && t[d + |s|] == '\n'))
  }

  /** Where a position of s, or its end, is in t. */
  function Moved(s: string, t: string, d: nat, p: nat): (q: nat) {
    if p == |s| then |t| else d + p
  }

  lemma {:induction false} FindMoves(s: string, t: string, d: nat, c: char, from: nat)
    requires Embedded(s, t, d) && from <= |s| && c != '\n'
    ensures Find(t, c, d + from) == Moved(s, t, d, Find(s, c, from))
    decreases |s| - from
  {
    if from < |s| {
      assert t[d + from] == s[from];
      if s[from] != c {
        FindMoves(s, t, d, c, from + 1);
      }
    }
  }

  lemma {:induction false} LineEndMoves(s: string, t: string, d: nat, from: nat)
    requires Embedded(s, t, d) && from <= |s|
    ensures Find(t, '\n', d + from) == d + Find(s, '\n', from)
    decreases |s| - from
  {
    if from < |s| {
      assert t[d + from] == s[from];
      if s[from] != '\n' {
        LineEndMoves(s, t, d, from + 1);
      }
    }
  }

  lemma {:induction false} LineStartMoves(s: string, t: string, d: nat, before: nat)
    requires Embedded(s, t, d) && before <= |s|
    ensures FindBack(t, '\n', d + before) == d + FindBack(s, '\n', before)
    decreases before
  {
    if before > 0 {
      assert t[d + (before - 1)] == s[before - 1];
      if s[before - 1] != '\n' {
        LineStartMoves(s, t, d, before - 1);
      }
    }
  }

  lemma SliceMoves(s: string, t: string, d: nat, i: nat, j: nat)
    requires At(t, d, s) && i <= j <= |s|
    ensures t[d + i..d + j] == s[i..j]
  {
    forall k | 0 <= k < j - i
      ensures t[d + i..d + j][k] == s[i..j][k]
    {
      assert t[d + (i + k)] == s[i + k];
    }
  }

  lemma {:induction false} LineMoves(s: string, t: string, d: nat, kv: nat)
    requires Embedded(s, t, d) && kv < |s|
    ensures PairAt(t, d + kv) == PairAt(s, kv)
    ensures Find(t, '\n', d + kv + 1) == d + Find(s, '\n', kv + 1)
  {
    LineEndMoves(s, t, d, kv + 1);
    LineStartMoves(s, t, d, kv);
    SliceMoves(s, t, d, FindBack(s, '\n', kv), kv);
    SliceMoves(s, t, d, kv + 1, Find(s, '\n', kv + 1));
  }

  lemma {:induction false} PairMoves(s: string, t: string, d: nat, kv: nat)
    requires Embedded(s, t, d) && kv < |s|
    ensures PairAt(t, d + kv) == PairAt(s, kv)
    ensures NextSeparator(t, d + kv) == Moved(s, t, d, NextSeparator(s, kv))
  {
    var lineEnd := Find(s, '\n', kv + 1);
    LineMoves(s, t, d, kv);
    FindMoves(s, t, d, '=', Behind(s, lineEnd));
  }

  lemma {:induction false} PairsMove(s: string, t: string, d: nat, kv: nat, end: nat)
    requires Embedded(s, t, d) && kv <= |s| && end <= |s|
    ensures Pairs(t, Moved(s, t, d, kv), Moved(s, t, d, end)) == Pairs(s, kv, end)
    decreases |s| - kv
  {
    if kv < end {
      PairMoves(s, t, d, kv);
      PairsMove(s, t, d, NextSeparator(s, kv), end);
    }
  }

  lemma {:induction false} HeaderMoves(s: string, t: string, d: nat, open: nat, close: nat)
    requires Embedded(s, t, d) && open < close < |s| && close == Find(s, ']', open + 1)
    ensures Find(t, ']', d + open + 1) == d + close && t[d + open + 1..d + close] == s[open + 1..close]
  {
    FindMoves(s, t, d, ']', open + 1);
    SliceMoves(s, t, d, open + 1, close);
  }

  lemma {:induction false} BodyMoves(s: string, t: string, d: nat, open: nat, close: nat, kv: nat, next: nat)
    requires Embedded(s, t, d) && open < close < |s|
    requires kv == Find(s, '=', close + 1) && next == Find(s, '[', open + 1)
    ensures Find(t, '=', d + close + 1) == Moved(s, t, d, kv) && Find(t, '[', d + open + 1) == Moved(s, t, d, next)
    ensures Pairs(t, Moved(s, t, d, kv), Moved(s, t, d, next)) == Pairs(s, kv, next)
    ensures kv > next <==> Moved(s, t, d, kv) > Moved(s, t, d, next)
  {
    FindMoves(s, t, d, '=', close + 1);
    FindMoves(s, t, d, '[', open + 1);
    PairsMove(s, t, d, kv, next);
  }

  /** What the step over the section that opens here finds. */
  ghost predicate Finds(s: string, open: nat, kv: nat, next: nat, name: string, pairs: seq<KeyValue>) {
    && open < |s|
    && var close := Find(s, ']', open + 1);
    && close < |s| && name == s[open + 1..close]
    && kv == Find(s, '=', close + 1) && next == Find(s, '[', open + 1) && pairs == Pairs(s, kv, next)
  }

  /** The parser's step over a section of which all that it searches for is known. */
  lemma {:induction false} SectionsStep(s: string, open: nat, kv: nat, next: nat, name: string, pairs: seq<KeyValue>,
                                        table: SectionTable)
    requires Finds(s, open, kv, next, name, pairs)
    ensures Sections(s, open, table) == if kv > next then Undefined else Sections(s, next, table[name := pairs])
  {
    SectionsUnfold(s, open, table);
  }

  lemma {:induction false} FindsMove(s: string, t: string, d: nat, open: nat)
    returns (kv: nat, next: nat, name: string, pairs: seq<KeyValue>)
    requires Embedded(s, t, d) && open < |s| && Find(s, ']', open + 1) < |s|
    ensures kv <= |s| && open < next <= |s| && Finds(s, open, kv, next, name, pairs)
    ensures Finds(t, d + open, Moved(s, t, d, kv), Moved(s, t, d, next), name, pairs)
    ensures kv > next <==> Moved(s, t, d, kv) > Moved(s, t, d, next)
  {
    var close := Find(s, ']', open + 1);
    kv, next, name := Find(s, '=', close + 1), Find(s, '[', open + 1), s[open + 1..close];
    pairs := Pairs(s, kv, next);
    HeaderMoves(s, t, d, open, close);
    BodyMoves(s, t, d, open, close, kv, next);
  }

  /** A `[` that is never closed ends the parse. */
  lemma Unclosed(s: string, open: nat, table: SectionTable)
    requires open <= |s| && (open < |s| ==> Find(s, ']', open + 1) == |s|)
    ensures Sections(s, open, table) == Filled(table)
  {
  }

  /** The step over a section that is closed is the same in both texts. */
  lemma {:induction false} StepMoves(s: string, t: string, d: nat, open: nat, table: SectionTable)
    returns (broken: bool, next: nat, table': SectionTable)
    requires Embedded(s, t, d) && open < |s| && Find(s, ']', open + 1) < |s|
    ensures open < next <= |s|
    ensures Sections(s, open, table) == if broken then Undefined else Sections(s, next, table')
    ensures Sections(t, d + open, table) == if broken then Undefined else Sections(t, Moved(s, t, d, next), table')
  {
    var kv, name, pairs;
    kv, next, name, pairs := FindsMove(s, t, d, open);
    SectionsStep(s, open, kv, next, name, pairs, table);
    SectionsStep(t, d + open, Moved(s, t, d, kv), Moved(s, t, d, next), name, pairs, table);
    broken, table' := kv > next, table[name := pairs];
  }

  lemma UnclosedMoves(s: string, t: string, d: nat, open: nat, table: SectionTable)
    requires Embedded(s, t, d) && open <= |s| && (open < |s| ==> Find(s, ']', open + 1) == |s|)
    ensures Sections(t, Moved(s, t, d, open), table) == Sections(s, open, table)
  {
    if open < |s| {
      FindMoves(s, t, d, ']', open + 1);
    }
    Unclosed(s, open, table);
    Unclosed(t, Moved(s, t, d, open), table);
  }

  lemma {:induction false} SectionsMove(s: string, t: string, d: nat, open: nat, table: SectionTable)
    requires Embedded(s, t, d) && open <= |s|
    ensures Sections(t, Moved(s, t, d, open), table) == Sections(s, open, table)
    decreases |s| - open
  {
    if open == |s| || Find(s, ']', open + 1) == |s| {
      UnclosedMoves(s, t, d, open, table);
    } else {
      var broken, next, table' := StepMoves(s, t, d, open, table);
      SectionsMove(s, t, d, next, table');
    }
  }

  lemma FirstSearchMoves(s: string, t: string, d: nat)
    requires Embedded(s, t, d) && '[' !in t[..d]
    ensures Find(t, '[', 0) == Moved(s, t, d, Find(s, '[', 0))
  {
    assert t[0..d] == t[..d];
    FindSkips(t, '[', 0, d);
    FindMoves(s, t, d, '[', 0);
  }

  lemma {:induction false} EmbeddedParsesAlike(s: string, t: string, d: nat)
    requires Embedded(s, t, d) && '[' !in t[..d]
    ensures Parse(t) == Parse(s)
  {
    FirstSearchMoves(s, t, d);
    SectionsMove(s, t, d, Find(s, '[', 0), map[]);
  }

  /** Whether the content ends its last line with a newline makes no difference. */
  lemma FinalNewlineMakesNoDifference(s: string)
    ensures Parse(s + "\n") == Parse(s)
  {
    EmbeddedParsesAlike(s, s + "\n", 0);
  }

  /** The one line `[]=`. */
  predicate NamelessLine(s: string) {
    |s| == 3 && s[0] == '[' && s[1] == ']' && s[2] == '='
  }

  /** All that the parser finds of that line behind some text: all before the `=` on its line is the key. */
  lemma NamelessLineFinds(lead: string, s: string, t: string)
    requires '[' !in lead && NamelessLine(s) && t == lead + s
    ensures var n := |lead|;
      && |t| == n + 3 && Find(t, '[', 0) == n && Find(t, ']', n + 1) == n + 1 && t[n + 1..n + 1] == ""
      && Find(t, '=', n + 2) == n + 2 && Find(t, '[', n + 1) == n + 3
      && Pairs(t, n + 2, n + 3) == [(t[FindBack(t, '\n', n + 2)..n + 2], "")]
  {
    var n := |lead|;
    assert t[0..n] == lead;
    assert t[n] == '[' && t[n + 1] == ']' && t[n + 2] == '=';
    FindIs(t, '[', 0, n);
    FindIs(t, '[', n + 1, n + 3);
    assert t[n + 3..n + 3] == "";
  }

  lemma NamelessLineParses(lead: string, s: string, t: string)
    requires '[' !in lead && NamelessLine(s) && t == lead + s
    ensures Parse(t) == Filled(map["" := [(t[FindBack(t, '\n', |lead| + 2)..|lead| + 2], "")]])
  {
    var n := |lead|;
    NamelessLineFinds(lead, s, t);
    SectionsStep(t, n, n + 2, n + 3, "", [(t[FindBack(t, '\n', n + 2)..n + 2], "")], map[]);
    Unclosed(t, n + 3, map["" := [(t[FindBack(t, '\n', n + 2)..n + 2], "")]]);
  }

  /** How much of the text in front stands on the line, and so in the key. */
  lemma LineBeginsAt(lead: string, s: string, t: string)
    requires NamelessLine(s) && t == lead + s
    ensures var pos := FindBack(t, '\n', |lead| + 2);
      pos <= |lead| && (pos == |lead| <==> lead == "" || lead[|lead| - 1] == '\n')
  {
    var n := |lead|;
    FindBackFinds(t, '\n', n + 2);
    assert t[n] == '[' && t[n + 1] == ']' && (n > 0 ==> t[n - 1] == lead[n - 1]);
  }

  lemma KeysDiffer(one: FillResult, key: string, other: FillResult, longer: string)
    requires one == Filled(map["" := [(key, "")]]) && other == Filled(map["" := [(longer, "")]])
    requires |key| < |longer|
    ensures one != other
  {
    assert one.table[""][0].0 == key && other.table[""][0].0 == longer;
  }

  lemma LeadWithoutNewlineIsInTheKey(lead: string) returns (s: string)
    requires '[' !in lead && lead != "" && lead[|lead| - 1] != '\n'
    ensures Parse(lead + s) != Parse(s)
  {
    s := "[]=";
    NamelessKeysDiffer(lead, s);
  }

  lemma NamelessKeysDiffer(lead: string, s: string)
    requires '[' !in lead && lead != "" && lead[|lead| - 1] != '\n' && NamelessLine(s)
    ensures Parse(lead + s) != Parse(s)
  {
    var t, n := lead + s, |lead|;
    assert "" + s == s;
    NamelessLineParses("", s, s);
    NamelessLineParses(lead, s, t);
    LineBeginsAt(lead, s, t);
    KeysDiffer(Parse(s), s[FindBack(s, '\n', 2)..2], Parse(t), t[FindBack(t, '\n', n + 2)..n + 2]);
  }

  lemma LeadingLinesMakeNoDifference(lead: string, s: string)
    requires '[' !in lead && (lead == "" || lead[|lead| - 1] == '\n')
    ensures Parse(lead + s) == Parse(s)
  {
    assert (lead + s)[..|lead|] == lead;
    EmbeddedParsesAlike(s, lead + s, |lead|);
  }

  /**
   Text without a `[` above the first section changes no parse exactly when it is empty or ends with a newline: the key
   of a pair on the line of the `[` begins where that line does.
   */
  lemma LeadingTextExactlyWhen(lead: string)
    requires '[' !in lead
    ensures (forall s :: Parse(lead + s) == Parse(s)) <==> lead == "" || lead[|lead| - 1] == '\n'
  {
    if lead == "" || lead[|lead| - 1] == '\n' {
      forall s: string
        ensures Parse(lead + s) == Parse(s)
      {
        LeadingLinesMakeNoDifference(lead, s);
      }
    } else {
      var s := LeadWithoutNewlineIsInTheKey(lead);
    }
  }
}
