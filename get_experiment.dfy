/**
 * The evaluation script's readers: the two parsing loops of get_matrix (label
 * files and prediction files, both split into a P and an S section by header
 * lines), and the read-back of a RAW file written by the main window.
 */
module Experiment {
  import opened Wrappers
  import Text
  import opened NeuralNetwork
  import Trace

  // ---------------------------------------------------------------------------
  // Sections of a file

  /** A line that, with its trailing newlines stripped, reads "P" or "S" opens a section and holds no data. */
  predicate IsHeader(line: string) {
    Text.RStripNewlines(line) == "P" || Text.RStripNewlines(line) == "S"
  }

  predicate IsSHeader(line: string) {
    Text.RStripNewlines(line) == "S"
  }

  /** The position of the first "S" header, or |lines| when there is none. */
  function FirstS(lines: seq<string>): (f: nat)
    ensures f <= |lines|
  {
    if lines == [] then 0
    else if IsSHeader(lines[0]) then 0
    else 1 + FirstS(lines[1..])
  }

  /** No line before FirstS is an "S" header, and the line at FirstS, if any, is one. */
  lemma {:induction false} FirstSShape(lines: seq<string>)
    ensures var f := FirstS(lines);
      && (forall k :: 0 <= k < f ==> !IsSHeader(lines[k]))
      && (f < |lines| ==> IsSHeader(lines[f]))
  {
    if lines != [] && !IsSHeader(lines[0]) {
      FirstSShape(lines[1..]);
    }
  }

  /** The first "S" header is at f when line f is one and no earlier line is. */
  lemma FirstSAt(lines: seq<string>, f: nat)
    requires f < |lines| && IsSHeader(lines[f])
    requires forall k :: 0 <= k < f ==> !IsSHeader(lines[k])
    ensures FirstS(lines) == f
  {
    FirstSShape(lines);
    var g := FirstS(lines);
    if g < f {
      assert false;
    } else if g > f {
      assert false;
    }
  }

  /** The two header lines as get_raw writes them. */
  lemma HeaderLines()
    ensures IsHeader("P\n") && !IsSHeader("P\n") && IsSHeader("S\n")
  {
    Text.RStripOfLine("P");
    Text.RStripOfLine("S");
    assert "P" + "\n" == "P\n" && "S" + "\n" == "S\n";
    assert "P"[0] != "S"[0];
  }

  /** The lines that are not headers, in file order. */
  function DataLines(lines: seq<string>): seq<string> {
    if lines == [] then []
    else
      var last := lines[|lines| - 1];
      if IsHeader(last) then DataLines(lines[..|lines| - 1])
      else DataLines(lines[..|lines| - 1]) + [last]
  }

  /** The data lines are the lines that are not headers. */
  lemma {:induction false} DataLinesMembers(lines: seq<string>)
    ensures forall x :: x in DataLines(lines) <==> x in lines && !IsHeader(x)
  {
    if lines != [] {
      var init := lines[..|lines| - 1];
      DataLinesMembers(init);
      assert lines == init + [lines[|lines| - 1]];
    }
  }

  lemma {:induction false} DataLinesAppend(a: seq<string>, b: seq<string>)
    ensures DataLines(a + b) == DataLines(a) + DataLines(b)
    decreases |b|
  {
    if b == [] {
      assert a + b == a;
    } else {
      var init := b[..|b| - 1];
      var last := b[|b| - 1];
      assert (a + b)[..|a + b| - 1] == a + init;
      assert (a + b)[|a + b| - 1] == last;
      DataLinesAppend(a, init);
    }
  }

  lemma {:induction false} DataLinesOfData(d: seq<string>)
    requires forall k :: 0 <= k < |d| ==> !IsHeader(d[k])
    ensures DataLines(d) == d
    decreases |d|
  {
    if d != [] {
      DataLinesOfData(d[..|d| - 1]);
      assert d == d[..|d| - 1] + [d[|d| - 1]];
    }
  }

  /** The data lines of the P section: everything before the first "S" header. */
  function PSection(lines: seq<string>): seq<string> {
    DataLines(lines[0..FirstS(lines)])
  }

  /** The data lines of the S section: everything after the first "S" header. */
  function SSection(lines: seq<string>): seq<string> {
    var f := FirstS(lines);
    if f < |lines| then DataLines(lines[f + 1..]) else []
  }

  /** Every item parsed in order; None stands for the exception the first failing item raises. */
  function ParseAll<T>(items: seq<string>, parse: string -> Option<T>): (r: Option<seq<T>>)
    ensures r.Some? ==> |r.value| == |items|
  {
    if items == [] then Some([])
    else
      var init := ParseAll(items[..|items| - 1], parse);
      var last := parse(items[|items| - 1]);
      if init.Some? && last.Some? then Some(init.value + [last.value]) else None
  }

  lemma ParseAllSnoc<T>(items: seq<string>, x: string, parse: string -> Option<T>)
    ensures ParseAll(items + [x], parse)
         == if ParseAll(items, parse).Some? && parse(x).Some?
            then Some(ParseAll(items, parse).value + [parse(x).value]) else None
  {
    assert (items + [x])[..|items|] == items;
  }

  /** One item that fails to parse makes the whole sequence fail. */
  lemma {:induction false} ParseAllFails<T>(items: seq<string>, k: nat, parse: string -> Option<T>)
    requires k < |items| && parse(items[k]).None?
    ensures ParseAll(items, parse).None?
  {
    if k < |items| - 1 {
      ParseAllFails(items[..|items| - 1], k, parse);
    }
  }

  /** How the two sections change when one more line is read. */
  lemma SectionsSnoc(init: seq<string>, x: string)
    ensures var lines := init + [x];
      var more := if IsHeader(x) then [] else [x];
      if FirstS(init) < |init| then
        && FirstS(lines) == FirstS(init)
        && PSection(lines) == PSection(init)
        && SSection(lines) == SSection(init) + more
      else if IsSHeader(x) then
        && FirstS(lines) == |init|
        && PSection(lines) == PSection(init)
        && SSection(lines) == []
      else
        && FirstS(lines) == |lines|
        && PSection(lines) == PSection(init) + more
        && SSection(lines) == []
  {
    DataLinesOne(x);
    if FirstS(init) < |init| {
      SnocAfterS(init, x);
    } else if IsSHeader(x) {
      SnocOpensS(init, x);
    } else {
      SnocBeforeS(init, x);
    }
  }

  /** After the first "S" header, a line only extends the S section. */
  lemma SnocAfterS(init: seq<string>, x: string)
    requires FirstS(init) < |init|
    ensures FirstS(init + [x]) == FirstS(init)
    ensures PSection(init + [x]) == PSection(init)
    ensures SSection(init + [x]) == SSection(init) + DataLines([x])
  {
    var f := FirstS(init);
    SnocSlices(init, x, f);
    SnocSlices(init, x, f + 1);
    FirstSKept(init, x);
    DataLinesAppend(init[f + 1..], [x]);
  }

  /** The slices of a sequence with one more element at the end. */
  lemma SnocSlices<T>(s: seq<T>, x: T, i: nat)
    requires i <= |s|
    ensures (s + [x])[..i] == s[..i] && (s + [x])[0..i] == s[0..i] && (s + [x])[i..] == s[i..] + [x]
    ensures (s + [x])[0..|s| + 1] == s[0..|s|] + [x]
  {
  }

  /** A line added after the first "S" header does not move it. */
  lemma FirstSKept(init: seq<string>, x: string)
    requires FirstS(init) < |init|
    ensures FirstS(init + [x]) == FirstS(init)
  {
    var lines := init + [x];
    var f := FirstS(init);
    FirstSShape(init);
    assert lines[f] == init[f];
    assert forall k :: 0 <= k < f ==> lines[k] == init[k];
    FirstSAt(lines, f);
  }

  /** The first "S" header ends the P section and opens an empty S section. */
  lemma SnocOpensS(init: seq<string>, x: string)
    requires FirstS(init) == |init| && IsSHeader(x)
    ensures FirstS(init + [x]) == |init|
    ensures PSection(init + [x]) == PSection(init)
    ensures SSection(init + [x]) == []
  {
    FirstSOpened(init, x);
    SnocSlices(init, x, |init|);
  }

  /** The first "S" header after none is the new line. */
  lemma FirstSOpened(init: seq<string>, x: string)
    requires FirstS(init) == |init| && IsSHeader(x)
    ensures FirstS(init + [x]) == |init|
  {
    var lines := init + [x];
    FirstSShape(init);
    assert forall k :: 0 <= k < |init| ==> lines[k] == init[k];
    FirstSAt(lines, |init|);
  }

  /** Without any "S" header the first one is past the end. */
  lemma FirstSNone(lines: seq<string>)
    requires forall k :: 0 <= k < |lines| ==> !IsSHeader(lines[k])
    ensures FirstS(lines) == |lines|
  {
    FirstSShape(lines);
    if FirstS(lines) < |lines| {
      assert false;
    }
  }

  /** Before any "S" header, a line only extends the P section. */
  lemma SnocBeforeS(init: seq<string>, x: string)
    requires FirstS(init) == |init| && !IsSHeader(x)
    ensures FirstS(init + [x]) == |init| + 1
    ensures PSection(init + [x]) == PSection(init) + DataLines([x])
    ensures SSection(init + [x]) == []
  {
    FirstSStillNone(init, x);
    SnocSlices(init, x, 0);
    DataLinesAppend(init[0..|init|], [x]);
  }

  /** A line that is not an "S" header, after none, leaves the first one past the end. */
  lemma FirstSStillNone(init: seq<string>, x: string)
    requires FirstS(init) == |init| && !IsSHeader(x)
    ensures FirstS(init + [x]) == |init| + 1
  {
    var lines := init + [x];
    FirstSShape(init);
    forall k | 0 <= k < |lines|
      ensures !IsSHeader(lines[k])
    {
      if k < |init| {
        assert lines[k] == init[k];
      }
    }
    FirstSNone(lines);
  }

  /** A single line is its own data line exactly when it is not a header. */
  lemma DataLinesOne(x: string)
    ensures DataLines([x]) == if IsHeader(x) then [] else [x]
  {
    assert [x][..0] == [];
  }

  // ---------------------------------------------------------------------------
  // Label files (get_matrix, first loop)

  /** The picked sample indices of one file, per phase, in file order. */
  datatype Labels = Labels(p: seq<int>, s: seq<int>)

  /** int(line.rstrip('\n')) */
  function ParseLabel(line: string): Option<int> {
    Text.ParseInt(Text.RStripNewlines(line))
  }

  /**
   * What a label file holds: the integers of the data lines before the first
   * "S" header as P picks and those after it as S picks; headers are skipped
   * and never parsed. None when some data line is not an integer.
   */
  function LabelSpec(lines: seq<string>): Option<Labels> {
    var ps := ParseAll(PSection(lines), ParseLabel);
    var ss := ParseAll(SSection(lines), ParseLabel);
    if ps.Some? && ss.Some? then Some(Labels(ps.value, ss.value)) else None
  }

  /** The state of the label loop: the flag and the two lists. */
  datatype LabelState = LabelState(flag: bool, p: seq<int>, s: seq<int>)

  /** One iteration of the label loop; None is the ValueError of int(). */
  function LabelStep(st: LabelState, line: string): Option<LabelState> {
    var stripped := Text.RStripNewlines(line);
    if stripped == "P" then Some(st)
    else if stripped == "S" then Some(st.(flag := false))
    else
      var v := ParseLabel(line);
      if v.None? then None
      else if st.flag then Some(st.(p := st.p + [v.value]))
      else Some(st.(s := st.s + [v.value]))
  }

  /** The label loop run over `lines`. */
  function LabelLoop(lines: seq<string>): Option<LabelState> {
    if lines == [] then Some(LabelState(true, [], []))
    else
      var st := LabelLoop(lines[..|lines| - 1]);
      if st.None? then None else LabelStep(st.value, lines[|lines| - 1])
  }

  /**
   * The loop computes the sections: after any prefix the flag says whether an
   * "S" header has been seen, and the lists are the parsed sections so far.
   */
  lemma {:induction false} LabelLoopSections(lines: seq<string>)
    ensures LabelLoop(lines)
         == if LabelSpec(lines).None? then None
            else Some(LabelState(FirstS(lines) == |lines|, LabelSpec(lines).value.p, LabelSpec(lines).value.s))
  {
    if lines != [] {
      var init := lines[..|lines| - 1];
      var x := lines[|lines| - 1];
      assert lines == init + [x];
      LabelLoopSections(init);
      SectionsSnoc(init, x);
      var stripped := Text.RStripNewlines(x);
      if stripped == "P" || stripped == "S" {
        assert PSection(init) + [] == PSection(init);
        assert SSection(init) + [] == SSection(init);
        assert LabelSpec(lines) == LabelSpec(init);
      } else if FirstS(init) < |init| {
        ParseAllSnoc(SSection(init), x, ParseLabel);
      } else {
        ParseAllSnoc(PSection(init), x, ParseLabel);
      }
    }
  }

  /** The label loop of get_matrix: a flag switches from the P list to the S list at an "S" header. */
  method ReadLabels(lines: seq<string>) returns (r: Option<Labels>)
    ensures r == LabelSpec(lines)
  {
    var flag := true;
    var ps: seq<int> := [];
    var ss: seq<int> := [];
    for i := 0 to |lines|
      invariant LabelLoop(lines[..i]) == Some(LabelState(flag, ps, ss))
    {
      assert lines[..i + 1][..i] == lines[..i];
      var line := Text.RStripNewlines(lines[i]);
      if line == "P" {
        continue;
      } else if line == "S" {
        flag := false;
        continue;
      }
      var v := ParseLabel(lines[i]);
      if v.None? {
        LabelLoopFails(lines, i + 1);
        LabelLoopSections(lines);
        return None;
      }
      if flag {
        ps := ps + [v.value];
      } else {
        ss := ss + [v.value];
      }
    }
    assert lines[..|lines|] == lines;
    LabelLoopSections(lines);
    return Some(Labels(ps, ss));
  }

  /** Once the loop has raised, it has raised for the whole file. */
  lemma {:induction false} LabelLoopFails(lines: seq<string>, i: nat)
    requires i <= |lines| && LabelLoop(lines[..i]).None?
    ensures LabelLoop(lines).None?
    decreases |lines| - i
  {
    if i < |lines| {
      assert lines[..i + 1][..i] == lines[..i];
      LabelLoopFails(lines, i + 1);
    } else {
      assert lines[..i] == lines;
    }
  }

  // ---------------------------------------------------------------------------
  // Prediction files (get_matrix, second loop)

  /** One data line of a prediction file: a sample index with its phase probability and noise. */
  datatype Entry = Entry(key: int, prob: real, noise: real)

  /**
   * The fields of line.split(' '): int of the first, float of the second and
   * float of the third with its newline stripped. Fewer than three fields is
   * the IndexError, a field that does not convert the ValueError; both are
   * None. Python's float() is the parameter `parseReal`.
   */
  function ParseEntry(line: string, parseReal: string -> Option<real>): Option<Entry> {
    var fields := Text.Split(line, ' ');
    if |fields| < 3 then None
    else
      var key := Text.ParseInt(fields[0]);
      var prob := parseReal(fields[1]);
      var noise := parseReal(Text.RStripNewlines(fields[2]));
      if key.Some? && prob.Some? && noise.Some? then Some(Entry(key.value, prob.value, noise.value)) else None
  }

  function EntryParser(parseReal: string -> Option<real>): string -> Option<Entry> {
    line => ParseEntry(line, parseReal)
  }

  /** A prediction dictionary: sample index to [probability, noise]. */
  type PredMap = map<int, (real, real)>

  /** The dictionary that assigning the entries in order builds. */
  function ToMap(es: seq<Entry>): (m: PredMap)
    ensures forall key :: key in m <==> exists k :: 0 <= k < |es| && es[k].key == key
  {
    if es == [] then map[]
    else
      var last := es[|es| - 1];
      var m := ToMap(es[..|es| - 1])[last.key := (last.prob, last.noise)];
      assert forall key :: key in m ==> exists k :: 0 <= k < |es| && es[k].key == key by {
        forall key | key in m
          ensures exists k :: 0 <= k < |es| && es[k].key == key
        {
          if key != last.key {
            var k :| 0 <= k < |es| - 1 && es[..|es| - 1][k].key == key;
            assert es[k].key == key;
          }
        }
      }
      m
  }

  /** A repeated index keeps the values of its last line. */
  lemma {:induction false} ToMapLastWins(es: seq<Entry>, j: nat)
    requires j < |es|
    requires forall l :: j < l < |es| ==> es[l].key != es[j].key
    ensures ToMap(es)[es[j].key] == (es[j].prob, es[j].noise)
  {
    if j < |es| - 1 {
      ToMapLastWins(es[..|es| - 1], j);
    }
  }

  /** Both dictionaries of one prediction file. */
  datatype Predictions = Predictions(p: PredMap, s: PredMap)

  /**
   * What a prediction file holds: the entries before the first "S" header in
   * the P dictionary and those after it in the S dictionary, a later line for
   * the same index overriding an earlier one. None when a data line does not
   * parse.
   */
  function PredictionSpec(lines: seq<string>, parseReal: string -> Option<real>): Option<Predictions> {
    var ps := ParseAll(PSection(lines), EntryParser(parseReal));
    var ss := ParseAll(SSection(lines), EntryParser(parseReal));
    if ps.Some? && ss.Some? then Some(Predictions(ToMap(ps.value), ToMap(ss.value))) else None
  }

  /** The state of the prediction loop: the flag and the two dictionaries. */
  datatype PredState = PredState(flag: bool, p: PredMap, s: PredMap)

  /** One iteration of the prediction loop. */
  function PredStep(st: PredState, line: string, parseReal: string -> Option<real>): Option<PredState> {
    var stripped := Text.RStripNewlines(line);
    if stripped == "P" then Some(st)
    else if stripped == "S" then Some(st.(flag := false))
    else
      var e := ParseEntry(line, parseReal);
      if e.None? then None
      else if st.flag then Some(st.(p := st.p[e.value.key := (e.value.prob, e.value.noise)]))
      else Some(st.(s := st.s[e.value.key := (e.value.prob, e.value.noise)]))
  }

  /** The prediction loop run over `lines`. */
  function PredLoop(lines: seq<string>, parseReal: string -> Option<real>): Option<PredState> {
    if lines == [] then Some(PredState(true, map[], map[]))
    else
      var st := PredLoop(lines[..|lines| - 1], parseReal);
      if st.None? then None else PredStep(st.value, lines[|lines| - 1], parseReal)
  }

  lemma ToMapSnoc(es: seq<Entry>, e: Entry)
    ensures ToMap(es + [e]) == ToMap(es)[e.key := (e.prob, e.noise)]
  {
    assert (es + [e])[..|es|] == es;
  }

  /** The value the prediction loop has after `lines`, in terms of the two sections. */
  function PredExpected(lines: seq<string>, parseReal: string -> Option<real>): Option<PredState> {
    var spec := PredictionSpec(lines, parseReal);
    if spec.None? then None else Some(PredState(FirstS(lines) == |lines|, spec.value.p, spec.value.s))
  }

  /** A header line changes neither dictionary. */
  lemma PredHeaderStep(init: seq<string>, x: string, parseReal: string -> Option<real>)
    requires IsHeader(x)
    requires PredLoop(init, parseReal) == PredExpected(init, parseReal)
    ensures PredLoop(init + [x], parseReal) == PredExpected(init + [x], parseReal)
  {
    var lines := init + [x];
    assert lines[..|lines| - 1] == init;
    SectionsSnoc(init, x);
    assert PSection(init) + [] == PSection(init);
    assert SSection(init) + [] == SSection(init);
    assert PredictionSpec(lines, parseReal) == PredictionSpec(init, parseReal);
  }

  /** A data line goes into the dictionary of the section it is in. */
  lemma PredDataStep(init: seq<string>, x: string, parseReal: string -> Option<real>)
    requires !IsHeader(x)
    requires PredLoop(init, parseReal) == PredExpected(init, parseReal)
    ensures PredLoop(init + [x], parseReal) == PredExpected(init + [x], parseReal)
  {
    var lines := init + [x];
    assert lines[..|lines| - 1] == init;
    PredExpectedSnoc(init, x, parseReal);
  }

  /** What the sections hold after one more data line is one more loop step on what they held. */
  lemma PredExpectedSnoc(init: seq<string>, x: string, parseReal: string -> Option<real>)
    requires !IsHeader(x)
    ensures var e := PredExpected(init, parseReal);
      PredExpected(init + [x], parseReal) == if e.None? then None else PredStep(e.value, x, parseReal)
  {
    SectionsSnoc(init, x);
    if FirstS(init) < |init| {
      EntrySnoc(SSection(init), x, parseReal);
    } else {
      EntrySnoc(PSection(init), x, parseReal);
    }
  }

  /** One more data line in a section fails the section or assigns its entry in the dictionary. */
  lemma EntrySnoc(section: seq<string>, x: string, parseReal: string -> Option<real>)
    ensures var before := ParseAll(section, EntryParser(parseReal));
      var after := ParseAll(section + [x], EntryParser(parseReal));
      var e := ParseEntry(x, parseReal);
      && (after.Some? <==> before.Some? && e.Some?)
      && (after.Some? ==> ToMap(after.value) == ToMap(before.value)[e.value.key := (e.value.prob, e.value.noise)])
  {
    var parse := EntryParser(parseReal);
    ParseAllSnoc(section, x, parse);
    if ParseAll(section, parse).Some? && parse(x).Some? {
      ToMapSnoc(ParseAll(section, parse).value, parse(x).value);
    }
  }

  /** The prediction loop computes the dictionaries of the two sections. */
  lemma {:induction false} PredLoopSections(lines: seq<string>, parseReal: string -> Option<real>)
    ensures PredLoop(lines, parseReal) == PredExpected(lines, parseReal)
  {
    if lines != [] {
      var init := lines[..|lines| - 1];
      var x := lines[|lines| - 1];
      assert lines == init + [x];
      PredLoopSections(init, parseReal);
      if IsHeader(x) {
        PredHeaderStep(init, x, parseReal);
      } else {
        PredDataStep(init, x, parseReal);
      }
    }
  }

  lemma {:induction false} PredLoopFails(lines: seq<string>, parseReal: string -> Option<real>, i: nat)
    requires i <= |lines| && PredLoop(lines[..i], parseReal).None?
    ensures PredLoop(lines, parseReal).None?
    decreases |lines| - i
  {
    if i < |lines| {
      assert lines[..i + 1][..i] == lines[..i];
      PredLoopFails(lines, parseReal, i + 1);
    } else {
      assert lines[..i] == lines;
    }
  }

  /** The prediction loop of get_matrix: dictionary assignments, switching dictionary at an "S" header. */
  method ReadPredictions(lines: seq<string>, parseReal: string -> Option<real>) returns (r: Option<Predictions>)
    ensures r == PredictionSpec(lines, parseReal)
  {
    var flag := true;
    var pm: PredMap := map[];
    var sm: PredMap := map[];
    for i := 0 to |lines|
      invariant PredLoop(lines[..i], parseReal) == Some(PredState(flag, pm, sm))
    {
      assert lines[..i + 1][..i] == lines[..i];
      var line := Text.RStripNewlines(lines[i]);
      if line == "P" {
        continue;
      } else if line == "S" {
        flag := false;
        continue;
      }
      var e := ParseEntry(lines[i], parseReal);
      if e.None? {
        PredLoopFails(lines, parseReal, i + 1);
        PredLoopSections(lines, parseReal);
        return None;
      }
      if flag {
        pm := pm[e.value.key := (e.value.prob, e.value.noise)];
      } else {
        sm := sm[e.value.key := (e.value.prob, e.value.noise)];
      }
    }
    assert lines[..|lines|] == lines;
    PredLoopSections(lines, parseReal);
    return Some(Predictions(pm, sm));
  }

  // ---------------------------------------------------------------------------
  // Reading back a RAW file

  /** Every item parses to its value: ParseAll succeeds with the values in order. */
  lemma {:induction false} ParseAllEach<T>(items: seq<string>, parse: string -> Option<T>, vals: seq<T>)
    requires |vals| == |items|
    requires forall k :: 0 <= k < |items| ==> parse(items[k]) == Some(vals[k])
    ensures ParseAll(items, parse) == Some(vals)
  {
    if items != [] {
      var n := |items| - 1;
      ParseAllEach(items[..n], parse, vals[..n]);
      assert parse(items[n]) == Some(vals[n]);
      assert vals[..n] + [vals[n]] == vals;
    }
  }

  /** When equal indices always carry equal values, every entry is in the dictionary as written. */
  lemma {:induction false} ToMapConsistent(es: seq<Entry>)
    requires forall a, b :: 0 <= a < |es| && 0 <= b < |es| && es[a].key == es[b].key ==> es[a] == es[b]
    ensures forall k :: 0 <= k < |es| ==> ToMap(es)[es[k].key] == (es[k].prob, es[k].noise)
  {
    if es != [] {
      var init := es[..|es| - 1];
      ToMapConsistent(init);
      forall k | 0 <= k < |es|
        ensures ToMap(es)[es[k].key] == (es[k].prob, es[k].noise)
      {
        if k < |es| - 1 && es[k].key != es[|es| - 1].key {
          assert init[k] == es[k];
        }
      }
    }
  }

  /** Python's str() of a float: no blank and no newline, and float() reads it back. */
  ghost predicate ReadableFormat(fmt: real -> string, parseReal: string -> Option<real>) {
    forall x :: ' ' !in fmt(x) && '\n' !in fmt(x) && parseReal(fmt(x)).Some?
  }

  /** The entry a RAW line of window i reads back as. */
  function RawEntry(i: nat, row: Row, ph: Trace.Phase, fmt: real -> string, parseReal: string -> Option<real>): Entry
    requires ReadableFormat(fmt, parseReal)
  {
    Entry(DeltaX * i, parseReal(fmt(Trace.ProbOf(row, ph))).value, parseReal(fmt(row.noise)).value)
  }

  /** The three blank-separated fields of a RAW line with its newline. */
  lemma RawFields(key: string, a: string, b: string)
    requires ' ' !in key && ' ' !in a && ' ' !in b
    ensures Text.Split(key + " " + a + " " + b + "\n", ' ') == [key, a, b + "\n"]
  {
    assert key + " " + a + " " + b + "\n" == key + [' '] + (a + [' '] + (b + "\n"));
    Text.SplitCons(key, ' ', a + [' '] + (b + "\n"));
    Text.SplitCons(a, ' ', b + "\n");
    assert ' ' !in b + "\n";
  }

  /** A RAW line holds no newline: the index is digits and the two formatted numbers hold none. */
  lemma RawLineNoNewline(i: nat, row: Row, ph: Trace.Phase, fmt: real -> string, parseReal: string -> Option<real>)
    requires ReadableFormat(fmt, parseReal)
    ensures '\n' !in Trace.RawLine(i, row, ph, fmt)
  {
    var key := Text.NatToString(DeltaX * i);
    assert Trace.RawLine(i, row, ph, fmt) == key + " " + fmt(Trace.ProbOf(row, ph)) + " " + fmt(row.noise);
  }

  /** A RAW line with its newline is a data line that parses to its window's sample index and values. */
  lemma RawLineParses(i: nat, row: Row, ph: Trace.Phase, fmt: real -> string, parseReal: string -> Option<real>)
    requires ReadableFormat(fmt, parseReal)
    ensures !IsHeader(Trace.RawLine(i, row, ph, fmt) + "\n")
    ensures ParseEntry(Trace.RawLine(i, row, ph, fmt) + "\n", parseReal) == Some(RawEntry(i, row, ph, fmt, parseReal))
  {
    var key := Text.NatToString(DeltaX * i);
    var a := fmt(Trace.ProbOf(row, ph));
    var b := fmt(row.noise);
    var line := Trace.RawLine(i, row, ph, fmt);
    assert line == key + " " + a + " " + b;
    RawLineNoNewline(i, row, ph, fmt, parseReal);
    Text.RStripOfLine(line);
    RawFields(key, a, b);
    Text.RStripOfLine(b);
    Text.ParseIntOfNatToString(DeltaX * i);
  }

  /** The entries a phase's RAW lines read back as, in candidate order. */
  function RawEntries(der: seq<nat>, table: seq<Row>, ph: Trace.Phase, fmt: real -> string,
                      parseReal: string -> Option<real>): (es: seq<Entry>)
    requires Trace.InTable(der, table) && ReadableFormat(fmt, parseReal)
    ensures |es| == |der|
    ensures forall k :: 0 <= k < |der| ==> es[k].key == DeltaX * der[k]
  {
    seq(|der|, k requires 0 <= k < |der| => RawEntry(der[k], table[der[k]], ph, fmt, parseReal))
  }

  /** A phase's RAW lines, each with its newline, are data lines that parse to that phase's entries. */
  lemma SectionEntries(items: seq<string>, der: seq<nat>, table: seq<Row>, ph: Trace.Phase,
                       fmt: real -> string, parseReal: string -> Option<real>)
    requires Trace.InTable(der, table) && ReadableFormat(fmt, parseReal)
    requires |items| == |der|
    requires forall k :: 0 <= k < |items| ==> items[k] == Trace.RawSection(der, table, ph, fmt)[k] + "\n"
    ensures forall k :: 0 <= k < |items| ==> !IsHeader(items[k])
    ensures ParseAll(items, EntryParser(parseReal)) == Some(RawEntries(der, table, ph, fmt, parseReal))
  {
    var parse := EntryParser(parseReal);
    forall k | 0 <= k < |items|
      ensures !IsHeader(items[k])
      ensures parse(items[k]) == Some(RawEntry(der[k], table[der[k]], ph, fmt, parseReal))
    {
      RawLineParses(der[k], table[der[k]], ph, fmt, parseReal);
    }
    ParseAllEach(items, parse, RawEntries(der, table, ph, fmt, parseReal));
  }

  /** The position of the "S" header in a file laid out as "P", data lines, "S", data lines. */
  lemma FirstSOfLayout(front: seq<string>, back: seq<string>)
    requires forall k :: 0 <= k < |front| ==> !IsHeader(front[k])
    ensures FirstS(["P\n"] + front + ["S\n"] + back) == 1 + |front|
  {
    var lines := ["P\n"] + front + ["S\n"] + back;
    HeaderLines();
    LayoutSlices("P\n", front, "S\n", back);
    forall k | 0 <= k < 1 + |front|
      ensures !IsSHeader(lines[k])
    {
      if k > 0 {
        assert lines[k] == front[k - 1];
      }
    }
    FirstSAt(lines, 1 + |front|);
  }

  /** A file laid out as "P", data lines, "S", data lines has exactly those two sections. */
  lemma HeaderedSections(front: seq<string>, back: seq<string>)
    requires forall k :: 0 <= k < |front| ==> !IsHeader(front[k])
    requires forall k :: 0 <= k < |back| ==> !IsHeader(back[k])
    ensures PSection(["P\n"] + front + ["S\n"] + back) == front
    ensures SSection(["P\n"] + front + ["S\n"] + back) == back
  {
    var lines := ["P\n"] + front + ["S\n"] + back;
    FirstSOfLayout(front, back);
    LayoutSlices("P\n", front, "S\n", back);
    HeaderLines();
    DataLinesOne("P\n");
    DataLinesAppend(["P\n"], front);
    DataLinesOfData(front);
    DataLinesOfData(back);
  }

  /** No RAW line of one phase holds a newline. */
  lemma SectionNoNewline(der: seq<nat>, table: seq<Row>, ph: Trace.Phase,
                         fmt: real -> string, parseReal: string -> Option<real>)
    requires Trace.InTable(der, table) && ReadableFormat(fmt, parseReal)
    ensures Text.NoNewline(Trace.RawSection(der, table, ph, fmt))
  {
    forall k | 0 <= k < |der|
      ensures '\n' !in Trace.RawSection(der, table, ph, fmt)[k]
    {
      RawLineNoNewline(der[k], table[der[k]], ph, fmt, parseReal);
    }
  }

  /** No line of a RAW list holds a newline. */
  lemma RawNoNewline(pDer: seq<nat>, sDer: seq<nat>, table: seq<Row>,
                     fmt: real -> string, parseReal: string -> Option<real>)
    requires Trace.InTable(pDer, table) && Trace.InTable(sDer, table) && ReadableFormat(fmt, parseReal)
    ensures Text.NoNewline(["P"] + Trace.RawSection(pDer, table, Trace.P, fmt) + ["S"] + Trace.RawSection(sDer, table, Trace.S, fmt))
  {
    var a := Trace.RawSection(pDer, table, Trace.P, fmt);
    var b := Trace.RawSection(sDer, table, Trace.S, fmt);
    SectionNoNewline(pDer, table, Trace.P, fmt, parseReal);
    SectionNoNewline(sDer, table, Trace.S, fmt, parseReal);
    assert Text.NoNewline(["P"]) && Text.NoNewline(["S"]);
    Text.NoNewlineAppend(["P"], a);
    Text.NoNewlineAppend(["P"] + a, ["S"]);
    Text.NoNewlineAppend(["P"] + a + ["S"], b);
  }

  /** The lines read back from a RAW list are its items, each with a newline. */
  lemma RawText(a: seq<string>, b: seq<string>)
    requires Text.NoNewline(["P"] + a + ["S"] + b)
    ensures Text.ReadLines(Text.WriteLines(["P"] + a + ["S"] + b)) == ["P\n"] + Text.Lines(a) + ["S\n"] + Text.Lines(b)
  {
    var pa := ["P"] + a;
    var pas := pa + ["S"];
    Text.ReadLinesOfWriteLines(pas + b);
    Text.LinesAppend(pas, b);
    Text.LinesAppend(pa, ["S"]);
    Text.LinesAppend(["P"], a);
    Text.LinesOne("P");
    Text.LinesOne("S");
    assert "P" + "\n" == "P\n";
    assert "S" + "\n" == "S\n";
  }

  /** The parts of a sequence laid out as x, a, y, b. */
  lemma LayoutSlices<T>(x: T, a: seq<T>, y: T, b: seq<T>)
    ensures var l := [x] + a + [y] + b;
      && l[0] == x && l[1 + |a|] == y
      && (forall k :: 0 <= k < |a| ==> l[1 + k] == a[k])
      && l[0..1 + |a|] == [x] + a && l[1..1 + |a|] == a && l[2 + |a|..] == b
  {
    var l := [x] + a + [y] + b;
    assert l[0..1 + |a|] == [x] + a;
    assert l[1..1 + |a|] == a;
    assert l[2 + |a|..] == b;
  }

  /** A file laid out as "P", the P lines, "S", the S lines holds what those lines parse to. */
  lemma LayoutPredictions(front: seq<string>, back: seq<string>, pe: seq<Entry>, se: seq<Entry>,
                          parseReal: string -> Option<real>)
    requires forall k :: 0 <= k < |front| ==> !IsHeader(front[k])
    requires forall k :: 0 <= k < |back| ==> !IsHeader(back[k])
    requires ParseAll(front, EntryParser(parseReal)) == Some(pe)
    requires ParseAll(back, EntryParser(parseReal)) == Some(se)
    ensures PredictionSpec(["P\n"] + front + ["S\n"] + back, parseReal) == Some(Predictions(ToMap(pe), ToMap(se)))
  {
    HeaderedSections(front, back);
  }

  /**
   * Reading back the RAW text of a prediction (get_raw written line by line)
   * with the prediction-file loop: the P candidates' entries land in the P
   * dictionary and the S candidates' in the S dictionary.
   */
  lemma RawRoundTrip(pDer: seq<nat>, sDer: seq<nat>, table: seq<Row>,
                     fmt: real -> string, parseReal: string -> Option<real>)
    requires Trace.InTable(pDer, table) && Trace.InTable(sDer, table) && ReadableFormat(fmt, parseReal)
    ensures var raw := ["P"] + Trace.RawSection(pDer, table, Trace.P, fmt) + ["S"] + Trace.RawSection(sDer, table, Trace.S, fmt);
      && Text.NoNewline(raw)
      && PredictionSpec(Text.ReadLines(Text.WriteLines(raw)), parseReal)
         == Some(Predictions(ToMap(RawEntries(pDer, table, Trace.P, fmt, parseReal)),
                             ToMap(RawEntries(sDer, table, Trace.S, fmt, parseReal))))
  {
    var a := Trace.RawSection(pDer, table, Trace.P, fmt);
    var b := Trace.RawSection(sDer, table, Trace.S, fmt);
    var raw := ["P"] + a + ["S"] + b;
    RawNoNewline(pDer, sDer, table, fmt, parseReal);
    var front := Text.Lines(a);
    var back := Text.Lines(b);
    RawText(a, b);
    SectionEntries(front, pDer, table, Trace.P, fmt, parseReal);
    SectionEntries(back, sDer, table, Trace.S, fmt, parseReal);
    LayoutPredictions(front, back, RawEntries(pDer, table, Trace.P, fmt, parseReal),
                      RawEntries(sDer, table, Trace.S, fmt, parseReal), parseReal);
  }

  /** The dictionary a phase's RAW lines read back as holds exactly the candidates' sample indices. */
  lemma RawMapKeys(der: seq<nat>, table: seq<Row>, ph: Trace.Phase, fmt: real -> string,
                   parseReal: string -> Option<real>)
    requires Trace.InTable(der, table) && ReadableFormat(fmt, parseReal)
    ensures forall key :: key in ToMap(RawEntries(der, table, ph, fmt, parseReal)) <==>
      exists k :: 0 <= k < |der| && key == DeltaX * der[k]
  {
    var es := RawEntries(der, table, ph, fmt, parseReal);
    var m := ToMap(es);
    forall key
      ensures key in m <==> exists k :: 0 <= k < |der| && key == DeltaX * der[k]
    {
      if key in m {
        var k :| 0 <= k < |es| && es[k].key == key;
        assert key == DeltaX * der[k];
      }
      if exists k :: 0 <= k < |der| && key == DeltaX * der[k] {
        var k :| 0 <= k < |der| && key == DeltaX * der[k];
        assert es[k].key == key;
      }
    }
  }

  /**
   * In that dictionary each candidate's sample index maps to its formatted
   * probability and noise read back: no two candidates share an index.
   */
  lemma RawMapValues(der: seq<nat>, table: seq<Row>, ph: Trace.Phase, fmt: real -> string,
                     parseReal: string -> Option<real>)
    requires Trace.InTable(der, table) && ReadableFormat(fmt, parseReal)
    ensures forall k :: 0 <= k < |der| ==>
      ToMap(RawEntries(der, table, ph, fmt, parseReal))[DeltaX * der[k]]
        == (parseReal(fmt(Trace.ProbOf(table[der[k]], ph))).value, parseReal(fmt(table[der[k]].noise)).value)
  {
    var es := RawEntries(der, table, ph, fmt, parseReal);
    forall a, b | 0 <= a < |es| && 0 <= b < |es| && es[a].key == es[b].key
      ensures es[a] == es[b]
    {
      assert der[a] == der[b];
    }
    ToMapConsistent(es);
    forall k | 0 <= k < |der|
      ensures ToMap(es)[DeltaX * der[k]]
        == (parseReal(fmt(Trace.ProbOf(table[der[k]], ph))).value, parseReal(fmt(table[der[k]].noise)).value)
    {
      assert es[k] == RawEntry(der[k], table[der[k]], ph, fmt, parseReal);
    }
  }

  /**
   * Saving a predicted widget's RAW list and reading the file back with the
   * prediction-file loop gives, per phase, the dictionary that RawMapKeys and
   * RawMapValues describe.
   */
  lemma RawReadBack(w: Trace.TraceWidget, fmt: real -> string, parseReal: string -> Option<real>)
    requires Trace.InTable(w.p.der, w.table) && Trace.InTable(w.s.der, w.table)
    requires ReadableFormat(fmt, parseReal) && w.predicted
    ensures w.GetRaw(fmt).Some?
    ensures PredictionSpec(Text.ReadLines(Text.WriteLines(w.GetRaw(fmt).value)), parseReal)
         == Some(Predictions(ToMap(RawEntries(w.p.der, w.table, Trace.P, fmt, parseReal)),
                             ToMap(RawEntries(w.s.der, w.table, Trace.S, fmt, parseReal))))
  {
    var raw := w.GetRaw(fmt).value;
    var a := Trace.RawSection(w.p.der, w.table, Trace.P, fmt);
    var b := Trace.RawSection(w.s.der, w.table, Trace.S, fmt);
    assert raw == ["P"] + a + ["S"] + b by {
      LayoutSlices("P", a, "S", b);
    }
    RawRoundTrip(w.p.der, w.s.der, w.table, fmt, parseReal);
  }
}
