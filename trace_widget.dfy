/**
 * TraceWidget.py: one seismogram on screen with its P and S pick sets. For each
 * phase the widget keeps the classifier's candidate windows (`der`), the subset
 * that passes the two slider thresholds (`filt`), one marker per shown pick and
 * the marker the user last clicked. The index/position converters and the RAW
 * and PKS text writers live here too.
 */
module Trace {
  import opened Wrappers
  import Text
  import opened NeuralNetwork
  import opened TriadeLines
  import opened Seismograms

  datatype Phase = P | S

  /** The marker class a phase draws with. */
  function KindOf(ph: Phase): Kind {
    if ph == P then PLine else SLine
  }

  /** The header name of a phase in RAW and PKS output. */
  function NameOf(ph: Phase): string {
    if ph == P then "P" else "S"
  }

  /** The probability column a phase reads: column 0 for P, column 1 for S. */
  function ProbOf(row: Row, ph: Phase): real {
    if ph == P then row.p else row.s
  }

  // ---------------------------------------------------------------------------
  // Index and position converters

  /** _graphic_index_from_model: the first sample of window `i`. */
  function GraphicIndexFromModel(i: nat): (g: nat)
    ensures ModelIndexFromGraphic(g) == i
  {
    DeltaX * i
  }

  /** _model_index_from_graphic: the window whose stride block holds sample `g`. */
  function ModelIndexFromGraphic(g: nat): (i: nat)
    ensures DeltaX * i <= g < DeltaX * (i + 1)
  {
    g / DeltaX
  }

  /** Python's int() on a float: truncation toward zero. */
  function Trunc(x: real): (r: int)
    ensures x >= 0.0 ==> r as real <= x < r as real + 1.0
    ensures x < 0.0 ==> r as real - 1.0 < x <= r as real
  {
    if x >= 0.0 then x.Floor else -((-x).Floor)
  }

  /** _generate_timestamp_list: n evenly spaced times from start to end. */
  function TimestampList(start: real, end: real, n: nat): (ts: seq<real>)
    requires n >= 2
    ensures |ts| == n && ts[0] == start && ts[n - 1] == end
    ensures forall g :: 0 <= g < n ==> ts[g] == start + (g as real) * ((end - start) / ((n - 1) as real))
  {
    var interval := (end - start) / ((n - 1) as real);
    var ts := seq(n, g requires 0 <= g < n => start + (g as real) * interval);
    assert ts[n - 1] == start + ((n - 1) as real) * interval;
    DivCancel(end - start, (n - 1) as real);
    assert ts[0] == start + 0.0 * interval;
    ts
  }

  lemma DivCancel(d: real, m: real)
    requires m > 0.0
    ensures m * (d / m) == d
  {
  }

  lemma RealMulNonneg(a: real, b: real)
    requires a >= 0.0 && b >= 0.0
    ensures a * b >= 0.0
  {
  }

  lemma RealMulPos(a: real, b: real)
    requires a > 0.0 && b > 0.0
    ensures a * b > 0.0
  {
  }

  lemma PosFactor(a: real, b: real)
    requires b > 0.0 && a * b > 0.0
    ensures a > 0.0
  {
  }

  /** Where a / d * n falls when a is before, inside or after [0, d). */
  lemma ScaledFraction(a: real, d: real, n: real)
    requires d > 0.0 && n > 0.0
    ensures a <= 0.0 ==> a / d * n <= 0.0
    ensures a >= d ==> a / d * n >= n
    ensures 0.0 <= a < d ==> 0.0 <= a / d * n < n
  {
    var q := a / d;
    assert q * d == a;
    if a <= 0.0 {
      assert q <= 0.0;
    }
    if a >= d {
      assert q >= 1.0;
      RealMulNonneg(q - 1.0, n);
      assert q * n == (q - 1.0) * n + n;
    }
    if 0.0 <= a < d {
      var r := 1.0 - q;
      calc {
        r * d;
        d - q * d;
        d - a;
      }
      PosFactor(r, d);
      RealMulNonneg(q, n);
      RealMulPos(1.0 - q, n);
      assert q * n == n - (1.0 - q) * n;
    }
  }

  /** Time x as a fractional sample position: (x - start) / (end - start) * n. */
  function Scale(start: real, end: real, n: nat, x: real): (v: real)
    requires start < end && n >= 1
    ensures x <= start ==> v <= 0.0
    ensures x >= end ==> v >= n as real
    ensures start <= x < end ==> 0.0 <= v < n as real
  {
    ScaledFraction(x - start, end - start, n as real);
    (x - start) / (end - start) * (n as real)
  }

  /**
   * _graphic_index_from_position: the sample under time `x`, scaled over the
   * record and clamped into [0, n-1].
   */
  function GraphicIndexFromPosition(start: real, end: real, n: nat, x: real): (g: nat)
    requires start < end && n >= 1
    ensures g < n
    ensures x <= start ==> g == 0
    ensures x >= end ==> g == n - 1
    ensures start <= x < end ==> (g as real) <= Scale(start, end, n, x) < (g + 1) as real
  {
    var index := Trunc(Scale(start, end, n, x));
    if index < 0 then 0 else if index >= n then n - 1 else index
  }

  lemma TimestampFraction(start: real, end: real, n: nat, g: nat)
    requires start < end && n >= 2 && g < n
    ensures Scale(start, end, n, TimestampList(start, end, n)[g]) == (g as real) + (g as real) / ((n - 1) as real)
  {
    var d := end - start;
    var m := (n - 1) as real;
    var gr := g as real;
    var x := TimestampList(start, end, n)[g];
    assert x - start == gr * (d / m);
    assert gr * (d / m) / d == gr / m;
    assert gr / m * (n as real) == gr / m * (m + 1.0);
    assert gr / m * (m + 1.0) == gr / m * m + gr / m;
    assert gr / m * m == gr;
  }

  /** The timestamp of sample g maps back to sample g. */
  lemma PositionRoundTrip(start: real, end: real, n: nat, g: nat)
    requires start < end && n >= 2 && g < n
    ensures GraphicIndexFromPosition(start, end, n, TimestampList(start, end, n)[g]) == g
  {
    if g < n - 1 {
      var v := Scale(start, end, n, TimestampList(start, end, n)[g]);
      TimestampFraction(start, end, n, g);
      FractionBelowOne(g, n - 1);
      assert g as real <= v < (g + 1) as real;
      TruncWithin(v, g);
    }
  }

  lemma FractionBelowOne(g: nat, m: nat)
    requires g < m
    ensures 0.0 <= (g as real) / (m as real) < 1.0
  {
  }

  /** A non-negative number between g and g + 1 truncates to g. */
  lemma TruncWithin(v: real, g: nat)
    requires g as real <= v < (g + 1) as real
    ensures Trunc(v) == g
  {
  }

  /** A marker drawn for window i is read back as window i when it is deleted. */
  lemma MarkerIndexRoundTrip(start: real, end: real, n: nat, i: nat)
    requires start < end && n >= 2 && DeltaX * i < n
    ensures ModelIndexFromGraphic(GraphicIndexFromPosition(start, end, n,
              TimestampList(start, end, n)[GraphicIndexFromModel(i)])) == i
  {
    PositionRoundTrip(start, end, n, GraphicIndexFromModel(i));
  }

  // ---------------------------------------------------------------------------
  // The threshold rule

  datatype Slider = Confidence | Noise

  /** A slider position in [0, 100] read as a probability. */
  function Threshold(value: int): real {
    value as real / 100.0
  }

  /**
   * _get_thresholds: both sliders of the phase are read; the slider that emitted
   * the change supplies the value it emitted.
   */
  function GetThresholds(confidence: int, noise: int, moved: Slider, value: int): (t: (real, real))
    ensures t.0 == Threshold(if moved == Confidence then value else confidence)
    ensures t.1 == Threshold(if moved == Noise then value else noise)
  {
    var first := Threshold(confidence);
    var second := Threshold(noise);
    (if moved == Confidence then Threshold(value) else first,
     if moved == Noise then Threshold(value) else second)
  }

  /** A window is accepted when its phase probability beats `first` and its noise stays under `second`. */
  predicate Passes(row: Row, ph: Phase, first: real, second: real) {
    ProbOf(row, ph) > first && row.noise < second
  }

  predicate InTable(der: seq<nat>, table: seq<Row>) {
    forall k :: 0 <= k < |der| ==> der[k] < |table|
  }

  predicate Distinct<T(==)>(s: seq<T>) {
    forall j, k :: 0 <= j < k < |s| ==> s[j] != s[k]
  }

  /** `r` is `s` with some elements dropped and the rest in their original order. */
  predicate IsSubseq<T(==)>(r: seq<T>, s: seq<T>)
    decreases |s|
  {
    if r == [] then true
    else if s == [] then false
    else if r[|r| - 1] == s[|s| - 1] then IsSubseq(r[..|r| - 1], s[..|s| - 1])
    else IsSubseq(r, s[..|s| - 1])
  }

  /**
   * The accepted list: the candidates that pass, in candidate order. This is the
   * list _update_values rebuilds by appending in a loop.
   */
  function Accepted(der: seq<nat>, table: seq<Row>, ph: Phase, first: real, second: real): (r: seq<nat>)
    requires InTable(der, table)
    ensures forall i :: i in r <==> i in der && Passes(table[i], ph, first, second)
    ensures IsSubseq(r, der) && InTable(r, table)
  {
    if der == [] then []
    else
      var last := der[|der| - 1];
      assert der == der[..|der| - 1] + [last];
      var init := Accepted(der[..|der| - 1], table, ph, first, second);
      if Passes(table[last], ph, first, second) then
        assert (init + [last])[..|init|] == init;
        init + [last]
      else
        assert init == [] || init[|init| - 1] != last;
        init
  }

  /** One more candidate at the end is appended to the accepted list exactly when it passes. */
  lemma AcceptedSnoc(der: seq<nat>, x: nat, table: seq<Row>, ph: Phase, first: real, second: real)
    requires InTable(der, table) && x < |table|
    ensures InTable(der + [x], table)
    ensures Accepted(der + [x], table, ph, first, second)
         == Accepted(der, table, ph, first, second) + (if Passes(table[x], ph, first, second) then [x] else [])
  {
    assert (der + [x])[..|der|] == der;
  }

  /**
   * A stricter pair of thresholds accepts exactly what it accepts from the looser
   * pair's list: raising the confidence or lowering the noise threshold only
   * drops picks, in order.
   */
  lemma {:induction false} AcceptedMonotone(der: seq<nat>, table: seq<Row>, ph: Phase,
                                             first1: real, second1: real, first2: real, second2: real)
    requires InTable(der, table)
    requires first1 <= first2 && second2 <= second1
    ensures Accepted(der, table, ph, first2, second2)
         == Accepted(Accepted(der, table, ph, first1, second1), table, ph, first2, second2)
    ensures IsSubseq(Accepted(der, table, ph, first2, second2), Accepted(der, table, ph, first1, second1))
  {
    if der != [] {
      var init := der[..|der| - 1];
      var last := der[|der| - 1];
      assert der == init + [last];
      AcceptedMonotone(init, table, ph, first1, second1, first2, second2);
      var loose := Accepted(init, table, ph, first1, second1);
      var strict := Accepted(init, table, ph, first2, second2);
      var tail2 := if Passes(table[last], ph, first2, second2) then [last] else [];
      AcceptedSnoc(init, last, table, ph, first2, second2);
      assert Accepted(der, table, ph, first2, second2) == strict + tail2;
      AcceptedSnoc(init, last, table, ph, first1, second1);
      if Passes(table[last], ph, first1, second1) {
        assert Accepted(der, table, ph, first1, second1) == loose + [last];
        AcceptedSnoc(loose, last, table, ph, first2, second2);
        assert Accepted(loose + [last], table, ph, first2, second2) == strict + tail2;
      } else {
        assert Accepted(der, table, ph, first1, second1) == loose;
        assert tail2 == [];
      }
    }
  }

  /** Recomputing with the same thresholds gives the same list. */
  lemma AcceptedIdempotent(der: seq<nat>, table: seq<Row>, ph: Phase, first: real, second: real)
    requires InTable(der, table)
    ensures Accepted(Accepted(der, table, ph, first, second), table, ph, first, second)
         == Accepted(der, table, ph, first, second)
  {
    AcceptedMonotone(der, table, ph, first, second, first, second);
  }

  /** Python's list.remove: drops the first occurrence of x. */
  function RemoveFirst<T(==)>(s: seq<T>, x: T): (r: seq<T>)
    requires x in s
    ensures multiset(r) == multiset(s) - multiset{x}
    ensures IsSubseq(r, s)
    ensures forall y :: y in r ==> y in s
  {
    if s[0] == x then
      assert s == [s[0]] + s[1..];
      SuffixIsSubseq(s);
      s[1..]
    else
      var rest := RemoveFirst(s[1..], x);
      assert s == [s[0]] + s[1..];
      ConsSubseq(s[0], rest, s[1..]);
      [s[0]] + rest
  }

  lemma {:induction false} SuffixIsSubseq<T>(s: seq<T>)
    requires |s| >= 1
    ensures IsSubseq(s[1..], s)
  {
    if |s| > 1 {
      SuffixIsSubseq(s[..|s| - 1]);
      assert s[..|s| - 1][1..] == s[1..][..|s[1..]| - 1];
    }
  }

  lemma {:induction false} ConsSubseq<T>(x: T, r: seq<T>, s: seq<T>)
    requires IsSubseq(r, s)
    ensures IsSubseq([x] + r, [x] + s)
    decreases |s|
  {
    if r == [] {
      assert [x] + r == [x];
      HeadSubseq(x, s);
    } else if r[|r| - 1] == s[|s| - 1] {
      ConsSubseq(x, r[..|r| - 1], s[..|s| - 1]);
      assert ([x] + r)[..|r|] == [x] + r[..|r| - 1];
      assert ([x] + s)[..|s|] == [x] + s[..|s| - 1];
    } else {
      ConsSubseq(x, r, s[..|s| - 1]);
      assert ([x] + s)[..|s|] == [x] + s[..|s| - 1];
    }
  }

  lemma {:induction false} HeadSubseq<T>(x: T, s: seq<T>)
    ensures IsSubseq([x], [x] + s)
    decreases |s|
  {
    if s != [] && x != s[|s| - 1] {
      HeadSubseq(x, s[..|s| - 1]);
      assert ([x] + s)[..|s|] == [x] + s[..|s| - 1];
    }
  }

  /** In a list without repeats, list.remove takes x out entirely and keeps the rest distinct. */
  lemma {:induction false} RemoveFirstDistinct<T>(s: seq<T>, x: T)
    requires x in s && Distinct(s)
    ensures Distinct(RemoveFirst(s, x)) && x !in RemoveFirst(s, x)
  {
    if s[0] != x {
      RemoveFirstDistinct(s[1..], x);
      var rest := RemoveFirst(s[1..], x);
      assert s[0] !in rest;
      assert RemoveFirst(s, x) == [s[0]] + rest;
    }
  }

  /** Once a window is out of the candidate list, no threshold brings it back. */
  lemma DeletionIsPermanent(der: seq<nat>, table: seq<Row>, ph: Phase, i: nat, first: real, second: real)
    requires InTable(der, table) && Distinct(der) && i in der
    ensures InTable(RemoveFirst(der, i), table)
    ensures i !in Accepted(RemoveFirst(der, i), table, ph, first, second)
  {
    RemoveFirstDistinct(der, i);
    var r := RemoveFirst(der, i);
    forall k | 0 <= k < |r|
      ensures r[k] < |table|
    {
      assert r[k] in r;
    }
  }

  // ---------------------------------------------------------------------------
  // Text output

  /** One RAW line: the window's first sample, its phase probability and its noise probability. */
  function RawLine(i: nat, row: Row, ph: Phase, fmt: real -> string): string {
    Text.NatToString(GraphicIndexFromModel(i)) + " " + fmt(ProbOf(row, ph)) + " " + fmt(row.noise)
  }

  /** The RAW lines of one phase: one per remaining candidate, in candidate order. */
  function RawSection(der: seq<nat>, table: seq<Row>, ph: Phase, fmt: real -> string): (r: seq<string>)
    requires InTable(der, table)
    ensures |r| == |der|
    ensures forall k :: 0 <= k < |der| ==> r[k] == RawLine(der[k], table[der[k]], ph, fmt)
  {
    seq(|der|, k requires 0 <= k < |der| => RawLine(der[k], table[der[k]], ph, fmt))
  }

  /** One PKS line; the calendar formatting of the pick time is the parameter `fmtTime`. */
  function PksLine(station: string, channel: string, network: string, name: string,
                   time: string, amplitude: string): string
  {
    "#T" + station + " " + channel + " " + network + " " + name + " ? e " + time + " " + amplitude
  }

  // ---------------------------------------------------------------------------
  // Widget state

  /** The widget's "apply operation" check box, toggled by the main window. */
  class CheckBox {
    var checked: bool

    constructor (checked: bool)
      ensures this.checked == checked
    {
      this.checked := checked;
    }
  }

  /**
   * The p_types / s_types dictionary of one phase together with its two sliders:
   * the candidate list, the accepted list and the markers are the same list
   * objects the widget's own attributes name.
   */
  class PickSet {
    const phase: Phase
    var der: seq<nat>
    var filt: seq<nat>
    var lines: seq<VerticalTriadeLine>
    var confidence: int
    var noise: int
    /** Every marker of this phase ever drawn; removed markers stay here, still whole. */
    ghost var Repr: set<VerticalTriadeLine>

    ghost predicate Valid()
      reads this`lines, this`Repr, Repr
    {
      && (forall m :: m in lines ==> m in Repr)
      && (forall m :: m in Repr ==> m.Valid() && m.kind == KindOf(phase))
    }

    constructor (phase: Phase, confidence: int, noise: int)
      ensures Valid() && Repr == {}
      ensures this.phase == phase && this.confidence == confidence && this.noise == noise
      ensures der == [] && filt == [] && lines == []
    {
      this.phase := phase;
      this.confidence := confidence;
      this.noise := noise;
      der := [];
      filt := [];
      lines := [];
      Repr := {};
    }

    function SliderValue(slider: Slider): int
      reads this
    {
      if slider == Confidence then confidence else noise
    }

    /**
     * The body of _update_values' loop: the accepted list is cleared, then every
     * candidate that passes both thresholds is appended, in candidate order.
     */
    method Filter(table: seq<Row>, first: real, second: real)
      requires InTable(der, table)
      modifies this`filt
      ensures filt == Accepted(der, table, phase, first, second)
    {
      filt := [];
      var k := 0;
      while k < |der|
        invariant 0 <= k <= |der|
        invariant filt == Accepted(der[..k], table, phase, first, second)
      {
        assert der[..k + 1] == der[..k] + [der[k]];
        assert der[..k + 1][..k] == der[..k];
        if Passes(table[der[k]], phase, first, second) {
          filt := filt + [der[k]];
        }
        k := k + 1;
      }
      assert der[..k] == der;
    }

    /**
     * The list updates of _delete_line for window `mi`: when it is accepted it
     * leaves the accepted list, then the candidate list; `raised` is der.remove
     * failing because an accepted list from an older prediction names a window
     * the current candidate list lacks. Every bound the lists had is kept.
     */
    method DropIndex(mi: nat, table: seq<Row>, n: nat) returns (raised: bool)
      requires InTable(der, table) && Distinct(der)
      requires forall k :: 0 <= k < |der| ==> DeltaX * der[k] < n
      requires forall k :: 0 <= k < |filt| ==> DeltaX * filt[k] < n
      modifies this`filt, this`der
      ensures raised <==> mi in old(filt) && mi !in old(der)
      ensures Dropped(filt, der, old(filt), old(der), mi)
      ensures mi in old(filt) && mi in old(der) ==> mi !in der
      ensures InTable(der, table) && Distinct(der)
      ensures forall k :: 0 <= k < |der| ==> DeltaX * der[k] < n
      ensures forall k :: 0 <= k < |filt| ==> DeltaX * filt[k] < n
    {
      raised := false;
      if mi in filt {
        RemoveFirstBounded(filt, mi, [], n, false);
        filt := RemoveFirst(filt, mi);
        if mi !in der {
          raised := true;
          return;
        }
        RemoveFirstBounded(der, mi, table, n, true);
        RemoveFirstDistinct(der, mi);
        der := RemoveFirst(der, mi);
      }
    }

    /** A marker leaves the phase's marker list (the first occurrence, if it is there). */
    method DropLine(marker: VerticalTriadeLine)
      requires Valid()
      modifies this`lines
      ensures Valid()
      ensures lines == LinesWithout(old(lines), marker)
    {
      if marker in lines {
        lines := RemoveFirst(lines, marker);
      }
    }

    /**
     * Deleting the window `mi` with its marker: the window is dropped from the
     * lists (see DropIndex) and, unless that raised, the marker leaves the list.
     */
    method Delete(mi: nat, marker: VerticalTriadeLine, table: seq<Row>, n: nat) returns (raised: bool)
      requires Valid() && InTable(der, table) && Distinct(der)
      requires forall k :: 0 <= k < |der| ==> DeltaX * der[k] < n
      requires forall k :: 0 <= k < |filt| ==> DeltaX * filt[k] < n
      modifies this`filt, this`der, this`lines
      ensures Valid()
      ensures raised <==> mi in old(filt) && mi !in old(der)
      ensures Dropped(filt, der, old(filt), old(der), mi)
      ensures mi in old(filt) && mi in old(der) ==> mi !in der
      ensures lines == if raised then old(lines) else LinesWithout(old(lines), marker)
      ensures InTable(der, table) && Distinct(der)
      ensures forall k :: 0 <= k < |der| ==> DeltaX * der[k] < n
      ensures forall k :: 0 <= k < |filt| ==> DeltaX * filt[k] < n
    {
      raised := DropIndex(mi, table, n);
      if !raised {
        DropLine(marker);
      }
    }

    /**
     * The loop of _show_prediction after _clear_prediction: one fresh marker of
     * the phase per accepted window, at that window's first sample in `ts`.
     */
    method ShowMarkers(ts: seq<real>)
      requires Valid()
      requires forall k :: 0 <= k < |filt| ==> DeltaX * filt[k] < |ts|
      modifies this`lines, this`Repr
      ensures Valid() && old(Repr) <= Repr && fresh(Repr - old(Repr))
      ensures |lines| == |filt|
      ensures forall k :: 0 <= k < |lines| ==>
        && fresh(lines[k])
        && lines[k].Valid()
        && lines[k].lines[0] == LineState(ts[GraphicIndexFromModel(filt[k])], false, lines[k].basePen, HoverPen)
    {
      lines := [];
      var k := 0;
      while k < |filt|
        invariant 0 <= k <= |filt| && |lines| == k
        invariant Valid() && old(Repr) <= Repr && fresh(Repr - old(Repr))
        invariant forall j :: 0 <= j < k ==>
          && fresh(lines[j])
          && lines[j].Valid()
          && lines[j].lines[0] == LineState(ts[GraphicIndexFromModel(filt[j])], false, lines[j].basePen, HoverPen)
      {
        var marker := new VerticalTriadeLine(KindOf(phase), ts[GraphicIndexFromModel(filt[k])]);
        lines := lines + [marker];
        Repr := Repr + {marker};
        k := k + 1;
      }
    }

    /** A slider of the phase takes a new position. */
    method SetSlider(slider: Slider, value: int)
      modifies this`confidence, this`noise
      ensures SliderValue(slider) == value
      ensures slider == Confidence ==> confidence == value && noise == old(noise)
      ensures slider == Noise ==> noise == value && confidence == old(confidence)
    {
      if slider == Confidence {
        confidence := value;
      } else {
        noise := value;
      }
    }

    /** The loop that puts every marker of the list back to its base pen. */
    method ResetPens()
      requires Valid()
      modifies lines
      ensures Valid()
      ensures forall m :: m in lines ==> m.lines[0] == old(m.lines[0]).(pen := m.basePen)
    {
      var k := 0;
      while k < |lines|
        invariant 0 <= k <= |lines|
        invariant Valid()
        invariant forall m :: m in lines[..k] ==>
          m.Valid() && old(m.Valid()) && m.lines[0] == old(m.lines[0]).(pen := m.basePen)
        invariant forall m :: m in lines && m !in lines[..k] ==> m.lines == old(m.lines)
      {
        var m := lines[k];
        assert lines[..k + 1] == lines[..k] + [m];
        m.SetPen(m.basePen);
        k := k + 1;
      }
      assert lines[..k] == lines;
    }
  }

  /** list.remove on the marker list, where a marker no longer in the list raises and changes nothing. */
  function LinesWithout(lines: seq<VerticalTriadeLine>, m: VerticalTriadeLine): seq<VerticalTriadeLine> {
    if m in lines then RemoveFirst(lines, m) else lines
  }

  datatype Key = KeyD | KeyR | KeyM | KeyF | KeyB | KeyN | OtherKey

  class TraceWidget {
    const seismogram: Seismogram
    const checkbox: CheckBox
    /** Samples per channel, fixed when the widget is built. */
    const n: nat
    const p: PickSet
    const s: PickSet
    /** The classifier's table, meaningful while `predicted`. */
    var table: seq<Row>
    /** self.prediction is not None. */
    var predicted: bool
    /** set_prediction has filled the p_types and s_types dictionaries at least once. */
    var populated: bool
    /** _update_values is connected to the sliders' valueChanged signal. */
    var slidersConnected: bool
    var selected: VerticalTriadeLine?

    function Start(): real {
      seismogram.startTime
    }

    function End(): real {
      seismogram.endTime
    }

    /** timestamp_list, built once from the record's time bounds. */
    function Timestamps(): seq<real>
      requires n >= 2
    {
      TimestampList(Start(), End(), n)
    }

    /** object_to_types on a phase. */
    function SetOf(ph: Phase): PickSet {
      if ph == P then p else s
    }

    /** object_to_types on a marker class. */
    function PhaseOfKind(k: Kind): Phase {
      if k == PLine then P else S
    }

    /** The record's shape and time span, fixed at construction. */
    predicate Geometry() {
      IsThreeChannel(seismogram.resampled) && n == |seismogram.resampled[0]| && n >= 2 && Start() < End()
    }

    ghost function Repr(): set<object>
      reads this, p, s
    {
      {this, p, s} + p.Repr + s.Repr
    }

    /** The index lists of a phase point into the table and into the signal. */
    ghost predicate Indices(ps: PickSet)
      reads this`table, ps`der, ps`filt
    {
      && InTable(ps.der, table)
      && (forall k :: 0 <= k < |ps.der| ==> DeltaX * ps.der[k] < n)
      && (forall k :: 0 <= k < |ps.filt| ==> DeltaX * ps.filt[k] < n)
      && Distinct(ps.der)
    }

    ghost predicate Valid()
      reads this`table, this`predicted, this`populated, this`selected
      reads p`lines, p`Repr, p`der, p`filt, s`lines, s`Repr, s`der, s`filt, p.Repr, s.Repr
    {
      && p != s && p.phase == P && s.phase == S
      && Geometry()
      && p.Valid() && s.Valid() && Indices(p) && Indices(s)
      && (selected != null ==> selected.kind != Plain && selected in SetOf(PhaseOfKind(selected.kind)).Repr)
      && (predicted ==> populated)
      && (!populated ==> p.lines == [] && s.lines == [] && selected == null)
    }

    /** One marker per accepted window of `ps`, fixed, at the window's first sample. */
    ghost predicate MarkersShown(ps: PickSet)
      reads this, ps, ps.lines
    {
      && n >= 2
      && |ps.lines| == |ps.filt|
      && forall k :: 0 <= k < |ps.lines| ==>
           && |ps.lines[k].lines| == 3
           && DeltaX * ps.filt[k] < n
           && ps.lines[k].lines[0] == LineState(Timestamps()[GraphicIndexFromModel(ps.filt[k])], false,
                                                ps.lines[k].basePen, HoverPen)
    }

    /** The phase shows what its two sliders select: the accepted list and its markers. */
    ghost predicate Shows(ps: PickSet)
      reads this, ps, ps.lines
    {
      && InTable(ps.der, table)
      && ps.filt == Accepted(ps.der, table, ps.phase, Threshold(ps.confidence), Threshold(ps.noise))
      && MarkersShown(ps)
    }

    constructor (seismogram: Seismogram, checkbox: CheckBox,
                 confidenceP: int, noiseP: int, confidenceS: int, noiseS: int)
      requires IsThreeChannel(seismogram.resampled) && |seismogram.resampled[0]| >= 2
      requires seismogram.startTime < seismogram.endTime
      ensures Valid() && fresh(Repr())
      ensures this.seismogram == seismogram && this.checkbox == checkbox
      ensures n == |seismogram.resampled[0]|
      ensures !populated && !predicted && !slidersConnected && selected == null
      ensures p.der == [] && p.filt == [] && p.lines == [] && s.der == [] && s.filt == [] && s.lines == []
      ensures p.confidence == confidenceP && p.noise == noiseP
      ensures s.confidence == confidenceS && s.noise == noiseS
    {
      this.seismogram := seismogram;
      this.checkbox := checkbox;
      n := |seismogram.resampled[0]|;
      p := new PickSet(P, confidenceP, noiseP);
      s := new PickSet(S, confidenceS, noiseS);
      table := [];
      predicted := false;
      populated := false;
      slidersConnected := false;
      selected := null;
    }

    /** set_prediction: the table and both candidate lists; accepted lists and markers stay as they were. */
    method SetPrediction(table: seq<Row>, pDer: seq<nat>, sDer: seq<nat>)
      requires Valid()
      requires InTable(pDer, table) && InTable(sDer, table)
      requires forall k :: 0 <= k < |pDer| ==> DeltaX * pDer[k] < n
      requires forall k :: 0 <= k < |sDer| ==> DeltaX * sDer[k] < n
      requires Distinct(pDer) && Distinct(sDer)
      modifies this`table, this`predicted, this`populated, p`der, s`der
      ensures Valid()
      ensures this.table == table && predicted && populated
      ensures p.der == pDer && s.der == sDer
    {
      this.table := table;
      predicted := true;
      populated := true;
      p.der := pDer;
      s.der := sDer;
    }

    /**
     * _update_values for the phase whose slider `moved` emitted `value`: the
     * accepted list is cleared and rebuilt, then _show_prediction replaces the
     * phase's markers with fresh ones.
     */
    method UpdateValues(ph: Phase, moved: Slider, value: int)
      requires Valid() && predicted
      modifies SetOf(ph)`filt, SetOf(ph)`lines, SetOf(ph)`Repr
      ensures Valid() && fresh(SetOf(ph).Repr - old(SetOf(ph).Repr))
      ensures var t := GetThresholds(SetOf(ph).confidence, SetOf(ph).noise, moved, value);
        SetOf(ph).filt == Accepted(SetOf(ph).der, table, ph, t.0, t.1)
      ensures MarkersShown(SetOf(ph))
      ensures forall k :: 0 <= k < |SetOf(ph).lines| ==> fresh(SetOf(ph).lines[k])
    {
      var t := GetThresholds(SetOf(ph).confidence, SetOf(ph).noise, moved, value);
      FilterPhase(ph, t.0, t.1);
      ShowPrediction(ph);
    }

    /** The list rebuild of _update_values: the phase's accepted list becomes the filtered candidates. */
    method FilterPhase(ph: Phase, first: real, second: real)
      requires Valid() && predicted
      modifies SetOf(ph)`filt
      ensures Valid() && populated
      ensures SetOf(ph).filt == Accepted(SetOf(ph).der, table, ph, first, second)
    {
      var ps := SetOf(ph);
      ps.Filter(table, first, second);
      forall j | 0 <= j < |ps.filt|
        ensures DeltaX * ps.filt[j] < n
      {
        assert ps.filt[j] in ps.filt;
      }
    }

    /** _show_prediction after _clear_prediction: one fresh marker per accepted window. */
    method ShowPrediction(ph: Phase)
      requires Valid() && populated
      modifies SetOf(ph)`lines, SetOf(ph)`Repr
      ensures Valid() && fresh(SetOf(ph).Repr - old(SetOf(ph).Repr))
      ensures MarkersShown(SetOf(ph))
      ensures forall k :: 0 <= k < |SetOf(ph).lines| ==> fresh(SetOf(ph).lines[k])
    {
      SetOf(ph).ShowMarkers(Timestamps());
    }

    /**
     * QSlider.setValue on one slider of a phase: valueChanged is emitted only when
     * the value changes, and reaches _update_values only while it is connected.
     */
    method SetSliderValue(ph: Phase, slider: Slider, value: int)
      requires Valid() && (slidersConnected ==> predicted)
      modifies SetOf(ph)
      ensures Valid() && fresh(SetOf(ph).Repr - old(SetOf(ph).Repr))
      ensures slider == Confidence ==> SetOf(ph).confidence == value && SetOf(ph).noise == old(SetOf(ph).noise)
      ensures slider == Noise ==> SetOf(ph).noise == value && SetOf(ph).confidence == old(SetOf(ph).confidence)
      ensures SetOf(ph).der == old(SetOf(ph).der)
      ensures old(SetOf(ph).SliderValue(slider)) != value && slidersConnected ==> Shows(SetOf(ph))
      ensures old(SetOf(ph).SliderValue(slider)) == value || !slidersConnected ==>
        SetOf(ph).filt == old(SetOf(ph).filt) && SetOf(ph).lines == old(SetOf(ph).lines)
    {
      var ps := SetOf(ph);
      var changed := ps.SliderValue(slider) != value;
      ps.SetSlider(slider, value);
      if changed && slidersConnected {
        UpdateValues(ph, slider, value);
      }
    }

    /** enable_sliders: connect _update_values, then move both confidence sliders to 1. */
    method EnableSliders()
      requires Valid() && predicted
      modifies this`slidersConnected, p, s
      ensures Valid() && slidersConnected
      ensures fresh(p.Repr - old(p.Repr)) && fresh(s.Repr - old(s.Repr))
      ensures p.confidence == 1 && s.confidence == 1 && p.noise == old(p.noise) && s.noise == old(s.noise)
      ensures p.der == old(p.der) && s.der == old(s.der)
      ensures old(p.confidence) != 1 ==> Shows(p)
      ensures old(p.confidence) == 1 ==> p.filt == old(p.filt) && p.lines == old(p.lines)
      ensures old(s.confidence) != 1 ==> Shows(s)
      ensures old(s.confidence) == 1 ==> s.filt == old(s.filt) && s.lines == old(s.lines)
    {
      slidersConnected := true;
      SetSliderValue(P, Confidence, 1);
      SetSliderValue(S, Confidence, 1);
    }

    /** reset_prediction: both marker lists are cleared and the prediction is dropped. */
    method ResetPrediction()
      requires Valid()
      modifies this`predicted, p`lines, s`lines
      ensures Valid() && !predicted
      ensures p.lines == [] && s.lines == []
    {
      p.lines := [];
      s.lines := [];
      predicted := false;
    }

    /**
     * reset_sliders: _update_values is disconnected before the sliders move to
     * 0 (confidence) and 80 (noise), so nothing is recomputed.
     */
    method ResetSliders()
      requires Valid()
      modifies this`slidersConnected, p`confidence, p`noise, s`confidence, s`noise
      ensures Valid() && !slidersConnected
      ensures p.confidence == 0 && s.confidence == 0 && p.noise == 80 && s.noise == 80
    {
      slidersConnected := false;
      p.confidence := 0;
      s.confidence := 0;
      p.noise := 80;
      s.noise := 80;
    }

    /**
     * get_raw: a "P" header, one line per remaining P candidate, an "S" header,
     * one line per remaining S candidate. Without a prediction the candidate
     * lists are None and the call raises.
     */
    function GetRaw(fmt: real -> string): (r: Option<seq<string>>)
      reads this, p, s
      requires InTable(p.der, table) && InTable(s.der, table)
      ensures r.Some? <==> predicted
      ensures r.Some? ==>
        && |r.value| == 2 + |p.der| + |s.der|
        && r.value[0] == "P" && r.value[1 + |p.der|] == "S"
        && r.value[1 .. 1 + |p.der|] == RawSection(p.der, table, P, fmt)
        && r.value[2 + |p.der| ..] == RawSection(s.der, table, S, fmt)
    {
      if !predicted then None
      else
        var raw := ["P"] + RawSection(p.der, table, P, fmt) + ["S"] + RawSection(s.der, table, S, fmt);
        assert raw[1 .. 1 + |p.der|] == RawSection(p.der, table, P, fmt);
        assert raw[2 + |p.der| ..] == RawSection(s.der, table, S, fmt);
        Some(raw)
    }

    /** The PKS line of marker `m` on channel `c`: the amplitude is the sample under the marker. */
    function PksEntry(m: VerticalTriadeLine, c: nat, fmtTime: real -> string, fmt: real -> string): string
      reads this, m, seismogram
      requires Geometry() && m.Valid() && c < NumberOfTraces && seismogram.Valid()
    {
      var g := GraphicIndexFromPosition(Start(), End(), n, m.Pos());
      PksLine(seismogram.station, seismogram.channels[c], seismogram.network,
              NameOf(PhaseOfKind(m.kind)), fmtTime(m.Pos()), fmt(seismogram.traces[c][g]))
    }

    /**
     * get_lines_as_pks: every P marker, then every S marker, each written once per
     * channel in channel order.
     */
    method GetLinesAsPks(fmtTime: real -> string, fmt: real -> string) returns (log: seq<string>)
      requires Valid() && seismogram.Valid()
      ensures |log| == NumberOfTraces * (|p.lines| + |s.lines|)
      ensures forall j, c :: 0 <= j < |p.lines + s.lines| && 0 <= c < NumberOfTraces ==>
        log[NumberOfTraces * j + c] == PksEntry((p.lines + s.lines)[j], c, fmtTime, fmt)
    {
      var markers := p.lines + s.lines;
      log := [];
      var j := 0;
      while j < |markers|
        invariant 0 <= j <= |markers| && |log| == NumberOfTraces * j
        invariant forall j', c :: 0 <= j' < j && 0 <= c < NumberOfTraces ==>
          log[NumberOfTraces * j' + c] == PksEntry(markers[j'], c, fmtTime, fmt)
      {
        var elem := markers[j];
        assert elem in p.lines || elem in s.lines;
        var c := 0;
        while c < NumberOfTraces
          invariant 0 <= c <= NumberOfTraces && |log| == NumberOfTraces * j + c
          invariant forall j', c' :: 0 <= j' < j && 0 <= c' < NumberOfTraces ==>
            log[NumberOfTraces * j' + c'] == PksEntry(markers[j'], c', fmtTime, fmt)
          invariant forall c' :: 0 <= c' < c ==> log[NumberOfTraces * j + c'] == PksEntry(elem, c', fmtTime, fmt)
        {
          log := log + [PksEntry(elem, c, fmtTime, fmt)];
          c := c + 1;
        }
        j := j + 1;
      }
    }

    /** mousePressEvent: every marker back to its base pen and nothing selected. */
    method MousePress()
      requires Valid()
      modifies this`selected, p.lines, s.lines
      ensures Valid() && selected == null
      ensures forall m :: m in p.lines ==> m.lines[0] == old(m.lines[0]).(pen := m.basePen)
      ensures forall m :: m in s.lines ==> m.lines[0] == old(m.lines[0]).(pen := m.basePen)
    {
      p.ResetPens();
      s.ResetPens();
      selected := null;
    }

    /**
     * _click_prediction on marker `m`: the markers of its class go back to their
     * base pen, `m` takes the hover pen and becomes the selection.
     */
    method ClickPrediction(m: VerticalTriadeLine)
      requires Valid() && m.kind != Plain && m in SetOf(PhaseOfKind(m.kind)).lines
      modifies this`selected, SetOf(PhaseOfKind(m.kind)).lines
      ensures Valid() && selected == m
      ensures m.Valid() && m.lines[0] == old(m.lines[0]).(pen := HoverPen)
      ensures forall m' :: m' in SetOf(PhaseOfKind(m.kind)).lines && m' != m ==>
        m'.lines[0] == old(m'.lines[0]).(pen := m'.basePen)
      ensures forall m' :: m' in SetOf(PhaseOfKind(m.kind)).lines ==> (m'.CurrentPen() == HoverPen <==> m' == m)
    {
      var ps := SetOf(PhaseOfKind(m.kind));
      ps.ResetPens();
      m.SetPen(m.hoverPen);
      selected := m;
    }

    /** The window index _delete_line reads off the selected marker's position. */
    function SelectedIndex(): nat
      reads this, selected
      requires selected != null && selected.Valid() && n >= 1 && Start() < End()
    {
      ModelIndexFromGraphic(GraphicIndexFromPosition(Start(), End(), n, selected.Pos()))
    }

    /**
     * _remove_line: the selected marker leaves its class's list; the candidate and
     * accepted lists are untouched. The selection itself is kept.
     */
    method RemoveLine()
      requires Valid()
      modifies p`lines, s`lines
      ensures Valid()
      ensures selected == null ==> p.lines == old(p.lines) && s.lines == old(s.lines)
      ensures selected != null && selected.kind == PLine ==>
        p.lines == LinesWithout(old(p.lines), selected) && s.lines == old(s.lines)
      ensures selected != null && selected.kind == SLine ==>
        s.lines == LinesWithout(old(s.lines), selected) && p.lines == old(p.lines)
    {
      if selected != null {
        var ps := SetOf(PhaseOfKind(selected.kind));
        ps.DropLine(selected);
      }
    }

    /**
     * _delete_line: when the selected marker's window is accepted it leaves the
     * accepted list and the candidate list for good, and the marker is removed;
     * otherwise only the marker is removed. The selection itself is kept.
     */
    method DeleteLine()
      requires Valid()
      modifies p`filt, p`der, p`lines, s`filt, s`der, s`lines
      ensures Valid()
      ensures selected == null ==> unchanged(p, s)
      ensures selected != null ==>
        var ps := SetOf(PhaseOfKind(selected.kind));
        var mi := SelectedIndex();
        && unchanged(SetOf(if ps.phase == P then S else P))
        && Dropped(ps.filt, ps.der, old(ps.filt), old(ps.der), mi)
        && (mi in old(ps.filt) && mi in old(ps.der) ==> mi !in ps.der)
        && ps.lines == (if mi in old(ps.filt) && mi !in old(ps.der) then old(ps.lines)
                        else LinesWithout(old(ps.lines), selected))
    {
      if selected != null {
        var ps := SetOf(PhaseOfKind(selected.kind));
        var raised := ps.Delete(SelectedIndex(), selected, table, n);
      }
    }

    /** _switch_movable_line: the selected marker's three lines become movable or fixed together. */
    method SwitchMovableLine()
      requires Valid()
      modifies selected
      ensures Valid() && selected == old(selected)
      ensures selected != null ==> selected.lines[0] == old(selected.lines[0]).(movable := !old(selected.lines[0].movable))
    {
      if selected != null {
        selected.SetMovables(!selected.Movable());
      }
    }

    /**
     * A drag of the movable marker `m`, then _handle_sig_dragged. pyqtgraph
     * moves the dragged line `k` to `x` by itself and then emits
     * sigPositionChangeFinished; the handler moves all three lines to the
     * cursor's time when the cursor is over a plot (`cursor`), and otherwise
     * leaves the dragged line apart from the other two.
     */
    method HandleDragged(m: VerticalTriadeLine, k: nat, x: real, cursor: Option<real>)
      requires Valid() && m.kind != Plain && m in SetOf(PhaseOfKind(m.kind)).Repr && m.Movable() && k < 3
      modifies m
      ensures Valid() && m.Valid()
      ensures cursor.Some? ==> m.Aligned() && m.Pos() == cursor.value
      ensures cursor.Some? ==> forall q :: 0 <= q < 3 ==> m.lines[q] == old(m.lines[q]).(pos := cursor.value)
      ensures cursor.None? ==> m.lines == old(m.lines)[k := old(m.lines[k]).(pos := x)]
      ensures cursor.None? && old(m.Valid() && m.Aligned()) && x != old(m.Pos()) ==> !m.Aligned()
    {
      m.DragLine(k, x);
      if cursor.Some? {
        m.SetPos(cursor.value);
      }
    }

    /**
     * _add_line: a fresh marker of the phase at the cursor's time joins the list.
     * Off every plot nothing happens; before the first set_prediction the
     * dictionary lookup raises and nothing is added.
     */
    method AddLine(ph: Phase, cursor: Option<real>)
      requires Valid()
      modifies SetOf(ph)`lines, SetOf(ph)`Repr
      ensures Valid() && fresh(SetOf(ph).Repr - old(SetOf(ph).Repr))
      ensures !populated || cursor.None? ==> SetOf(ph).lines == old(SetOf(ph).lines)
      ensures populated && cursor.Some? ==>
        var lines := SetOf(ph).lines;
        && |lines| == |old(SetOf(ph).lines)| + 1 && lines[..|lines| - 1] == old(SetOf(ph).lines)
        && fresh(lines[|lines| - 1]) && lines[|lines| - 1].kind == KindOf(ph)
        && lines[|lines| - 1].lines[0] == LineState(cursor.value, false, lines[|lines| - 1].basePen, HoverPen)
    {
      if cursor.Some? && populated {
        var ps := SetOf(ph);
        var marker := new VerticalTriadeLine(KindOf(ph), cursor.value);
        ps.lines := ps.lines + [marker];
        ps.Repr := ps.Repr + {marker};
      }
    }

    /**
     * keyPressEvent: D deletes, R removes, M toggles movability, F and B add a
     * P or S marker, N rescales the plots; any other key is a failed lookup that
     * is suppressed.
     */
    method KeyPress(key: Key, cursor: Option<real>)
      requires Valid()
      modifies p, s, p.Repr, s.Repr
      ensures Valid()
      ensures key == KeyN || key == OtherKey ==> unchanged(p, s)
    {
      match key
      case KeyD => DeleteLine();
      case KeyR => RemoveLine();
      case KeyM => SwitchMovableLine();
      case KeyF => AddLine(P, cursor);
      case KeyB => AddLine(S, cursor);
      case KeyN =>
      case OtherKey =>
    }
  }

  /**
   * The candidate and accepted lists after deleting window `mi` from `filt0` and
   * `der0`: nothing changes unless `mi` is accepted; then it leaves the accepted
   * list, and the candidate list too when it is there.
   */
  ghost predicate Dropped(filt: seq<nat>, der: seq<nat>, filt0: seq<nat>, der0: seq<nat>, mi: nat) {
    && (mi !in filt0 ==> filt == filt0 && der == der0)
    && (mi in filt0 ==> filt == RemoveFirst(filt0, mi))
    && (mi in filt0 && mi in der0 ==> der == RemoveFirst(der0, mi))
    && (mi in filt0 && mi !in der0 ==> der == der0)
  }

  /** list.remove keeps every bound the remaining windows had. */
  lemma RemoveFirstBounded(s: seq<nat>, x: nat, table: seq<Row>, n: nat, inTable: bool)
    requires x in s && (forall k :: 0 <= k < |s| ==> DeltaX * s[k] < n)
    requires inTable ==> InTable(s, table)
    ensures forall k :: 0 <= k < |RemoveFirst(s, x)| ==> DeltaX * RemoveFirst(s, x)[k] < n
    ensures inTable ==> InTable(RemoveFirst(s, x), table)
  {
    var r := RemoveFirst(s, x);
    forall k | 0 <= k < |r|
      ensures DeltaX * r[k] < n && (inTable ==> r[k] < |table|)
    {
      assert r[k] in r;
    }
  }
}
