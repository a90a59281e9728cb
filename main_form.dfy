/**
 * The list handlers of main.py's MainWindow: the "for all" box, inverting the
 * selection, and the filter, classifier and reset buttons, each of which walks
 * the list of trace widgets and acts on the entries whose box is checked.
 */
module Window {
  import opened Wrappers
  import opened NeuralNetwork
  import opened Seismograms
  import opened TriadeLines
  import opened Trace

  /** Two list entries share no object (objects of different classes differ anyway). */
  predicate Apart(v: TraceWidget, w: TraceWidget) {
    && v != w && v.checkbox != w.checkbox && v.seismogram != w.seismogram
    && v.p != w.p && v.p != w.s && v.s != w.p && v.s != w.s
  }

  /** The current channels of a valid record are three of the widget's length. */
  lemma CurrentChannels(w: TraceWidget)
    requires w.Geometry() && w.seismogram.Valid()
    ensures IsThreeChannel(w.seismogram.traces) && |w.seismogram.traces[0]| == w.n
  {
    assert |w.seismogram.traces[0]| == |w.seismogram.resampled[0]|;
  }

  /** The part of an entry that enable_sliders may keep: sliders, accepted lists, markers and selection. */
  datatype Prior = Prior(pConfidence: int, sConfidence: int, pNoise: int, sNoise: int,
                         pFilt: seq<nat>, sFilt: seq<nat>,
                         pLines: seq<VerticalTriadeLine>, sLines: seq<VerticalTriadeLine>,
                         selected: VerticalTriadeLine?)

  function PriorOf(w: TraceWidget): Prior
    reads w, w.p, w.s
  {
    Prior(w.p.confidence, w.s.confidence, w.p.noise, w.s.noise, w.p.filt, w.s.filt, w.p.lines, w.s.lines, w.selected)
  }

  /**
   * The entry holds prediction `pr`: the table and both candidate lists are
   * `pr`'s and the sliders are connected.
   */
  ghost predicate Holds(w: TraceWidget, pr: Prediction)
    reads w, w.p, w.s
  {
    && w.predicted && w.slidersConnected
    && w.table == pr.table && w.p.der == pr.pDer && w.s.der == pr.sDer
  }

  /**
   * What enable_sliders leaves over the state `before`: both confidence
   * sliders at 1, the noise sliders and the selection as before. A confidence
   * slider that moved to 1 recomputed its phase, so its accepted list is
   * Accepted at confidence 0.01 and the markers show it; one that was at 1
   * already emitted no change, so its accepted list and markers are still
   * the earlier ones.
   */
  ghost predicate Installed(w: TraceWidget, before: Prior)
    reads w, w.p, w.s, w.p.Repr, w.s.Repr
  {
    && w.p.Valid() && w.s.Valid()
    && w.p.confidence == 1 && w.s.confidence == 1
    && w.p.noise == before.pNoise && w.s.noise == before.sNoise && w.selected == before.selected
    && (before.pConfidence != 1 ==> w.Shows(w.p))
    && (before.pConfidence == 1 ==> w.p.filt == before.pFilt && w.p.lines == before.pLines)
    && (before.sConfidence != 1 ==> w.Shows(w.s))
    && (before.sConfidence == 1 ==> w.s.filt == before.sFilt && w.s.lines == before.sLines)
  }

  /** What apply_NN leaves in a checked entry: the classifier's prediction for the entry's current channels. */
  ghost predicate Classified(w: TraceWidget, predict: Batch -> seq<Row>)
    reads w, w.p, w.s, w.seismogram
  {
    var t := w.seismogram.traces;
    && IsThreeChannel(t)
    && |predict(MakeBatch(t))| == |MakeBatch(t)|
    && Holds(w, GetPrediction(t, predict))
  }

  /** A checked entry after apply_NN over the state `before`. */
  ghost predicate Done(w: TraceWidget, predict: Batch -> seq<Row>, before: Prior)
    reads w, w.p, w.s, w.p.Repr, w.s.Repr, w.seismogram
  {
    Classified(w, predict) && Installed(w, before)
  }

  /** A prediction set_prediction accepts for a widget of `n` samples per channel. */
  predicate Fits(pr: Prediction, n: nat) {
    && InTable(pr.pDer, pr.table) && InTable(pr.sDer, pr.table)
    && (forall k :: 0 <= k < |pr.pDer| ==> DeltaX * pr.pDer[k] < n)
    && (forall k :: 0 <= k < |pr.sDer| ==> DeltaX * pr.sDer[k] < n)
    && Distinct(pr.pDer) && Distinct(pr.sDer)
  }

  /** set_prediction followed by enable_sliders. */
  method Install(w: TraceWidget, pr: Prediction)
    requires w.Valid() && Fits(pr, w.n)
    modifies w, w.p, w.s
    ensures w.Valid() && Holds(w, pr) && Installed(w, old(PriorOf(w)))
  {
    w.SetPrediction(pr.table, pr.pDer, pr.sDer);
    w.EnableSliders();
  }

  /**
   * What reset_seismograms leaves in a checked entry: the original channels,
   * no prediction and no markers, the sliders disconnected at 0 and 80.
   */
  ghost predicate IsReset(w: TraceWidget)
    reads w, w.p, w.s, w.seismogram
  {
    && w.seismogram.traces == w.seismogram.resampled
    && !w.predicted && !w.slidersConnected
    && w.p.lines == [] && w.s.lines == []
    && w.p.confidence == 0 && w.s.confidence == 0 && w.p.noise == 80 && w.s.noise == 80
  }

  /** get_prediction's result is one set_prediction accepts for channels of `n` samples. */
  lemma PredictionFits(t: seq<seq<real>>, predict: Batch -> seq<Row>, n: nat)
    requires IsThreeChannel(t) && |t[0]| == n
    requires |predict(MakeBatch(t))| == |MakeBatch(t)|
    ensures Fits(GetPrediction(t, predict), n)
  {
    var pr := GetPrediction(t, predict);
    assert forall k :: 0 <= k < |pr.pDer| ==> pr.pDer[k] in pr.pDer;
    assert forall k :: 0 <= k < |pr.sDer| ==> pr.sDer[k] in pr.sDer;
  }

  /** One pass of reset_seismograms' loop body: reset_trace, reset_prediction, reset_sliders. */
  method ResetEntry(w: TraceWidget)
    requires w.Valid() && w.seismogram.Valid()
    modifies w.seismogram, w`predicted, w`slidersConnected
    modifies w.p`lines, w.p`confidence, w.p`noise, w.s`lines, w.s`confidence, w.s`noise
    ensures w.Valid() && w.seismogram.Valid() && IsReset(w)
  {
    w.seismogram.ResetTrace();
    w.ResetPrediction();
    w.ResetSliders();
  }

  /** A list entry and its record are each in a consistent state. */
  ghost predicate EntryValid(w: TraceWidget)
    reads w, w.p, w.s, w.p.Repr, w.s.Repr, w.seismogram
  {
    w.Valid() && w.seismogram.Valid()
  }

  /** The index where apply_filter's loop ended: the entry whose filter raised, or the end of the list. */
  function Reach(stop: Option<nat>, n: nat): nat {
    if stop.Some? then stop.value else n
  }

  /** No two list entries share an object. */
  predicate Separated(ws: seq<TraceWidget>) {
    forall i, j {:trigger Apart(ws[i], ws[j])} :: 0 <= i < |ws| && 0 <= j < |ws| && i != j ==> Apart(ws[i], ws[j])
  }

  /** The entry's channels are the filter's output on its old channels. */
  twostate predicate Filtered(w: TraceWidget, filter: seq<seq<real>> -> Option<seq<seq<real>>>)
    reads w.seismogram
  {
    var t := old(w.seismogram.traces);
    filter(t).Some? && w.seismogram.traces == filter(t).value
  }

  /** The entry's channels are its old channels. */
  twostate predicate SameTraces(w: TraceWidget)
    reads w.seismogram
  {
    w.seismogram.traces == old(w.seismogram.traces)
  }

  /**
   * apply_filter's loop over the list: `filter` stands for the dialog's
   * parameters applied by Seismogram.apply_filter, None for the exception it
   * raises. Checked entries are filtered in list order; the first one that
   * raises ends the loop (`stop`), and it and every later entry keep their channels.
   */
  method FilterChecked(ws: seq<TraceWidget>, filter: seq<seq<real>> -> Option<seq<seq<real>>>)
    returns (stop: Option<nat>)
    requires Separated(ws)
    requires forall i :: 0 <= i < |ws| ==> ws[i].seismogram.Valid()
    requires forall t :: filter(t).Some? ==> SameShape(filter(t).value, t)
    modifies CheckedRecords(ws)
    ensures forall i :: 0 <= i < |ws| ==> ws[i].seismogram.Valid()
    ensures Reach(stop, |ws|) <= |ws|
    ensures stop.Some? ==>
      && stop.value < |ws|
      && ws[stop.value].checkbox.checked
      && filter(old(ws[stop.value].seismogram.traces)).None?
    ensures forall i {:trigger Filtered(ws[i], filter)} :: 0 <= i < Reach(stop, |ws|) && ws[i].checkbox.checked ==>
      Filtered(ws[i], filter)
    ensures forall i {:trigger SameTraces(ws[i])} :: 0 <= i < |ws| && !(i < Reach(stop, |ws|) && ws[i].checkbox.checked) ==>
      SameTraces(ws[i])
  {
    stop := None;
    var k := 0;
    while k < |ws|
      invariant 0 <= k <= |ws| && stop.None?
      invariant forall i :: 0 <= i < |ws| ==> ws[i].seismogram.Valid()
      invariant forall i {:trigger Filtered(ws[i], filter)} :: 0 <= i < k && ws[i].checkbox.checked ==>
        Filtered(ws[i], filter)
      invariant forall i {:trigger SameTraces(ws[i])} :: 0 <= i < |ws| && !(i < k && ws[i].checkbox.checked) ==>
        SameTraces(ws[i])
    {
      var w := ws[k];
      if w.checkbox.checked {
        assert SameTraces(w);
        assert forall i :: 0 <= i < |ws| && i != k ==> Apart(ws[i], w);
        var ok := w.seismogram.ApplyFilter(filter);
        if !ok {
          stop := Some(k);
          break;
        }
      }
      k := k + 1;
    }
  }

  /** The entry's widget and pick sets are as they were in the old state. */
  twostate predicate Untouched(w: TraceWidget)
    reads w, w.p, w.s
  {
    unchanged(w, w.p, w.s)
  }

  /** The entry's widget, pick sets and record are as they were in the old state. */
  twostate predicate UntouchedWithRecord(w: TraceWidget)
    reads w, w.p, w.s, w.seismogram
  {
    unchanged(w, w.p, w.s, w.seismogram)
  }

  /**
   * One pass of apply_NN's loop body on the k-th entry of the list:
   * get_prediction, set_prediction, enable_sliders. The other entries keep
   * their state.
   */
  method ClassifyStep(ws: seq<TraceWidget>, k: nat, predict: Batch -> seq<Row>, ghost priors: seq<Prior>)
    requires k < |ws| && Separated(ws) && |priors| == |ws| && PriorOf(ws[k]) == priors[k]
    requires forall i {:trigger EntryValid(ws[i])} :: 0 <= i < |ws| ==> EntryValid(ws[i])
    requires forall b :: |predict(b)| == |b|
    modifies ws[k], ws[k].p, ws[k].s
    ensures forall i {:trigger EntryValid(ws[i])} :: 0 <= i < |ws| ==> EntryValid(ws[i])
    ensures Done(ws[k], predict, priors[k])
    ensures forall i {:trigger Done(ws[i], predict, priors[i])} :: 0 <= i < |ws| && i != k && old(Done(ws[i], predict, priors[i])) ==>
      Done(ws[i], predict, priors[i])
    ensures forall i {:trigger PriorOf(ws[i])} :: 0 <= i < |ws| && i != k ==> PriorOf(ws[i]) == old(PriorOf(ws[i]))
  {
    var w := ws[k];
    assert EntryValid(w);
    CurrentChannels(w);
    var pr := GetPrediction(w.seismogram.traces, predict);
    PredictionFits(w.seismogram.traces, predict, w.n);
    Install(w, pr);
    forall i | 0 <= i < |ws| && i != k
      ensures unchanged(ws[i], ws[i].p, ws[i].s, ws[i].seismogram)
      ensures unchanged(ws[i].p.Repr) && unchanged(ws[i].s.Repr)
    {
      assert Apart(ws[i], w);
    }
    forall i | 0 <= i < |ws| && i != k
      ensures EntryValid(ws[i])
      ensures old(Done(ws[i], predict, priors[i])) ==> Done(ws[i], predict, priors[i])
    {
      assert old(EntryValid(ws[i]));
    }
  }

  /**
   * apply_NN's loop over the list: every checked entry gets the classifier's
   * prediction for its current channels and its sliders enabled; unchecked
   * entries are untouched.
   */
  method ClassifyChecked(ws: seq<TraceWidget>, predict: Batch -> seq<Row>)
    requires Separated(ws)
    requires forall i {:trigger EntryValid(ws[i])} :: 0 <= i < |ws| ==> EntryValid(ws[i])
    requires forall b :: |predict(b)| == |b|
    modifies CheckedWidgets(ws), CheckedSets(ws)
    ensures forall i {:trigger EntryValid(ws[i])} :: 0 <= i < |ws| ==> EntryValid(ws[i])
    ensures forall i {:trigger ws[i]} :: 0 <= i < |ws| && ws[i].checkbox.checked ==>
      Done(ws[i], predict, old(PriorOf(ws[i])))
  {
    ghost var priors := seq(|ws|, i requires 0 <= i < |ws|
      reads if 0 <= i < |ws| then {ws[i], ws[i].p, ws[i].s} else {} => PriorOf(ws[i]));
    for k := 0 to |ws|
      invariant forall i {:trigger EntryValid(ws[i])} :: 0 <= i < |ws| ==> EntryValid(ws[i])
      invariant |priors| == |ws| && forall i :: 0 <= i < |ws| ==> priors[i] == old(PriorOf(ws[i]))
      invariant forall i {:trigger Done(ws[i], predict, priors[i])} :: 0 <= i < k && ws[i].checkbox.checked ==>
        Done(ws[i], predict, priors[i])
      invariant forall i {:trigger PriorOf(ws[i])} :: k <= i < |ws| ==> PriorOf(ws[i]) == priors[i]
    {
      if ws[k].checkbox.checked {
        ClassifyStep(ws, k, predict, priors);
      }
    }
  }

  /** One pass of reset_seismograms' loop, on the k-th entry of the list, which is checked. */
  method ResetStep(ws: seq<TraceWidget>, k: nat, w: TraceWidget)
    requires k < |ws| && w == ws[k] && Separated(ws)
    requires EntryValid(w)
    modifies w.seismogram, w`predicted, w`slidersConnected
    modifies w.p`lines, w.p`confidence, w.p`noise, w.s`lines, w.s`confidence, w.s`noise
    ensures EntryValid(w) && IsReset(w)
    ensures forall i :: 0 <= i < |ws| && i != k ==>
      && unchanged(ws[i], ws[i].p, ws[i].s, ws[i].seismogram)
      && unchanged(ws[i].p.Repr) && unchanged(ws[i].s.Repr)
  {
    ResetEntry(w);
    forall i | 0 <= i < |ws| && i != k
      ensures unchanged(ws[i], ws[i].p, ws[i].s, ws[i].seismogram)
    {
      assert Apart(ws[i], w);
    }
  }

  /** The widgets of the checked entries. */
  ghost function CheckedWidgets(ws: seq<TraceWidget>): set<TraceWidget>
    reads set i | 0 <= i < |ws| :: ws[i].checkbox
  {
    set i | 0 <= i < |ws| && ws[i].checkbox.checked :: ws[i]
  }

  /** The pick sets of the checked entries. */
  ghost function CheckedSets(ws: seq<TraceWidget>): set<PickSet>
    reads set i | 0 <= i < |ws| :: ws[i].checkbox
  {
    (set i | 0 <= i < |ws| && ws[i].checkbox.checked :: ws[i].p)
    + (set i | 0 <= i < |ws| && ws[i].checkbox.checked :: ws[i].s)
  }

  /** The records of the checked entries. */
  ghost function CheckedRecords(ws: seq<TraceWidget>): set<Seismogram>
    reads set i | 0 <= i < |ws| :: ws[i].checkbox
  {
    set i | 0 <= i < |ws| && ws[i].checkbox.checked :: ws[i].seismogram
  }

  /** An unchecked entry's objects are none of the checked entries' objects. */
  lemma NotChecked(ws: seq<TraceWidget>, i: nat)
    requires Separated(ws) && i < |ws| && !ws[i].checkbox.checked
    ensures ws[i] !in CheckedWidgets(ws) && ws[i].seismogram !in CheckedRecords(ws)
    ensures ws[i].p !in CheckedSets(ws) && ws[i].s !in CheckedSets(ws)
  {
    forall j | 0 <= j < |ws| && ws[j].checkbox.checked
      ensures ws[j] != ws[i] && ws[j].seismogram != ws[i].seismogram
      ensures ws[j].p != ws[i].p && ws[j].s != ws[i].p && ws[j].p != ws[i].s && ws[j].s != ws[i].s
    {
      assert Apart(ws[i], ws[j]);
    }
  }

  /**
   * reset_seismograms' loop over the list: every checked entry goes back to
   * its original channels with no prediction and reset sliders. Only the
   * checked entries' records, prediction flags, marker lists and sliders may change.
   */
  method ResetChecked(ws: seq<TraceWidget>)
    requires Separated(ws)
    requires forall i {:trigger EntryValid(ws[i])} :: 0 <= i < |ws| ==> EntryValid(ws[i])
    modifies CheckedRecords(ws), CheckedWidgets(ws)`predicted, CheckedWidgets(ws)`slidersConnected
    modifies CheckedSets(ws)`lines, CheckedSets(ws)`confidence, CheckedSets(ws)`noise
    ensures forall i {:trigger EntryValid(ws[i])} :: 0 <= i < |ws| ==> EntryValid(ws[i])
    ensures forall i {:trigger IsReset(ws[i])} :: 0 <= i < |ws| && ws[i].checkbox.checked ==> IsReset(ws[i])
  {
    for k := 0 to |ws|
      invariant forall i {:trigger EntryValid(ws[i])} :: 0 <= i < |ws| ==> EntryValid(ws[i])
      invariant forall i {:trigger IsReset(ws[i])} :: 0 <= i < k && ws[i].checkbox.checked ==> IsReset(ws[i])
    {
      if ws[k].checkbox.checked {
        assert EntryValid(ws[k]);
        ResetStep(ws, k, ws[k]);
      }
    }
  }

  class MainWindow {
    /** trace_widgets_list, in list order. */
    var widgets: seq<TraceWidget>
    /** for_all_chkbox. */
    const forAll: CheckBox

    /** No two entries share an object, and no entry's box is the "for all" box. */
    ghost predicate Separate()
      reads this
    {
      && Separated(widgets)
      && (forall i :: 0 <= i < |widgets| ==> forAll != widgets[i].checkbox)
    }

    ghost function Widgets(): set<TraceWidget>
      reads this
    {
      set i | 0 <= i < |widgets| :: widgets[i]
    }

    ghost function Boxes(): set<CheckBox>
      reads this
    {
      set i | 0 <= i < |widgets| :: widgets[i].checkbox
    }

    ghost function Records(): set<Seismogram>
      reads this
    {
      set i | 0 <= i < |widgets| :: widgets[i].seismogram
    }

    ghost function Sets(): set<PickSet>
      reads this
    {
      (set i | 0 <= i < |widgets| :: widgets[i].p) + (set i | 0 <= i < |widgets| :: widgets[i].s)
    }

    /** The markers of every entry. */
    ghost function Markers(): set<VerticalTriadeLine>
      reads this, Sets()
    {
      (set i, m | 0 <= i < |widgets| && m in widgets[i].p.Repr :: m)
      + (set i, m | 0 <= i < |widgets| && m in widgets[i].s.Repr :: m)
    }

    /** The list's entries are apart and each is consistent with its record. */
    ghost predicate Valid()
      reads this, Widgets(), Sets(), Markers(), Records()
    {
      && Separate()
      && (forall i {:trigger EntryValid(widgets[i])} :: 0 <= i < |widgets| ==> EntryValid(widgets[i]))
    }

    constructor (forAllChecked: bool)
      ensures Valid()
      ensures widgets == [] && forAll.checked == forAllChecked
    {
      widgets := [];
      forAll := new CheckBox(forAllChecked);
    }

    /** select_all: every entry's box takes the state of the "for all" box. */
    method SelectAll()
      requires Valid()
      modifies Boxes()
      ensures Valid()
      ensures forall i :: 0 <= i < |widgets| ==> widgets[i].checkbox.checked == forAll.checked
    {
      for k := 0 to |widgets|
        invariant forAll.checked == old(forAll.checked)
        invariant forall i :: 0 <= i < k ==> widgets[i].checkbox.checked == forAll.checked
      {
        widgets[k].checkbox.checked := forAll.checked;
      }
    }

    /** invert_selection: every entry's box is flipped, each exactly once. */
    method InvertSelection()
      requires Valid()
      modifies Boxes()
      ensures Valid()
      ensures forall i :: 0 <= i < |widgets| ==> widgets[i].checkbox.checked == !old(widgets[i].checkbox.checked)
    {
      for k := 0 to |widgets|
        invariant forall i :: 0 <= i < k ==> widgets[i].checkbox.checked == !old(widgets[i].checkbox.checked)
        invariant forall i :: k <= i < |widgets| ==> widgets[i].checkbox.checked == old(widgets[i].checkbox.checked)
      {
        assert forall i :: 0 <= i < |widgets| && i != k ==> Apart(widgets[i], widgets[k]);
        var box := widgets[k].checkbox;
        box.checked := !box.checked;
      }
    }

    /**
     * apply_filter: `filter` stands for the dialog's parameters applied by
     * Seismogram.apply_filter, None for the exception it raises. Checked
     * entries are filtered in list order; the first one that raises stops the
     * loop (`stop`) and it and every later entry keep their channels.
     */
    method ApplyFilter(filter: seq<seq<real>> -> Option<seq<seq<real>>>) returns (stop: Option<nat>)
      requires Valid()
      requires forall t :: filter(t).Some? ==> SameShape(filter(t).value, t)
      modifies CheckedRecords(widgets)
      ensures Valid()
      ensures Reach(stop, |widgets|) <= |widgets|
      ensures stop.Some? ==>
        && stop.value < |widgets|
        && widgets[stop.value].checkbox.checked
        && filter(old(widgets[stop.value].seismogram.traces)).None?
      ensures forall i {:trigger Filtered(widgets[i], filter)} ::
        0 <= i < Reach(stop, |widgets|) && widgets[i].checkbox.checked ==> Filtered(widgets[i], filter)
      ensures forall i {:trigger SameTraces(widgets[i])} ::
        0 <= i < |widgets| && !(i < Reach(stop, |widgets|) && widgets[i].checkbox.checked) ==> SameTraces(widgets[i])
    {
      forall i | 0 <= i < |widgets|
        ensures widgets[i].seismogram.Valid()
      {
        assert EntryValid(widgets[i]);
      }
      stop := FilterChecked(widgets, filter);
      forall i | 0 <= i < |widgets|
        ensures EntryValid(widgets[i])
      {
        assert old(EntryValid(widgets[i]));
      }
    }

    /**
     * apply_NN: every checked entry gets the classifier's prediction for its
     * current channels and its sliders enabled; unchecked entries are untouched.
     */
    method ApplyNN(predict: Batch -> seq<Row>)
      requires Valid()
      requires forall b :: |predict(b)| == |b|
      modifies CheckedWidgets(widgets), CheckedSets(widgets)
      ensures Valid()
      ensures forall i {:trigger widgets[i]} :: 0 <= i < |widgets| && widgets[i].checkbox.checked ==>
        Done(widgets[i], predict, old(PriorOf(widgets[i])))
      ensures forall i {:trigger Untouched(widgets[i])} :: 0 <= i < |widgets| && !widgets[i].checkbox.checked ==>
        Untouched(widgets[i])
    {
      forall i | 0 <= i < |widgets| && !widgets[i].checkbox.checked
        ensures widgets[i] !in CheckedWidgets(widgets)
        ensures widgets[i].p !in CheckedSets(widgets) && widgets[i].s !in CheckedSets(widgets)
      {
        NotChecked(widgets, i);
      }
      ClassifyChecked(widgets, predict);
    }

    /**
     * reset_seismograms: every checked entry goes back to its original channels
     * with no prediction and reset sliders; unchecked entries are untouched.
     */
    method ResetSeismograms()
      requires Valid()
      modifies CheckedRecords(widgets), CheckedWidgets(widgets)`predicted, CheckedWidgets(widgets)`slidersConnected
      modifies CheckedSets(widgets)`lines, CheckedSets(widgets)`confidence, CheckedSets(widgets)`noise
      ensures Valid()
      ensures forall i {:trigger IsReset(widgets[i])} :: 0 <= i < |widgets| && widgets[i].checkbox.checked ==>
        IsReset(widgets[i])
      ensures forall i {:trigger UntouchedWithRecord(widgets[i])} :: 0 <= i < |widgets| && !widgets[i].checkbox.checked ==>
        UntouchedWithRecord(widgets[i])
    {
      forall i | 0 <= i < |widgets| && !widgets[i].checkbox.checked
        ensures widgets[i] !in CheckedWidgets(widgets) && widgets[i].seismogram !in CheckedRecords(widgets)
        ensures widgets[i].p !in CheckedSets(widgets) && widgets[i].s !in CheckedSets(widgets)
      {
        NotChecked(widgets, i);
      }
      ResetChecked(widgets);
    }
  }
}
