/**
 * The batch rules of main.py that do not depend on Qt: sort_stations, the
 * grouping of a file's traces into three-channel records in add_seismograms,
 * and the output path of get_file_path.
 */
module Stations {
  import opened Wrappers

  /** The fields of an obspy trace that sort_stations and Seismogram read. */
  datatype StationTrace = StationTrace(station: string, channel: string, network: string, samples: seq<real>)

  // ---------------------------------------------------------------------------
  // Python's ordering of strings and of (station, channel) tuples

  /** Lexicographic order on code points: a prefix comes first. */
  predicate StrLeq(a: string, b: string)
    decreases |a|
  {
    if a == [] then true
    else if b == [] then false
    else if a[0] != b[0] then a[0] < b[0]
    else StrLeq(a[1..], b[1..])
  }

  lemma {:induction false} StrLeqTotal(a: string, b: string)
    ensures StrLeq(a, b) || StrLeq(b, a)
    decreases |a|
  {
    if a != [] && b != [] && a[0] == b[0] {
      StrLeqTotal(a[1..], b[1..]);
    }
  }

  lemma {:induction false} StrLeqAntisymmetric(a: string, b: string)
    requires StrLeq(a, b) && StrLeq(b, a)
    ensures a == b
    decreases |a|
  {
    if a != [] {
      StrLeqAntisymmetric(a[1..], b[1..]);
      assert a == [a[0]] + a[1..] && b == [b[0]] + b[1..];
    }
  }

  lemma {:induction false} StrLeqTransitive(a: string, b: string, c: string)
    requires StrLeq(a, b) && StrLeq(b, c)
    ensures StrLeq(a, c)
    decreases |a|
  {
    if a != [] && a[0] == b[0] && b[0] == c[0] {
      StrLeqTransitive(a[1..], b[1..], c[1..]);
    }
  }

  /** The sort key (station, channel) compared as a Python tuple. */
  predicate KeyLeq(x: StationTrace, y: StationTrace) {
    || (x.station != y.station && StrLeq(x.station, y.station))
    || (x.station == y.station && StrLeq(x.channel, y.channel))
  }

  lemma KeyLeqTotal(x: StationTrace, y: StationTrace)
    ensures KeyLeq(x, y) || KeyLeq(y, x)
  {
    StrLeqTotal(x.station, y.station);
    StrLeqTotal(x.channel, y.channel);
  }

  lemma KeyLeqTransitive(x: StationTrace, y: StationTrace, z: StationTrace)
    requires KeyLeq(x, y) && KeyLeq(y, z)
    ensures KeyLeq(x, z)
  {
    if x.station == y.station && y.station == z.station {
      StrLeqTransitive(x.channel, y.channel, z.channel);
    } else if x.station != y.station && y.station != z.station {
      StrLeqTransitive(x.station, y.station, z.station);
      if x.station == z.station {
        StrLeqAntisymmetric(x.station, y.station);
      }
    }
  }

  // ---------------------------------------------------------------------------
  // sorted(st, key=lambda x: (x.stats.station, x.stats.channel))

  predicate Sorted(s: seq<StationTrace>) {
    forall i, j :: 0 <= i < j < |s| ==> KeyLeq(s[i], s[j])
  }

  /** Insert x after every element whose key is not greater, which keeps equal keys in arrival order. */
  function Insert(x: StationTrace, s: seq<StationTrace>): (r: seq<StationTrace>)
    ensures multiset(r) == multiset(s) + multiset{x}
    ensures |r| == |s| + 1
  {
    if s == [] then [x]
    else if KeyLeq(s[0], x) then
      assert s == [s[0]] + s[1..];
      [s[0]] + Insert(x, s[1..])
    else [x] + s
  }

  lemma SortedCons(h: StationTrace, t: seq<StationTrace>)
    requires Sorted(t) && forall j :: 0 <= j < |t| ==> KeyLeq(h, t[j])
    ensures Sorted([h] + t)
  {
    var r := [h] + t;
    assert forall i :: 0 < i < |r| ==> r[i] == t[i - 1];
  }

  lemma InsertMember(x: StationTrace, s: seq<StationTrace>, y: StationTrace)
    requires y in Insert(x, s)
    ensures y == x || y in s
  {
    assert y in multiset(Insert(x, s));
  }

  lemma {:induction false} InsertSorted(x: StationTrace, s: seq<StationTrace>)
    requires Sorted(s)
    ensures Sorted(Insert(x, s))
  {
    if s != [] {
      var t := s[1..];
      if KeyLeq(s[0], x) {
        var rest := Insert(x, t);
        InsertSorted(x, t);
        forall j | 0 <= j < |rest|
          ensures KeyLeq(s[0], rest[j])
        {
          InsertMember(x, t, rest[j]);
          if rest[j] != x {
            var k :| 0 <= k < |t| && t[k] == rest[j];
            assert s[k + 1] == rest[j];
          }
        }
        SortedCons(s[0], rest);
      } else {
        KeyLeqTotal(s[0], x);
        forall j | 0 <= j < |s|
          ensures KeyLeq(x, s[j])
        {
          if j > 0 {
            KeyLeqTransitive(x, s[0], s[j]);
          }
        }
        SortedCons(x, s);
      }
    }
  }

  /** Insertion sort by the key, taking the elements in order: stable, like Python's sort. */
  function SortByKey(s: seq<StationTrace>): (r: seq<StationTrace>)
    ensures multiset(r) == multiset(s) && |r| == |s|
  {
    if s == [] then []
    else
      assert s == s[..|s| - 1] + [s[|s| - 1]];
      Insert(s[|s| - 1], SortByKey(s[..|s| - 1]))
  }

  /** The sorted list is ordered by (station, channel) and is a permutation of the input. */
  lemma {:induction false} SortByKeySorted(s: seq<StationTrace>)
    ensures Sorted(SortByKey(s)) && multiset(SortByKey(s)) == multiset(s)
  {
    if s != [] {
      SortByKeySorted(s[..|s| - 1]);
      InsertSorted(s[|s| - 1], SortByKey(s[..|s| - 1]));
    }
  }

  // ---------------------------------------------------------------------------
  // sorted_list[::3], sorted_list[1::3] = sorted_list[1::3], sorted_list[::3]

  /** The extended slice s[start::3]. */
  function Stride<T>(s: seq<T>, start: nat): (r: seq<T>)
    requires start <= 1
    ensures |r| == (|s| + 2 - start) / 3
    ensures forall q :: 0 <= q < |r| ==> start + 3 * q < |s| && r[q] == s[start + 3 * q]
  {
    seq((|s| + 2 - start) / 3, q requires 0 <= q < (|s| + 2 - start) / 3 => s[start + 3 * q])
  }

  /**
   * The extended-slice assignment s[start::3] = vals: every third element from
   * `start` replaced in order. None is the ValueError Python raises when the
   * lengths differ.
   */
  function AssignStride<T>(s: seq<T>, start: nat, vals: seq<T>): (r: Option<seq<T>>)
    requires start <= 1
    ensures r.Some? <==> |vals| == |Stride(s, start)|
    ensures r.Some? ==> |r.value| == |s|
  {
    if |vals| != |Stride(s, start)| then None
    else
      Some(seq(|s|, k requires 0 <= k < |s| =>
        if k >= start && (k - start) % 3 == 0 then vals[(k - start) / 3] else s[k]))
  }

  /** The tuple assignment of sort_stations: both right-hand slices are taken first, then assigned left to right. */
  function SwapTriples<T>(s: seq<T>): Option<seq<T>> {
    var seconds := Stride(s, 1);
    var firsts := Stride(s, 0);
    var r := AssignStride(s, 0, seconds);
    if r.None? then None else AssignStride(r.value, 1, firsts)
  }

  /** The first two elements of every triple exchanged; a trailing single element stays. */
  function PairSwap<T>(s: seq<T>): (r: seq<T>)
    ensures |r| == |s|
    decreases |s|
  {
    if |s| <= 1 then s
    else if |s| == 2 then [s[1], s[0]]
    else [s[1], s[0], s[2]] + PairSwap(s[3..])
  }

  lemma {:induction false} PairSwapIndex<T>(s: seq<T>, k: nat)
    requires k < |s|
    ensures PairSwap(s)[k] ==
      if k % 3 == 0 && k + 1 < |s| then s[k + 1]
      else if k % 3 == 1 then s[k - 1]
      else s[k]
    decreases |s|
  {
    if |s| > 2 && k >= 3 {
      var t := s[3..];
      PairSwapIndex(t, k - 3);
      assert PairSwap(s) == [s[1], s[0], s[2]] + PairSwap(t);
      assert PairSwap(s)[k] == PairSwap(t)[k - 3];
      ShiftThree(k);
      if k % 3 == 0 && k + 1 < |s| {
        assert t[k - 2] == s[k + 1];
      } else if k % 3 == 1 {
        assert t[k - 4] == s[k - 1];
      } else {
        assert t[k - 3] == s[k];
      }
    }
  }

  lemma ShiftThree(k: nat)
    requires k >= 3
    ensures (k - 3) % 3 == k % 3
    ensures k % 3 == 1 ==> k >= 4
  {
  }

  lemma SwapHeadMultiset<T>(a: T, b: T, c: T, rest: seq<T>, rest': seq<T>)
    requires multiset(rest') == multiset(rest)
    ensures multiset([b, a, c] + rest') == multiset([a, b, c] + rest)
  {
    calc {
      multiset([b, a, c] + rest');
      multiset([b, a, c]) + multiset(rest');
      multiset{a, b, c} + multiset(rest);
      multiset([a, b, c]) + multiset(rest);
      multiset([a, b, c] + rest);
    }
  }

  /** Exchanging the first two of every triple keeps the elements. */
  lemma {:induction false} PairSwapPermutes<T>(s: seq<T>)
    ensures multiset(PairSwap(s)) == multiset(s)
    decreases |s|
  {
    if |s| > 2 {
      PairSwapPermutes(s[3..]);
      assert s == [s[0], s[1], s[2]] + s[3..];
      SwapHeadMultiset(s[0], s[1], s[2], s[3..], PairSwap(s[3..]));
    } else if |s| == 2 {
      assert s == [s[0], s[1]];
      assert multiset([s[1], s[0]]) == multiset([s[0], s[1]]);
    }
  }

  /** Exchanging twice gives back the list. */
  lemma {:induction false} PairSwapTwice<T>(s: seq<T>)
    ensures PairSwap(PairSwap(s)) == s
    decreases |s|
  {
    if |s| > 2 {
      PairSwapTwice(s[3..]);
      var r := PairSwap(s);
      assert r[3..] == PairSwap(s[3..]);
      assert s == [s[0], s[1], s[2]] + s[3..];
    } else if |s| == 2 {
      assert s == [s[0], s[1]];
    }
  }

  /** s[::3] and s[1::3] have equal lengths exactly when len % 3 != 1. */
  lemma StrideLengths(n: nat)
    ensures (n + 1) / 3 == (n + 2) / 3 <==> n % 3 != 1
  {
    var q := n / 3;
    assert n == 3 * q + n % 3;
  }

  /** Position q of the extended slice s[start::3] is element start + 3 * q of s. */
  lemma StrideAt<T>(s: seq<T>, start: nat, q: nat)
    requires start <= 1 && q < |Stride(s, start)|
    ensures start + 3 * q < |s| && Stride(s, start)[q] == s[start + 3 * q]
  {
  }

  /** The assignment s[start::3] = vals puts vals[q] at start + 3 * q ... */
  lemma AssignStrideHit<T>(s: seq<T>, start: nat, vals: seq<T>, q: nat)
    requires start <= 1 && AssignStride(s, start, vals).Some? && start + 3 * q < |s|
    ensures q < |vals| && AssignStride(s, start, vals).value[start + 3 * q] == vals[q]
  {
    var k := start + 3 * q;
    assert (k - start) % 3 == 0 && (k - start) / 3 == q;
  }

  /** ... and leaves every other position alone. */
  lemma AssignStrideMiss<T>(s: seq<T>, start: nat, vals: seq<T>, q: nat, k: nat)
    requires start <= 1 && AssignStride(s, start, vals).Some? && k < |s|
    requires 3 * q < k + 3 - start < 3 * q + 3
    ensures AssignStride(s, start, vals).value[k] == s[k]
  {
    assert !(k >= start && (k - start) % 3 == 0);
  }

  /** The first of a triple receives the second. */
  lemma SwapTriplesFirst<T>(s: seq<T>, q: nat, r: seq<T>, t: seq<T>)
    requires 3 * q < |s|
    requires AssignStride(s, 0, Stride(s, 1)) == Some(r)
    requires AssignStride(r, 1, Stride(s, 0)) == Some(t)
    ensures 3 * q + 1 < |s| && t[3 * q] == s[3 * q + 1]
  {
    assert t[3 * q] == r[3 * q] by {
      AssignStrideMiss(r, 1, Stride(s, 0), q, 3 * q);
    }
    assert q < |Stride(s, 1)| && r[3 * q] == Stride(s, 1)[q] by {
      AssignStrideHit(s, 0, Stride(s, 1), q);
    }
    StrideAt(s, 1, q);
  }

  /** The second of a triple receives the first. */
  lemma SwapTriplesSecond<T>(s: seq<T>, q: nat, r: seq<T>, t: seq<T>)
    requires 3 * q + 1 < |s|
    requires AssignStride(s, 0, Stride(s, 1)) == Some(r)
    requires AssignStride(r, 1, Stride(s, 0)) == Some(t)
    ensures t[3 * q + 1] == s[3 * q]
  {
    assert q < |Stride(s, 0)| && t[1 + 3 * q] == Stride(s, 0)[q] by {
      AssignStrideHit(r, 1, Stride(s, 0), q);
    }
    StrideAt(s, 0, q);
  }

  /** The third of a triple stays. */
  lemma SwapTriplesThird<T>(s: seq<T>, q: nat, r: seq<T>, t: seq<T>)
    requires 3 * q + 2 < |s|
    requires AssignStride(s, 0, Stride(s, 1)) == Some(r)
    requires AssignStride(r, 1, Stride(s, 0)) == Some(t)
    ensures t[3 * q + 2] == s[3 * q + 2]
  {
    assert t[3 * q + 2] == r[3 * q + 2] by {
      AssignStrideMiss(r, 1, Stride(s, 0), q + 1, 3 * q + 2);
    }
    assert r[3 * q + 2] == s[3 * q + 2] by {
      AssignStrideMiss(s, 0, Stride(s, 1), q + 1, 3 * q + 2);
    }
  }

  lemma DivMod3(k: nat)
    ensures k == 3 * (k / 3) + k % 3
  {
  }

  /** Element k after both assignments. */
  lemma SwapTriplesAt<T>(s: seq<T>, k: nat)
    requires |s| % 3 != 1 && k < |s|
    ensures SwapTriples(s).Some? && SwapTriples(s).value[k] == PairSwap(s)[k]
  {
    StrideLengths(|s|);
    var r := AssignStride(s, 0, Stride(s, 1)).value;
    var t := AssignStride(r, 1, Stride(s, 0)).value;
    assert SwapTriples(s) == Some(t);
    PairSwapIndex(s, k);
    var q := k / 3;
    DivMod3(k);
    if k % 3 == 0 {
      assert k == 3 * q;
      SwapTriplesFirst(s, q, r, t);
      assert t[k] == s[k + 1];
    } else if k % 3 == 1 {
      assert k == 3 * q + 1;
      SwapTriplesSecond(s, q, r, t);
      assert t[k] == s[k - 1];
    } else {
      assert k == 3 * q + 2;
      SwapTriplesThird(s, q, r, t);
      assert t[k] == s[k];
    }
  }

  /**
   * The tuple assignment raises exactly when len % 3 == 1 (the two slices
   * differ in length), and otherwise swaps the first two of every triple.
   */
  lemma SwapTriplesSpec<T>(s: seq<T>)
    ensures SwapTriples(s).None? <==> |s| % 3 == 1
    ensures SwapTriples(s).Some? ==> SwapTriples(s).value == PairSwap(s)
  {
    StrideLengths(|s|);
    if |s| % 3 != 1 {
      var t := SwapTriples(s).value;
      forall k | 0 <= k < |s|
        ensures t[k] == PairSwap(s)[k]
      {
        SwapTriplesAt(s, k);
      }
    }
  }

  /**
   * sort_stations: sorted by (station, channel), then the first two of every
   * triple exchanged. None is the ValueError of the slice assignment.
   */
  function SortStations(st: seq<StationTrace>): Option<seq<StationTrace>> {
    SwapTriples(SortByKey(st))
  }

  /** sort_stations fails exactly when len % 3 == 1; otherwise it permutes the traces. */
  lemma SortStationsSpec(st: seq<StationTrace>)
    ensures SortStations(st).None? <==> |st| % 3 == 1
    ensures SortStations(st).Some? ==>
      && SortStations(st).value == PairSwap(SortByKey(st))
      && multiset(SortStations(st).value) == multiset(st)
  {
    SwapTriplesSpec(SortByKey(st));
    PairSwapPermutes(SortByKey(st));
  }

  // ---------------------------------------------------------------------------
  // add_seismograms: Seismogram(sts[i:i + 3], file) for i in range(0, len(sts), 3)

  /** The arguments of one Seismogram: three traces and the file they came from. */
  datatype Group = Group(traces: seq<StationTrace>, file: string)

  /** The chunks sts[i:i + 3]; the last one is short when len % 3 != 0. */
  function Chunks(s: seq<StationTrace>): (r: seq<seq<StationTrace>>)
    ensures |r| == (|s| + 2) / 3
  {
    seq((|s| + 2) / 3, q requires 0 <= q < (|s| + 2) / 3 =>
      if 3 * q + 3 <= |s| then s[3 * q..3 * q + 3] else s[3 * q..])
  }

  /** The records of sorted traces: None when a chunk is too short for the constructor's traces[2]. */
  function GroupsOf(sorted: seq<StationTrace>, file: string): Option<seq<Group>> {
    var chunks := Chunks(sorted);
    if exists q :: 0 <= q < |chunks| && |chunks[q]| < 3 then None
    else Some(seq(|chunks|, q requires 0 <= q < |chunks| => Group(chunks[q], file)))
  }

  /**
   * One file's records: None when sort_stations raises or a chunk is too
   * short; the exception leaves nothing of the file.
   */
  function FileGroups(sts: seq<StationTrace>, file: string): Option<seq<Group>> {
    var sorted := SortStations(sts);
    if sorted.None? then None else GroupsOf(sorted.value, file)
  }

  /** Concatenation of the records' traces. */
  function Flatten(gs: seq<Group>): seq<StationTrace> {
    if gs == [] then [] else Flatten(gs[..|gs| - 1]) + gs[|gs| - 1].traces
  }

  lemma {:induction false} FlattenChunks(s: seq<StationTrace>, file: string, m: nat)
    requires |s| % 3 == 0 && m <= |s| / 3
    ensures var gs := seq(m, q requires 0 <= q < m => Group(s[3 * q..3 * q + 3], file));
      Flatten(gs) == s[..3 * m]
  {
    if m > 0 {
      var gs := seq(m, q requires 0 <= q < m => Group(s[3 * q..3 * q + 3], file));
      var init := seq(m - 1, q requires 0 <= q < m - 1 => Group(s[3 * q..3 * q + 3], file));
      assert gs[..m - 1] == init;
      FlattenChunks(s, file, m - 1);
      assert s[..3 * m] == s[..3 * (m - 1)] + s[3 * (m - 1)..3 * m];
    }
  }

  lemma ChunkCount(n: nat)
    ensures n % 3 == 0 ==> (n + 2) / 3 == n / 3 && 3 * (n / 3) == n
    ensures n % 3 == 2 ==> (n + 2) / 3 >= 1 && 3 * ((n + 2) / 3 - 1) + 3 > n
  {
    var q := n / 3;
    assert n == 3 * q + n % 3;
  }

  /** Two traces left over: the last chunk is too short. */
  lemma GroupsOfShort(sorted: seq<StationTrace>, file: string)
    requires |sorted| % 3 == 2
    ensures GroupsOf(sorted, file).None?
  {
    var chunks := Chunks(sorted);
    ChunkCount(|sorted|);
    var q := |chunks| - 1;
    assert |chunks[q]| < 3;
  }

  /** A multiple of three: len / 3 records of three traces, together the traces in order. */
  lemma GroupsOfFull(sorted: seq<StationTrace>, file: string)
    requires |sorted| % 3 == 0
    ensures GroupsOf(sorted, file).Some?
    ensures var gs := GroupsOf(sorted, file).value;
      && |gs| == |sorted| / 3
      && (forall q :: 0 <= q < |gs| ==> |gs[q].traces| == 3 && gs[q].file == file)
      && Flatten(gs) == sorted
  {
    var chunks := Chunks(sorted);
    ChunkCount(|sorted|);
    var m := |sorted| / 3;
    assert forall q :: 0 <= q < |chunks| ==> chunks[q] == sorted[3 * q..3 * q + 3];
    var gs := GroupsOf(sorted, file).value;
    assert gs == seq(m, q requires 0 <= q < m => Group(sorted[3 * q..3 * q + 3], file));
    FlattenChunks(sorted, file, m);
    assert sorted[..3 * m] == sorted;
  }

  lemma MultisetLength<T>(a: seq<T>, b: seq<T>)
    requires multiset(a) == multiset(b)
    ensures |a| == |b|
  {
    assert |multiset(a)| == |a| && |multiset(b)| == |b|;
  }

  /**
   * A file yields records exactly when its trace count is a multiple of 3:
   * then len / 3 records of three traces each, which together are the sorted
   * and swapped traces in order.
   */
  lemma FileGroupsSpec(sts: seq<StationTrace>, file: string)
    ensures FileGroups(sts, file).Some? <==> |sts| % 3 == 0
    ensures FileGroups(sts, file).Some? ==>
      var gs := FileGroups(sts, file).value;
      && |gs| == |sts| / 3
      && (forall q :: 0 <= q < |gs| ==> |gs[q].traces| == 3 && gs[q].file == file)
      && Flatten(gs) == SortStations(sts).value
  {
    SortStationsSpec(sts);
    if |sts| % 3 != 1 {
      var sorted := SortStations(sts).value;
      MultisetLength(sorted, sts);
      if |sts| % 3 == 2 {
        GroupsOfShort(sorted, file);
      } else {
        GroupsOfFull(sorted, file);
      }
    }
  }

  /**
   * The records of every file in order; obspy.read, the record's time bounds
   * and resampling are the parameter `read`, None for a file they reject.
   */
  function Collected(files: seq<string>, read: string -> Option<seq<StationTrace>>): seq<Group> {
    if files == [] then []
    else
      var f := files[|files| - 1];
      Collected(files[..|files| - 1], read) + FileContribution(f, read)
  }

  /** What one file adds: its records, or nothing when reading or grouping fails. */
  function FileContribution(f: string, read: string -> Option<seq<StationTrace>>): seq<Group> {
    var sts := read(f);
    if sts.None? then []
    else
      var gs := FileGroups(sts.value, f);
      if gs.None? then [] else gs.value
  }

  /** A failing file does not stop the others: the records of a + b are those of a, then those of b. */
  lemma {:induction false} CollectedAppend(a: seq<string>, b: seq<string>, read: string -> Option<seq<StationTrace>>)
    ensures Collected(a + b, read) == Collected(a, read) + Collected(b, read)
    decreases |b|
  {
    if b != [] {
      var n := |b| - 1;
      assert (a + b)[..|a + b| - 1] == a + b[..n];
      assert (a + b)[|a + b| - 1] == b[n];
      CollectedAppend(a, b[..n], read);
    } else {
      assert a + b == a;
    }
  }

  /** add_seismograms' loop over the chosen files, with its try/except per file. */
  method AddSeismograms(files: seq<string>, read: string -> Option<seq<StationTrace>>) returns (traces: seq<Group>)
    ensures traces == Collected(files, read)
  {
    traces := [];
    for i := 0 to |files|
      invariant traces == Collected(files[..i], read)
    {
      assert files[..i + 1][..i] == files[..i];
      var sts := read(files[i]);
      if sts.Some? {
        var gs := FileGroups(sts.value, files[i]);
        if gs.Some? {
          traces := traces + gs.value;
        }
      }
    }
    assert files[..|files|] == files;
  }

  // ---------------------------------------------------------------------------
  // get_file_path

  predicate IsSep(c: char) { c == '/' || c == '\\' }

  /** os.path.basename: what follows the last separator. */
  function Basename(path: string): (r: string)
    ensures |r| <= |path| && r == path[|path| - |r|..]
    ensures forall k :: 0 <= k < |r| ==> !IsSep(r[k])
    ensures |r| < |path| ==> IsSep(path[|path| - |r| - 1])
    decreases |path|
  {
    if path == [] || IsSep(path[|path| - 1]) then []
    else Basename(path[..|path| - 1]) + [path[|path| - 1]]
  }

  /**
   * get_file_path without its extension: the chosen path alone, or for a
   * sequence save the chosen path, the record file's base name and the station.
   */
  function GetFilePath(chosen: string, recordPath: string, station: string, isLongName: bool): (r: string)
    ensures !isLongName ==> r == chosen
    ensures isLongName ==>
      && |r| == |chosen| + |Basename(recordPath)| + |station| + 2
      && r[..|chosen|] == chosen
      && r[|chosen|] == '_'
      && r[|chosen| + 1..|chosen| + 1 + |Basename(recordPath)|] == Basename(recordPath)
      && r[|chosen| + 1 + |Basename(recordPath)|] == '_'
      && r[|r| - |station|..] == station
  {
    if isLongName then chosen + "_" + Basename(recordPath) + "_" + station else chosen
  }
}
