/** The correspondence step of the solver: Lowe's ratio test over the k = 2
    nearest-neighbour rows returned by the matcher, then the two aligned point lists. */
module Matching {
  import opened Wrappers

  /** A keypoint's image location (`KeyPoint.pt`). */
  datatype Point2 = Point2(x: real, y: real)

  /** A binary ORB descriptor. */
  type Descriptor = seq<bv8>

  /** One candidate match: `queryIdx` indexes the first keypoint set, `trainIdx` the second. */
  datatype DMatch = DMatch(queryIdx: int, trainIdx: int, distance: real)

  /** Two aligned point lists: entry i of each is the same scene point seen in each frame. */
  datatype Correspondences = Correspondences(p0: seq<Point2>, p1: seq<Point2>)

  /** A best match is kept only when it is closer than this fraction of the second best. */
  const RatioThreshold: real := 0.5

  /** Every row unpacks into `m, n`. */
  predicate AllPairs(rows: seq<seq<DMatch>>) {
    forall i :: 0 <= i < |rows| ==> |rows[i]| == 2
  }

  /** The ratio test on one (best, second best) row. */
  predicate Passes(row: seq<DMatch>)
    requires |row| == 2
  {
    row[0].distance < RatioThreshold * row[1].distance
  }

  /** The best match of every row. */
  function Bests(rows: seq<seq<DMatch>>): seq<DMatch>
    requires AllPairs(rows)
  {
    seq(|rows|, i requires 0 <= i < |rows| => rows[i][0])
  }

  /** The `good` list: the best match of every row that passes the ratio test, in row order. */
  function Kept(rows: seq<seq<DMatch>>): (kept: seq<DMatch>)
    requires AllPairs(rows)
    ensures |kept| <= |rows|
    ensures multiset(kept) <= multiset(Bests(rows))
    decreases |rows|
  {
    if rows == [] then []
    else
      var last := rows[|rows| - 1];
      assert Bests(rows) == Bests(rows[..|rows| - 1]) + [last[0]];
      Kept(rows[..|rows| - 1]) + (if Passes(last) then [last[0]] else [])
  }

  /** The positions of the rows whose best match is kept. */
  function KeptRows(rows: seq<seq<DMatch>>): seq<nat>
    requires AllPairs(rows)
    decreases |rows|
  {
    if rows == [] then []
    else KeptRows(rows[..|rows| - 1]) + (if Passes(rows[|rows| - 1]) then [|rows| - 1] else [])
  }

  /** The ratio test keeps a row's best match exactly when the row passes, and the kept
      matches appear in the order of their rows. */
  lemma {:induction false} KeptExactly(rows: seq<seq<DMatch>>)
    requires AllPairs(rows)
    ensures |KeptRows(rows)| == |Kept(rows)|
    ensures forall k :: 0 <= k < |KeptRows(rows)| ==>
              KeptRows(rows)[k] < |rows| && Kept(rows)[k] == rows[KeptRows(rows)[k]][0]
    ensures forall k, l :: 0 <= k < l < |KeptRows(rows)| ==> KeptRows(rows)[k] < KeptRows(rows)[l]
    ensures forall i :: 0 <= i < |rows| ==> (Passes(rows[i]) <==> i in KeptRows(rows))
    decreases |rows|
  {
    if rows != [] {
      var front := rows[..|rows| - 1];
      KeptExactly(front);
      forall i | 0 <= i < |front|
        ensures front[i] == rows[i]
      {
      }
    }
  }

  /** Descriptors that are all equally close to their two neighbours (identical
      descriptor sets, say) yield no match at all, and nothing is indexed. */
  lemma {:induction false} TiesKeepNothing(rows: seq<seq<DMatch>>)
    requires AllPairs(rows)
    requires forall i :: 0 <= i < |rows| ==> 0.0 <= rows[i][0].distance == rows[i][1].distance
    ensures Kept(rows) == []
    decreases |rows|
  {
    if rows != [] {
      TiesKeepNothing(rows[..|rows| - 1]);
    }
  }

  /** Extending the rows by one extends the kept matches by that row's best match, when
      it passes. */
  lemma KeptExtend(rows: seq<seq<DMatch>>, i: nat)
    requires i < |rows| && AllPairs(rows[..i + 1])
    ensures AllPairs(rows[..i]) && |rows[i]| == 2
    ensures Kept(rows[..i + 1]) == Kept(rows[..i]) + (if Passes(rows[i]) then [rows[i][0]] else [])
  {
    assert rows[..i + 1][..i] == rows[..i];
    assert rows[..i + 1][i] == rows[i];
  }

  /** The loop of the tracker: walks the matcher's rows and keeps the best match of each
      row that passes, raising ValueError at the first row that does not unpack into two
      matches. */
  method RatioTest(rows: seq<seq<DMatch>>) returns (r: Result<seq<DMatch>>)
    ensures AllPairs(rows) ==> r == Success(Kept(rows))
    ensures !AllPairs(rows) ==> r == Failure(ValueError)
  {
    var good: seq<DMatch> := [];
    var i := 0;
    while i < |rows|
      invariant 0 <= i <= |rows|
      invariant AllPairs(rows[..i])
      invariant good == Kept(rows[..i])
    {
      if |rows[i]| != 2 {
        return Failure(ValueError);
      }
      var m, n := rows[i][0], rows[i][1];
      KeptExtend(rows, i);
      if m.distance < RatioThreshold * n.distance {
        good := good + [m];
      }
      i := i + 1;
    }
    assert rows[..i] == rows;
    r := Success(good);
  }

  /** `[keypoints[i].pt for i in idx]`: Python subscripts, evaluated left to right. */
  function Gather(keypoints: seq<Point2>, idx: seq<int>): (r: Result<seq<Point2>>)
    ensures r.Success? <==> forall k :: 0 <= k < |idx| ==> PyIndex(idx[k], |keypoints|).Some?
    ensures r.Success? ==> |r.value| == |idx|
    ensures r.Success? ==>
      forall k :: 0 <= k < |idx| ==> r.value[k] == keypoints[PyIndex(idx[k], |keypoints|).value]
    decreases |idx|
  {
    if idx == [] then Success([])
    else
      match PyIndex(idx[0], |keypoints|)
      case None => Failure(IndexError)
      case Some(j) =>
        var rest :- Gather(keypoints, idx[1..]);
        Success([keypoints[j]] + rest)
  }

  /** `[m.queryIdx for m in good]` */
  function QueryIndices(good: seq<DMatch>): seq<int> {
    seq(|good|, k requires 0 <= k < |good| => good[k].queryIdx)
  }

  /** `[m.trainIdx for m in good]` */
  function TrainIndices(good: seq<DMatch>): seq<int> {
    seq(|good|, k requires 0 <= k < |good| => good[k].trainIdx)
  }

  /** What the tracker returns for the matcher's answer `matches`: the ratio-filtered
      correspondences, or the exception the Python code raises. */
  function Track(matches: Result<seq<seq<DMatch>>>, keypoints0: seq<Point2>, keypoints1: seq<Point2>)
    : (r: Result<Correspondences>)
    ensures matches.Failure? ==> r == Failure(matches.error)
    ensures r.Success? ==> matches.Success? && AllPairs(matches.value)
    ensures r.Success? ==> |r.value.p0| == |r.value.p1| == |Kept(matches.value)| <= |matches.value|
  {
    var rows :- matches;
    if !AllPairs(rows) then Failure(ValueError)
    else
      var good := Kept(rows);
      var p0 :- Gather(keypoints0, QueryIndices(good));
      var p1 :- Gather(keypoints1, TrainIndices(good));
      Success(Correspondences(p0, p1))
  }

  /** When tracking succeeds, the two point lists are aligned: one entry per kept row,
      entry k of `p0` the query keypoint and entry k of `p1` the train keypoint of the
      k-th kept row's best match. */
  lemma TrackAligned(matches: Result<seq<seq<DMatch>>>, keypoints0: seq<Point2>, keypoints1: seq<Point2>)
    requires Track(matches, keypoints0, keypoints1).Success?
    ensures matches.Success? && AllPairs(matches.value)
    ensures var c := Track(matches, keypoints0, keypoints1).value;
            var kept := KeptRows(matches.value);
            |c.p0| == |c.p1| == |kept| &&
            forall k :: 0 <= k < |kept| ==>
              kept[k] < |matches.value| &&
              PyIndex(matches.value[kept[k]][0].queryIdx, |keypoints0|).Some? &&
              PyIndex(matches.value[kept[k]][0].trainIdx, |keypoints1|).Some? &&
              c.p0[k] == keypoints0[PyIndex(matches.value[kept[k]][0].queryIdx, |keypoints0|).value] &&
              c.p1[k] == keypoints1[PyIndex(matches.value[kept[k]][0].trainIdx, |keypoints1|).value]
  {
    var good := Kept(matches.value);
    assert forall k :: 0 <= k < |good| ==> QueryIndices(good)[k] == good[k].queryIdx;
    assert forall k :: 0 <= k < |good| ==> TrainIndices(good)[k] == good[k].trainIdx;
    KeptExactly(matches.value);
  }

  /** `keypoints0[m.queryIdx]` raises IndexError. */
  predicate QueryOut(m: DMatch, keypoints: seq<Point2>) {
    PyIndex(m.queryIdx, |keypoints|).None?
  }

  /** `keypoints1[m.trainIdx]` raises IndexError. */
  predicate TrainOut(m: DMatch, keypoints: seq<Point2>) {
    PyIndex(m.trainIdx, |keypoints|).None?
  }

  /** The query-side comprehension raises exactly when some kept match's `queryIdx` is out of range. */
  lemma GatherQueriesFails(keypoints: seq<Point2>, good: seq<DMatch>)
    ensures Gather(keypoints, QueryIndices(good)).Failure? <==>
      exists k :: 0 <= k < |good| && QueryOut(good[k], keypoints)
  {
    var idx := QueryIndices(good);
    assert forall k :: 0 <= k < |good| ==> idx[k] == good[k].queryIdx;
  }

  /** The train-side comprehension raises exactly when some kept match's `trainIdx` is out of range. */
  lemma GatherTrainsFails(keypoints: seq<Point2>, good: seq<DMatch>)
    ensures Gather(keypoints, TrainIndices(good)).Failure? <==>
      exists k :: 0 <= k < |good| && TrainOut(good[k], keypoints)
  {
    var idx := TrainIndices(good);
    assert forall k :: 0 <= k < |good| ==> idx[k] == good[k].trainIdx;
  }

  /** Tracking raises exactly when the matcher raised, some row does not unpack into two
      matches, or a kept match's index lies outside its keypoint set. */
  lemma TrackFailsExactly(matches: Result<seq<seq<DMatch>>>, keypoints0: seq<Point2>, keypoints1: seq<Point2>)
    ensures Track(matches, keypoints0, keypoints1).Failure? <==>
      || matches.Failure?
      || !AllPairs(matches.value)
      || exists k :: 0 <= k < |Kept(matches.value)| &&
           (QueryOut(Kept(matches.value)[k], keypoints0) || TrainOut(Kept(matches.value)[k], keypoints1))
  {
    if matches.Success? && AllPairs(matches.value) {
      var good := Kept(matches.value);
      GatherQueriesFails(keypoints0, good);
      GatherTrainsFails(keypoints1, good);
      assert Track(matches, keypoints0, keypoints1).Failure? <==>
        Gather(keypoints0, QueryIndices(good)).Failure? || Gather(keypoints1, TrainIndices(good)).Failure?;
      if exists k :: 0 <= k < |good| && (QueryOut(good[k], keypoints0) || TrainOut(good[k], keypoints1)) {
        var k :| 0 <= k < |good| && (QueryOut(good[k], keypoints0) || TrainOut(good[k], keypoints1));
        assert QueryOut(good[k], keypoints0) ==> Gather(keypoints0, QueryIndices(good)).Failure?;
        assert TrainOut(good[k], keypoints1) ==> Gather(keypoints1, TrainIndices(good)).Failure?;
        assert exists j :: 0 <= j < |Kept(matches.value)| && (QueryOut(Kept(matches.value)[j], keypoints0) ||
                                                             TrainOut(Kept(matches.value)[j], keypoints1));
      } else {
        assert Gather(keypoints0, QueryIndices(good)).Success?;
        assert Gather(keypoints1, TrainIndices(good)).Success?;
      }
    }
  }
}
