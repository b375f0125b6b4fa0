/** Greedy non-maximum suppression over scored boxes, with floats taken as reals. */
module Nms {
  import opened Bytes
  import opened Grid

  datatype Detection = Detection(classId: int, name: string, score: real, x1: real, y1: real, x2: real, y2: real)

  // ----- overlap

  function Larger(a: real, b: real): real {
    if a < b then b else a
  }

  function Smaller(a: real, b: real): real {
    if b < a then b else a
  }

  function Length(from: real, to: real): (n: real)
    ensures n >= 0.0
  {
    Larger(0.0, to - from)
  }

  function Area(d: Detection): real {
    Length(d.x1, d.x2) * Length(d.y1, d.y2)
  }

  function Overlap(a: Detection, b: Detection): real {
    Length(Larger(a.x1, b.x1), Smaller(a.x2, b.x2)) * Length(Larger(a.y1, b.y1), Smaller(a.y2, b.y2))
  }

  function Ratio(part: real, whole: real): real {
    if whole <= 0.0 then 0.0 else part / whole
  }

  function IntersectionOverUnion(a: Detection, b: Detection): real {
    Ratio(Overlap(a, b), Area(a) + Area(b) - Overlap(a, b))
  }

  predicate Proper(d: Detection) {
    d.x1 < d.x2 && d.y1 < d.y2
  }

  lemma OverlapSymmetric(a: Detection, b: Detection)
    ensures Overlap(a, b) == Overlap(b, a)
  {
    assert Larger(a.x1, b.x1) == Larger(b.x1, a.x1) && Larger(a.y1, b.y1) == Larger(b.y1, a.y1);
    assert Smaller(a.x2, b.x2) == Smaller(b.x2, a.x2) && Smaller(a.y2, b.y2) == Smaller(b.y2, a.y2);
  }

  lemma IouSymmetric(a: Detection, b: Detection)
    ensures IntersectionOverUnion(a, b) == IntersectionOverUnion(b, a)
  {
    OverlapSymmetric(a, b);
  }

  lemma ProductGrows(a: real, b: real, c: real, d: real)
    requires 0.0 <= a <= c && 0.0 <= b <= d
    ensures 0.0 <= a * b <= c * d
  {
    assert a * b <= c * b;
    assert c * b <= c * d;
  }

  lemma OverlapInside(a: Detection, b: Detection)
    ensures 0.0 <= Overlap(a, b) <= Area(a)
  {
    ProductGrows(Length(Larger(a.x1, b.x1), Smaller(a.x2, b.x2)), Length(Larger(a.y1, b.y1), Smaller(a.y2, b.y2)),
                 Length(a.x1, a.x2), Length(a.y1, a.y2));
  }

  lemma RatioInUnit(part: real, whole: real)
    requires 0.0 <= part <= whole
    ensures 0.0 <= Ratio(part, whole) <= 1.0
    ensures part == whole > 0.0 ==> Ratio(part, whole) == 1.0
  {
  }

  /** The measure of any two boxes, even empty ones, lies between 0 and 1. */
  lemma IouInUnit(a: Detection, b: Detection)
    ensures 0.0 <= IntersectionOverUnion(a, b) <= 1.0
  {
    OverlapInside(a, b);
    OverlapInside(b, a);
    OverlapSymmetric(a, b);
    RatioInUnit(Overlap(a, b), Area(a) + Area(b) - Overlap(a, b));
  }

  lemma ProductPositive(a: real, b: real)
    requires 0.0 < a && 0.0 < b
    ensures 0.0 < a * b
  {
  }

  lemma IouSelf(d: Detection)
    requires Proper(d)
    ensures IntersectionOverUnion(d, d) == 1.0
  {
    ProductPositive(Length(d.x1, d.x2), Length(d.y1, d.y2));
    assert Overlap(d, d) == Area(d);
    RatioInUnit(Overlap(d, d), Area(d) + Area(d) - Overlap(d, d));
  }

  // ----- what the measure means

  /** The unit cells of a box with whole-number corners. */
  datatype GridBox = GridBox(x1: int, y1: int, x2: int, y2: int) {
    function Cells(): set<(int, int)> {
      set x: int, y: int | x1 <= x < x2 && y1 <= y < y2 :: (x, y)
    }
  }

  predicate Has(d: Detection, b: GridBox) {
    d.x1 == b.x1 as real && d.y1 == b.y1 as real && d.x2 == b.x2 as real && d.y2 == b.y2 as real
  }

  function Common(a: GridBox, b: GridBox): GridBox {
    GridBox(Max(a.x1, b.x1), Max(a.y1, b.y1), Min(a.x2, b.x2), Min(a.y2, b.y2))
  }

  lemma {:induction false} ColumnCells(x: int, y1: int, n: nat)
    ensures |GridBox(x, y1, x + 1, y1 + n).Cells()| == n
  {
    var b := GridBox(x, y1, x + 1, y1 + n);
    if n == 0 {
      assert b.Cells() == {};
    } else {
      ColumnCells(x, y1, n - 1);
      assert b.Cells() == GridBox(x, y1, x + 1, y1 + (n - 1)).Cells() + {(x, y1 + n - 1)};
    }
  }

  lemma {:induction false} BoxCells(x1: int, y1: int, w: nat, h: nat)
    ensures |GridBox(x1, y1, x1 + w, y1 + h).Cells()| == w * h
  {
    var b := GridBox(x1, y1, x1 + w, y1 + h);
    if w == 0 {
      assert b.Cells() == {};
    } else {
      var most, last := GridBox(x1, y1, x1 + (w - 1), y1 + h), GridBox(x1 + w - 1, y1, x1 + w, y1 + h);
      BoxCells(x1, y1, w - 1, h);
      ColumnCells(x1 + w - 1, y1, h);
      LastColumn(b, most, last);
      SumCount(most.Cells(), last.Cells());
      NextRow(w - 1, h);
    }
  }

  lemma LastColumn(b: GridBox, most: GridBox, last: GridBox)
    requires b.x1 < b.x2 && most == b.(x2 := b.x2 - 1) && last == b.(x1 := b.x2 - 1)
    ensures b.Cells() == most.Cells() + last.Cells() && most.Cells() !! last.Cells()
  {
  }

  lemma SumCount<T>(a: set<T>, b: set<T>)
    ensures |a + b| + |a * b| == |a| + |b|
  {
  }

  lemma CellCount(b: GridBox)
    ensures |b.Cells()| == Max(0, b.x2 - b.x1) * Max(0, b.y2 - b.y1)
  {
    if b.x1 < b.x2 && b.y1 < b.y2 {
      BoxCells(b.x1, b.y1, b.x2 - b.x1, b.y2 - b.y1);
    } else {
      assert b.Cells() == {};
    }
  }

  lemma CommonCells(a: GridBox, b: GridBox)
    ensures Common(a, b).Cells() == a.Cells() * b.Cells()
  {
  }

  lemma RealProduct(m: nat, n: nat)
    ensures (m * n) as real == m as real * n as real
  {
  }

  lemma LengthCounts(from: int, to: int)
    ensures Length(from as real, to as real) == Max(0, to - from) as real
  {
  }

  lemma CommonSide(a1: int, a2: int, b1: int, b2: int)
    ensures Length(Larger(a1 as real, b1 as real), Smaller(a2 as real, b2 as real))
         == Max(0, Min(a2, b2) - Max(a1, b1)) as real
  {
    LengthCounts(Max(a1, b1), Min(a2, b2));
  }

  lemma ProductOf(p: real, q: real, m: nat, n: nat)
    requires p == m as real && q == n as real
    ensures p * q == (m * n) as real
  {
    RealProduct(m, n);
  }

  lemma AreaCounts(d: Detection, b: GridBox)
    requires Has(d, b)
    ensures Area(d) == |b.Cells()| as real
  {
    CellCount(b);
    LengthCounts(b.x1, b.x2);
    LengthCounts(b.y1, b.y2);
    ProductOf(Length(d.x1, d.x2), Length(d.y1, d.y2), Max(0, b.x2 - b.x1), Max(0, b.y2 - b.y1));
  }

  lemma OverlapProduct(d: Detection, e: Detection, a: GridBox, b: GridBox)
    requires Has(d, a) && Has(e, b)
    ensures var c := Common(a, b);
            Overlap(d, e) == (Max(0, c.x2 - c.x1) * Max(0, c.y2 - c.y1)) as real
  {
    var c := Common(a, b);
    CommonSide(a.x1, a.x2, b.x1, b.x2);
    CommonSide(a.y1, a.y2, b.y1, b.y2);
    ProductOf(Length(Larger(d.x1, e.x1), Smaller(d.x2, e.x2)), Length(Larger(d.y1, e.y1), Smaller(d.y2, e.y2)),
              Max(0, c.x2 - c.x1), Max(0, c.y2 - c.y1));
  }

  lemma OverlapCounts(d: Detection, e: Detection, a: GridBox, b: GridBox)
    requires Has(d, a) && Has(e, b)
    ensures Overlap(d, e) == |a.Cells() * b.Cells()| as real
  {
    CommonCells(a, b);
    CellCount(Common(a, b));
    OverlapProduct(d, e, a, b);
  }

  /** The share of `either` that is `both`. */
  function Share(both: nat, either: nat): real {
    if either == 0 then 0.0 else both as real / either as real
  }

  /** Intersection over union: of the unit cells in either of two boxes, the measure is the
      share that is in both; it is 0 when there are none. */
  lemma IouCountsCells(d: Detection, e: Detection, a: GridBox, b: GridBox)
    requires Has(d, a) && Has(e, b)
    ensures IntersectionOverUnion(d, e) == Share(|a.Cells() * b.Cells()|, |a.Cells() + b.Cells()|)
  {
    var part, x, y := MeasureCounts(d, e, a, b);
    SumCount(a.Cells(), b.Cells());
  }

  lemma MeasureCounts(d: Detection, e: Detection, a: GridBox, b: GridBox) returns (part: real, x: real, y: real)
    requires Has(d, a) && Has(e, b)
    ensures IntersectionOverUnion(d, e) == Ratio(part, x + y - part)
    ensures part == |a.Cells() * b.Cells()| as real && x == |a.Cells()| as real && y == |b.Cells()| as real
  {
    part, x, y := Overlap(d, e), Area(d), Area(e);
    AreaCounts(d, a);
    AreaCounts(e, b);
    OverlapCounts(d, e, a, b);
  }

  // ----- suppression

  /** An already selected box suppresses a candidate of its class that it overlaps too much. */
  predicate Suppresses(selected: Detection, candidate: Detection, threshold: real) {
    candidate.classId == selected.classId && IntersectionOverUnion(candidate, selected) > threshold
  }

  predicate Suppressed(candidate: Detection, kept: seq<Detection>, threshold: real) {
    exists i :: 0 <= i < |kept| && Suppresses(kept[i], candidate, threshold)
  }

  /** One box suppresses another when they are of one class and, of the cells in either, more
      than the threshold's share is in both. */
  lemma SuppressesMeans(d: Detection, e: Detection, a: GridBox, b: GridBox, threshold: real)
    requires Has(d, a) && Has(e, b)
    ensures Suppresses(d, e, threshold)
       <==> d.classId == e.classId && Share(|a.Cells() * b.Cells()|, |a.Cells() + b.Cells()|) > threshold
  {
    IouCountsCells(e, d, b, a);
    Commute(a.Cells(), b.Cells());
  }

  lemma Commute<T>(a: set<T>, b: set<T>)
    ensures a + b == b + a && a * b == b * a
  {
  }

  lemma SuppressionSymmetric(a: Detection, b: Detection, threshold: real)
    ensures Suppresses(a, b, threshold) == Suppresses(b, a, threshold)
  {
    IouSymmetric(a, b);
  }

  /** The greedy choice, without a limit. */
  function Greedy(dets: seq<Detection>, threshold: real): seq<Detection> {
    if dets == [] then []
    else
      var kept := Greedy(dets[..|dets| - 1], threshold);
      if Suppressed(dets[|dets| - 1], kept, threshold) then kept else kept + [dets[|dets| - 1]]
  }

  function Limited(kept: seq<Detection>, maxResults: int): seq<Detection> {
    if 0 < maxResults < |kept| then kept[..maxResults] else kept
  }

  predicate Descending(dets: seq<Detection>) {
    forall i, j :: 0 <= i < j < |dets| ==> dets[i].score >= dets[j].score
  }

  ghost predicate IsSorting(sorted: seq<Detection>, dets: seq<Detection>) {
    Descending(sorted) && multiset(sorted) == multiset(dets)
  }

  // ----- the code

  lemma InsertDescends(sorted: seq<Detection>, at: nat, d: Detection)
    requires at <= |sorted| && Descending(sorted)
    requires at > 0 ==> sorted[at - 1].score >= d.score
    requires at < |sorted| ==> d.score >= sorted[at].score
    ensures Descending(sorted[..at] + [d] + sorted[at..])
  {
    var now := sorted[..at] + [d] + sorted[at..];
    forall i, j | 0 <= i < j < |now| ensures now[i].score >= now[j].score {
      if i == at {
        assert now[j] == sorted[j - 1];
      } else if j == at {
        assert now[i] == sorted[i];
      }
    }
  }

  lemma InsertAdds(sorted: seq<Detection>, at: nat, d: Detection)
    requires at <= |sorted|
    ensures multiset(sorted[..at] + [d] + sorted[at..]) == multiset(sorted) + multiset{d}
  {
    assert sorted == sorted[..at] + sorted[at..];
  }

  lemma InsertSorts(sorted: seq<Detection>, at: nat, d: Detection, dets: seq<Detection>)
    requires at <= |sorted| && IsSorting(sorted, dets)
    requires at > 0 ==> sorted[at - 1].score >= d.score
    requires at < |sorted| ==> d.score >= sorted[at].score
    ensures IsSorting(sorted[..at] + [d] + sorted[at..], dets + [d])
  {
    InsertDescends(sorted, at, d);
    InsertAdds(sorted, at, d);
  }

  method InsertByScore(sorted: seq<Detection>, d: Detection, ghost dets: seq<Detection>) returns (now: seq<Detection>)
    requires IsSorting(sorted, dets)
    ensures IsSorting(now, dets + [d])
  {
    var at := |sorted|;
    while at > 0 && sorted[at - 1].score < d.score
      invariant 0 <= at <= |sorted|
      invariant at < |sorted| ==> sorted[at].score < d.score
    {
      at := at - 1;
    }
    InsertSorts(sorted, at, d, dets);
    now := sorted[..at] + [d] + sorted[at..];
  }

  /** The library sort: some descending arrangement; ties may fall either way. */
  method SortByScore(dets: seq<Detection>) returns (sorted: seq<Detection>)
    ensures IsSorting(sorted, dets)
  {
    sorted := [];
    var i := 0;
    while i < |dets|
      invariant 0 <= i <= |dets|
      invariant IsSorting(sorted, dets[..i])
    {
      TakeOneMore(dets, i);
      sorted := InsertByScore(sorted, dets[i], dets[..i]);
      i := i + 1;
    }
    TakeAll(dets);
  }

  method IsSuppressed(candidate: Detection, kept: seq<Detection>, threshold: real) returns (suppressed: bool)
    ensures suppressed == Suppressed(candidate, kept, threshold)
  {
    suppressed := false;
    for k := 0 to |kept|
      invariant forall i :: 0 <= i < k ==> !Suppresses(kept[i], candidate, threshold)
    {
      if candidate.classId == kept[k].classId && IntersectionOverUnion(candidate, kept[k]) > threshold {
        return true;
      }
    }
  }

  method ApplyNms(detections: seq<Detection>, threshold: real, maxResults: int)
      returns (kept: seq<Detection>)
    ensures exists sorted :: IsSorting(sorted, detections) && kept == Limited(Greedy(sorted, threshold), maxResults)
  {
    var order := SortByScore(detections);
    kept := [];
    var i := 0;
    while i < |order|
      invariant 0 <= i <= |order|
      invariant kept == Greedy(order[..i], threshold)
      invariant maxResults > 0 ==> |kept| < maxResults
    {
      TakeOneMore(order, i);
      var suppressed := IsSuppressed(order[i], kept, threshold);
      i := i + 1;
      if !suppressed {
        kept := kept + [order[i - 1]];
        if maxResults > 0 && |kept| >= maxResults {
          GreedyPrefix(order, threshold, i);
          return;
        }
      }
    }
    assert order[..i] == order;
  }

  lemma {:induction false} GreedyPrefix(dets: seq<Detection>, threshold: real, k: nat)
    requires k <= |dets|
    ensures Greedy(dets[..k], threshold) <= Greedy(dets, threshold)
  {
    if k < |dets| {
      GreedyPrefix(dets[..|dets| - 1], threshold, k);
      assert dets[..|dets| - 1][..k] == dets[..k];
    } else {
      assert dets[..k] == dets;
    }
  }

  // ----- soundness and maximality

  predicate Independent(kept: seq<Detection>, threshold: real) {
    forall i, j :: 0 <= i < |kept| && 0 <= j < |kept| && i != j ==> !Suppresses(kept[i], kept[j], threshold)
  }

  lemma SnocIndependent(kept: seq<Detection>, d: Detection, threshold: real)
    requires Independent(kept, threshold) && !Suppressed(d, kept, threshold)
    ensures Independent(kept + [d], threshold)
  {
    forall i | 0 <= i < |kept| ensures !Suppresses(kept[i], d, threshold) && !Suppresses(d, kept[i], threshold) {
      SuppressionSymmetric(kept[i], d, threshold);
    }
  }

  /** No two of the boxes kept suppress each other. */
  lemma {:induction false} GreedyIndependent(dets: seq<Detection>, threshold: real)
    ensures Independent(Greedy(dets, threshold), threshold)
  {
    if dets != [] {
      var init, last := dets[..|dets| - 1], dets[|dets| - 1];
      GreedyIndependent(init, threshold);
      if !Suppressed(last, Greedy(init, threshold), threshold) {
        SnocIndependent(Greedy(init, threshold), last, threshold);
      }
    }
  }

  predicate AllAtLeast(dets: seq<Detection>, score: real) {
    forall i :: 0 <= i < |dets| ==> dets[i].score >= score
  }

  /** Scores descend, and nothing is kept that was not given. */
  lemma {:induction false} GreedyDescends(dets: seq<Detection>, threshold: real)
    requires Descending(dets)
    ensures Descending(Greedy(dets, threshold))
    ensures dets != [] ==> AllAtLeast(Greedy(dets, threshold), dets[|dets| - 1].score)
  {
    if dets != [] {
      GreedyDescends(dets[..|dets| - 1], threshold);
    }
  }

  lemma {:induction false} GreedySubset(dets: seq<Detection>, threshold: real)
    ensures multiset(Greedy(dets, threshold)) <= multiset(dets)
  {
    if dets != [] {
      GreedySubset(dets[..|dets| - 1], threshold);
      assert dets == dets[..|dets| - 1] + [dets[|dets| - 1]];
    }
  }

  /** A box of d's class, of at least its score, that overlaps it too much. */
  predicate Beaten(d: Detection, kept: seq<Detection>, threshold: real) {
    exists i :: 0 <= i < |kept| && Suppresses(kept[i], d, threshold) && kept[i].score >= d.score
  }

  lemma BeatenByMore(d: Detection, kept: seq<Detection>, more: seq<Detection>, threshold: real)
    requires Beaten(d, kept, threshold) && kept <= more
    ensures Beaten(d, more, threshold)
  {
    var i :| 0 <= i < |kept| && Suppresses(kept[i], d, threshold) && kept[i].score >= d.score;
    assert more[i] == kept[i];
  }

  lemma BeatenLast(init: seq<Detection>, last: Detection, threshold: real)
    requires Descending(init) && AllAtLeast(init, last.score) && Suppressed(last, Greedy(init, threshold), threshold)
    ensures Beaten(last, Greedy(init, threshold), threshold)
  {
    var kept := Greedy(init, threshold);
    GreedyDescends(init, threshold);
    var i :| 0 <= i < |kept| && Suppresses(kept[i], last, threshold);
    assert kept[i].score >= init[|init| - 1].score;
  }

  lemma LastLeftOut(init: seq<Detection>, last: Detection, kept: seq<Detection>, now: seq<Detection>, d: Detection)
    requires multiset(kept)[d] >= multiset(init)[d] && (now == kept || now == kept + [last])
    requires multiset(now)[d] < multiset(init + [last])[d]
    ensures d == last && now == kept
  {
  }

  /** Every copy of a box that is not kept is beaten by one that is. */
  lemma {:induction false} GreedyMaximal(dets: seq<Detection>, threshold: real, d: Detection)
    requires Descending(dets)
    requires multiset(Greedy(dets, threshold))[d] < multiset(dets)[d]
    ensures Beaten(d, Greedy(dets, threshold), threshold)
  {
    var init, last := dets[..|dets| - 1], dets[|dets| - 1];
    var kept := Greedy(init, threshold);
    SplitLast(dets);
    if multiset(kept)[d] < multiset(init)[d] {
      GreedyMaximal(init, threshold, d);
      BeatenByMore(d, kept, Greedy(dets, threshold), threshold);
    } else {
      assert d == last && Suppressed(last, kept, threshold) by {
        GreedySubset(init, threshold);
        LastLeftOut(init, last, kept, Greedy(dets, threshold), d);
      }
      BeatenLast(init, last, threshold);
    }
  }

  /** The limit was reached before d's turn came. */
  predicate CutOff(d: Detection, kept: seq<Detection>, maxResults: int) {
    0 < maxResults == |kept| && AllAtLeast(kept, d.score)
  }

  lemma {:induction false} MissingFromPrefix(all: seq<Detection>, n: nat, d: Detection) returns (i: nat)
    requires n <= |all| && multiset(all[..n])[d] < multiset(all)[d]
    ensures n <= i < |all| && all[i] == d
  {
    assert all == all[..n] + all[n..];
    assert d in all[n..];
    i :| n <= i < |all| && all[i] == d;
  }

  /** Every box left out is beaten by a result, or came after the limit was reached. */
  lemma NmsMaximal(dets: seq<Detection>, sorted: seq<Detection>, threshold: real, maxResults: int, d: Detection)
    requires IsSorting(sorted, dets)
    requires multiset(Limited(Greedy(sorted, threshold), maxResults))[d] < multiset(dets)[d]
    ensures var kept := Limited(Greedy(sorted, threshold), maxResults);
            Beaten(d, kept, threshold) || CutOff(d, kept, maxResults)
  {
    var all := Greedy(sorted, threshold);
    var kept := Limited(all, maxResults);
    GreedyDescends(sorted, threshold);
    var i: nat;
    if multiset(all)[d] < multiset(dets)[d] {
      GreedyMaximal(sorted, threshold, d);
      i :| i < |all| && Suppresses(all[i], d, threshold) && all[i].score >= d.score;
    } else {
      assert kept == all[..|kept|];
      i := MissingFromPrefix(all, |kept|, d);
    }
    if i < |kept| {
      assert kept[i] == all[i];
    }
  }

  /** Soundness of the whole call: scores descend, the result is taken from the input, and
      no two results suppress each other. */
  lemma NmsSound(dets: seq<Detection>, sorted: seq<Detection>, threshold: real, maxResults: int)
    requires IsSorting(sorted, dets)
    ensures var kept := Limited(Greedy(sorted, threshold), maxResults);
            Descending(kept) && Independent(kept, threshold) && multiset(kept) <= multiset(dets)
  {
    var all := Greedy(sorted, threshold);
    var kept := Limited(all, maxResults);
    assert kept == all[..|kept|];
    GreedyIndependent(sorted, threshold);
    GreedyDescends(sorted, threshold);
    GreedySubset(sorted, threshold);
    PrefixSubset(all, |kept|);
    PrefixDescends(all, |kept|);
    PrefixIndependent(all, |kept|, threshold);
  }

  lemma PrefixSubset(all: seq<Detection>, n: nat)
    requires n <= |all|
    ensures multiset(all[..n]) <= multiset(all)
  {
    assert all == all[..n] + all[n..];
  }

  lemma PrefixDescends(all: seq<Detection>, n: nat)
    requires n <= |all| && Descending(all)
    ensures Descending(all[..n])
  {
  }

  lemma PrefixIndependent(all: seq<Detection>, n: nat, threshold: real)
    requires n <= |all| && Independent(all, threshold)
    ensures Independent(all[..n], threshold)
  {
  }

  // ----- classes and the limit

  function OfClass(dets: seq<Detection>, classId: int): seq<Detection> {
    if dets == [] then []
    else
      var last := dets[|dets| - 1];
      OfClass(dets[..|dets| - 1], classId) + if last.classId == classId then [last] else []
  }

  lemma OfClassSnoc(dets: seq<Detection>, last: Detection, classId: int)
    ensures OfClass(dets + [last], classId) == OfClass(dets, classId) + if last.classId == classId then [last] else []
  {
    assert (dets + [last])[..|dets|] == dets;
  }

  lemma {:induction false} OfClassMembers(dets: seq<Detection>, classId: int, d: Detection)
    ensures d in OfClass(dets, classId) <==> d in dets && d.classId == classId
  {
    if dets != [] {
      OfClassMembers(dets[..|dets| - 1], classId, d);
      SplitLast(dets);
    }
  }

  /** Only boxes of the candidate's own class count against it. */
  lemma SuppressedInClass(d: Detection, kept: seq<Detection>, threshold: real)
    ensures Suppressed(d, kept, threshold) == Suppressed(d, OfClass(kept, d.classId), threshold)
  {
    var same := OfClass(kept, d.classId);
    if i :| 0 <= i < |kept| && Suppresses(kept[i], d, threshold) {
      OfClassMembers(kept, d.classId, kept[i]);
      var k :| 0 <= k < |same| && same[k] == kept[i];
      assert Suppresses(same[k], d, threshold);
    }
    if i :| 0 <= i < |same| && Suppresses(same[i], d, threshold) {
      OfClassMembers(kept, d.classId, same[i]);
      var k :| 0 <= k < |kept| && kept[k] == same[i];
      assert Suppresses(kept[k], d, threshold);
    }
  }

  lemma GreedySnoc(dets: seq<Detection>, last: Detection, threshold: real)
    ensures var kept := Greedy(dets, threshold);
            Greedy(dets + [last], threshold) == if Suppressed(last, kept, threshold) then kept else kept + [last]
  {
    assert (dets + [last])[..|dets|] == dets;
  }

  lemma ClassesApartSnoc(init: seq<Detection>, last: Detection, threshold: real, classId: int)
    requires OfClass(Greedy(init, threshold), classId) == Greedy(OfClass(init, classId), threshold)
    ensures OfClass(Greedy(init + [last], threshold), classId) == Greedy(OfClass(init + [last], classId), threshold)
  {
    GreedySnoc(init, last, threshold);
    OfClassSnoc(Greedy(init, threshold), last, classId);
    OfClassSnoc(init, last, classId);
    if last.classId == classId {
      SuppressedInClass(last, Greedy(init, threshold), threshold);
      GreedySnoc(OfClass(init, classId), last, threshold);
    } else {
      TakeAll(OfClass(init, classId));
      TakeAll(OfClass(Greedy(init, threshold), classId));
    }
  }

  /** Classes do not interfere: what is kept of a class is what the greedy choice keeps when
      given the boxes of that class alone. */
  lemma {:induction false} ClassesApart(dets: seq<Detection>, threshold: real, classId: int)
    ensures OfClass(Greedy(dets, threshold), classId) == Greedy(OfClass(dets, classId), threshold)
  {
    if dets != [] {
      ClassesApart(dets[..|dets| - 1], threshold, classId);
      ClassesApartSnoc(dets[..|dets| - 1], dets[|dets| - 1], threshold, classId);
      SplitLast(dets);
    }
  }

  /** A positive limit is kept to and used up; without one everything chosen is returned. */
  lemma LimitKept(all: seq<Detection>, maxResults: int)
    ensures Limited(all, maxResults) <= all
    ensures |Limited(all, maxResults)| == if maxResults > 0 then Min(maxResults, |all|) else |all|
  {
  }

  // ----- determinacy

  /** Pairwise distinct scores. */
  ghost predicate DistinctScores(dets: seq<Detection>) {
    && (forall d :: multiset(dets)[d] <= 1)
    && forall a, b :: a in multiset(dets) && b in multiset(dets) && a.score == b.score ==> a == b
  }

  predicate Strict(dets: seq<Detection>) {
    forall i, j :: 0 <= i < j < |dets| ==> dets[i].score > dets[j].score
  }

  lemma TwiceIsTwo(s: seq<Detection>, i: nat, j: nat)
    requires i < j < |s| && s[i] == s[j]
    ensures multiset(s)[s[i]] >= 2
  {
    assert s == s[..j] + [s[j]] + s[j + 1..];
    assert s[i] in s[..j];
  }

  lemma SortingIsStrict(sorted: seq<Detection>, dets: seq<Detection>)
    requires IsSorting(sorted, dets) && DistinctScores(dets)
    ensures Strict(sorted)
  {
    forall i, j | 0 <= i < j < |sorted| ensures sorted[i].score > sorted[j].score {
      assert sorted[i] in multiset(sorted) && sorted[j] in multiset(sorted);
      if sorted[i] == sorted[j] {
        TwiceIsTwo(sorted, i, j);
      }
    }
  }

  lemma FirstIsHighest(a: seq<Detection>, d: Detection)
    requires Strict(a) && d in multiset(a)
    ensures a[0].score > d.score || a[0] == d
  {
    assert d in a;
    var m :| 0 <= m < |a| && a[m] == d;
  }

  lemma TailElements(a: seq<Detection>)
    requires a != []
    ensures multiset(a[1..]) == multiset(a) - multiset{a[0]}
    ensures a[0] in multiset(a)
  {
    assert a == [a[0]] + a[1..];
  }

  lemma SameFirst(a: seq<Detection>, b: seq<Detection>)
    requires Strict(a) && Strict(b) && multiset(a) == multiset(b) && a != [] && b != []
    ensures a[0] == b[0] && multiset(a[1..]) == multiset(b[1..])
  {
    TailElements(a);
    TailElements(b);
    FirstIsHighest(a, b[0]);
    FirstIsHighest(b, a[0]);
  }

  lemma {:induction false} StrictUnique(a: seq<Detection>, b: seq<Detection>)
    requires Strict(a) && Strict(b) && multiset(a) == multiset(b)
    ensures a == b
  {
    assert |a| == |multiset(a)| == |multiset(b)| == |b|;
    if a != [] {
      SameFirst(a, b);
      StrictUnique(a[1..], b[1..]);
      assert a == [a[0]] + a[1..] && b == [b[0]] + b[1..];
    }
  }

  /** With distinct scores the result depends only on which boxes are given, not on their
      order nor on the sort used. */
  lemma OrderIrrelevant(dets: seq<Detection>, other: seq<Detection>,
                        sorted: seq<Detection>, sortedOther: seq<Detection>, threshold: real, maxResults: int)
    requires multiset(dets) == multiset(other) && DistinctScores(dets)
    requires IsSorting(sorted, dets) && IsSorting(sortedOther, other)
    ensures Limited(Greedy(sorted, threshold), maxResults) == Limited(Greedy(sortedOther, threshold), maxResults)
  {
    SortingIsStrict(sorted, dets);
    SortingIsStrict(sortedOther, other);
    StrictUnique(sorted, sortedOther);
  }

  lemma {:induction false} GreedyOfIndependent(kept: seq<Detection>, threshold: real)
    requires Independent(kept, threshold)
    ensures Greedy(kept, threshold) == kept
  {
    if kept != [] {
      var init := kept[..|kept| - 1];
      PrefixIndependent(kept, |kept| - 1, threshold);
      GreedyOfIndependent(init, threshold);
    }
  }

  lemma SubsetDistinct(kept: seq<Detection>, dets: seq<Detection>)
    requires DistinctScores(dets) && multiset(kept) <= multiset(dets)
    ensures DistinctScores(kept)
  {
    forall d ensures multiset(kept)[d] <= 1 {
      assert multiset(kept)[d] <= multiset(dets)[d] <= 1;
    }
  }

  /** Running the call on its own output changes nothing. */
  lemma NmsIdempotent(dets: seq<Detection>, sorted: seq<Detection>, again: seq<Detection>,
                      threshold: real, maxResults: int)
    requires DistinctScores(dets) && IsSorting(sorted, dets)
    requires IsSorting(again, Limited(Greedy(sorted, threshold), maxResults))
    ensures Limited(Greedy(again, threshold), maxResults) == Limited(Greedy(sorted, threshold), maxResults)
  {
    var kept := Limited(Greedy(sorted, threshold), maxResults);
    NmsSound(dets, sorted, threshold, maxResults);
    SubsetDistinct(kept, dets);
    assert again == kept by {
      SortingIsStrict(again, kept);
      SortingIsStrict(kept, kept);
      StrictUnique(again, kept);
    }
    GreedyOfIndependent(kept, threshold);
  }

  // ----- the unique kernel

  ghost predicate Dominated(d: Detection, chosen: set<Detection>, threshold: real) {
    exists k :: k in chosen && Suppresses(k, d, threshold) && k.score > d.score
  }

  /** An independent choice that beats, with a higher score, everything it leaves out. */
  ghost predicate Kernel(dets: seq<Detection>, chosen: set<Detection>, threshold: real) {
    && (forall d :: d in chosen ==> d in dets)
    && (forall a, b :: a in chosen && b in chosen && a != b ==> !Suppresses(a, b, threshold))
    && (forall d {:trigger Dominated(d, chosen, threshold)} ::
          d in dets && d !in chosen ==> Dominated(d, chosen, threshold))
  }

  ghost function Members(dets: seq<Detection>): set<Detection> {
    set d | d in dets
  }

  lemma LeftOutIsDominated(dets: seq<Detection>, threshold: real, d: Detection)
    requires Strict(dets) && d in dets && d !in Greedy(dets, threshold)
    ensures Dominated(d, Members(Greedy(dets, threshold)), threshold)
  {
    var kept := Greedy(dets, threshold);
    assert d in multiset(dets) && multiset(kept)[d] == 0;
    GreedyMaximal(dets, threshold, d);
    var i :| 0 <= i < |kept| && Suppresses(kept[i], d, threshold) && kept[i].score >= d.score;
    assert kept[i] in multiset(dets) by {
      GreedySubset(dets, threshold);
      assert kept[i] in multiset(kept);
    }
    if kept[i].score == d.score {
      StrictByScore(dets, kept[i], d);
    }
    assert kept[i] in Members(kept);
  }

  lemma StrictByScore(dets: seq<Detection>, a: Detection, b: Detection)
    requires Strict(dets) && a in dets && b in dets && a.score == b.score
    ensures a == b
  {
    var i :| 0 <= i < |dets| && dets[i] == a;
    var j :| 0 <= j < |dets| && dets[j] == b;
  }

  lemma GreedyIsKernel(dets: seq<Detection>, threshold: real)
    requires Strict(dets)
    ensures Kernel(dets, Members(Greedy(dets, threshold)), threshold)
  {
    var kept := Greedy(dets, threshold);
    GreedyIndependent(dets, threshold);
    GreedySubset(dets, threshold);
    forall d | d in kept ensures d in dets {
      assert d in multiset(kept) && d in multiset(dets);
    }
    forall d | d in dets && d !in kept ensures Dominated(d, Members(kept), threshold) {
      LeftOutIsDominated(dets, threshold, d);
    }
  }

  predicate Agree(dets: seq<Detection>, a: set<Detection>, b: set<Detection>, n: nat)
    requires n <= |dets|
  {
    forall i :: 0 <= i < n ==> (dets[i] in a <==> dets[i] in b)
  }

  /** Whatever kernel is chosen, it agrees with any other, box by box. */
  lemma {:induction false} KernelsAgree(dets: seq<Detection>, a: set<Detection>, b: set<Detection>,
                                        threshold: real, n: nat)
    requires Strict(dets) && Kernel(dets, a, threshold) && Kernel(dets, b, threshold) && n <= |dets|
    ensures Agree(dets, a, b, n)
  {
    if n > 0 {
      KernelsAgree(dets, a, b, threshold, n - 1);
      KernelsAgreeAt(dets, a, b, threshold, n - 1);
      assert Agree(dets, b, a, n - 1);
      KernelsAgreeAt(dets, b, a, threshold, n - 1);
    }
  }

  lemma KernelsAgreeAt(dets: seq<Detection>, a: set<Detection>, b: set<Detection>, threshold: real, n: nat)
    requires Strict(dets) && Kernel(dets, a, threshold) && Kernel(dets, b, threshold) && n < |dets|
    requires Agree(dets, a, b, n)
    ensures dets[n] in a ==> dets[n] in b
  {
    if dets[n] !in b {
      assert Dominated(dets[n], b, threshold);
      var k :| k in b && Suppresses(k, dets[n], threshold) && k.score > dets[n].score;
      assert k in dets;
      var j :| 0 <= j < |dets| && dets[j] == k;
      assert j < n && dets[j] in a;
    }
  }

  lemma StrictKernel(sorted: seq<Detection>, chosen: set<Detection>, threshold: real)
    requires Strict(sorted)
    ensures Kernel(sorted, chosen, threshold) <==> chosen == Members(Greedy(sorted, threshold))
  {
    GreedyIsKernel(sorted, threshold);
    if Kernel(sorted, chosen, threshold) {
      KernelsAgree(sorted, chosen, Members(Greedy(sorted, threshold)), threshold, |sorted|);
    }
  }

  lemma SameMembers(a: seq<Detection>, b: seq<Detection>)
    requires multiset(a) == multiset(b)
    ensures forall d :: d in a <==> d in b
  {
    forall d ensures d in a <==> d in b {
      assert d in multiset(a) <==> d in multiset(b);
    }
  }

  lemma KernelOfSameBoxes(a: seq<Detection>, b: seq<Detection>, chosen: set<Detection>, threshold: real)
    requires (forall d :: d in a <==> d in b) && Kernel(a, chosen, threshold)
    ensures Kernel(b, chosen, threshold)
  {
  }

  /** With distinct scores the greedy result is the one and only kernel of the boxes given:
      an order-free description of what the algorithm computes. */
  lemma UniqueKernel(dets: seq<Detection>, sorted: seq<Detection>, chosen: set<Detection>, threshold: real)
    requires IsSorting(sorted, dets) && DistinctScores(dets)
    ensures Kernel(dets, chosen, threshold) <==> chosen == Members(Greedy(sorted, threshold))
  {
    SortingIsStrict(sorted, dets);
    StrictKernel(sorted, chosen, threshold);
    SameMembers(sorted, dets);
    if Kernel(dets, chosen, threshold) {
      KernelOfSameBoxes(dets, sorted, chosen, threshold);
    } else if Kernel(sorted, chosen, threshold) {
      KernelOfSameBoxes(sorted, dets, chosen, threshold);
    }
  }

  /** A threshold of 1 or more never suppresses anything. */
  lemma {:induction false} HighThreshold(dets: seq<Detection>, threshold: real)
    requires threshold >= 1.0
    ensures Greedy(dets, threshold) == dets
  {
    if dets != [] {
      var init, last := dets[..|dets| - 1], dets[|dets| - 1];
      HighThreshold(init, threshold);
      forall i | 0 <= i < |init| ensures !Suppresses(init[i], last, threshold) {
        IouInUnit(last, init[i]);
      }
    }
  }
}
