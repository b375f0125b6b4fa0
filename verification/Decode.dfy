/** From the detector's raw output tensor to boxes in camera pixels. */
module Decode {
  import opened Bytes
  import opened Grid
  import opened Letterbox
  import Nms

  // ----- the tensor

  datatype Tensor = Tensor(data: seq<real>, rows: nat, attrs: nat, attrMajor: bool)

  predicate Whole(t: Tensor) {
    |t.data| == t.rows * t.attrs
  }

  lemma IndexInside(t: Tensor, row: nat, attr: nat)
    requires Whole(t) && row < t.rows && attr < t.attrs
    ensures row * t.attrs + attr < |t.data| && attr * t.rows + row < |t.data|
  {
    CellInside(row, attr, t.attrs, t.rows);
    CellInside(attr, row, t.rows, t.attrs);
  }

  function ReadTensorValue(t: Tensor, row: nat, attr: nat): real
    requires Whole(t) && row < t.rows && attr < t.attrs
  {
    IndexInside(t, row, attr);
    if t.attrMajor then t.data[attr * t.rows + row] else t.data[row * t.attrs + attr]
  }

  // ----- a table in either layout

  /** One line of `attrs` values per candidate. */
  type Table = seq<seq<real>>

  predicate IsTable(m: Table, attrs: nat) {
    forall r :: 0 <= r < |m| ==> |m[r]| == attrs
  }

  function Joined(m: Table): seq<real> {
    if m == [] then [] else Joined(m[..|m| - 1]) + m[|m| - 1]
  }

  lemma {:induction false} JoinedAt(m: Table, n: nat, r: nat, a: nat)
    requires IsTable(m, n)
    ensures |Joined(m)| == |m| * n
    ensures r < |m| && a < n ==> r * n + a < |Joined(m)| && Joined(m)[r * n + a] == m[r][a]
  {
    if m != [] {
      var init := m[..|m| - 1];
      JoinedAt(init, n, r, a);
      NextRow(|init|, n);
      if r < |m| && a < n {
        CellInside(r, a, n, |m|);
        if r < |init| {
          CellInside(r, a, n, |init|);
        }
      }
    }
  }

  function Columns(m: Table, attrs: nat): Table
    requires IsTable(m, attrs)
  {
    seq(attrs, a requires 0 <= a < attrs => seq(|m|, r requires 0 <= r < |m| => m[r][a]))
  }

  /** Candidate by candidate. */
  function RowMajor(m: Table, attrs: nat): Tensor {
    Tensor(Joined(m), |m|, attrs, false)
  }

  /** Attribute by attribute. */
  function AttrMajor(m: Table, attrs: nat): Tensor
    requires IsTable(m, attrs)
  {
    Tensor(Joined(Columns(m, attrs)), |m|, attrs, true)
  }

  lemma LayoutsWhole(m: Table, attrs: nat)
    requires IsTable(m, attrs)
    ensures Whole(RowMajor(m, attrs)) && Whole(AttrMajor(m, attrs))
  {
    JoinedAt(m, attrs, 0, 0);
    JoinedAt(Columns(m, attrs), |m|, 0, 0);
  }

  /** In either layout attribute a of row r is the table's. */
  lemma ReadsTheTable(m: Table, attrs: nat, r: nat, a: nat)
    requires IsTable(m, attrs) && r < |m| && a < attrs
    ensures Whole(RowMajor(m, attrs)) && ReadTensorValue(RowMajor(m, attrs), r, a) == m[r][a]
    ensures Whole(AttrMajor(m, attrs)) && ReadTensorValue(AttrMajor(m, attrs), r, a) == m[r][a]
  {
    LayoutsWhole(m, attrs);
    JoinedAt(m, attrs, r, a);
    JoinedAt(Columns(m, attrs), |m|, a, r);
  }

  // ----- score and class

  lemma RoundsToNearest(x: real)
    ensures x - 0.5 <= RoundAway(x) as real <= x + 0.5
    ensures x > 0.0 ==> RoundAway(x) as real > x - 0.5
    ensures x < 0.0 ==> RoundAway(x) as real < x + 0.5
  {
  }

  /** std::round: halves go away from zero. */
  function RoundAway(x: real): int {
    if x >= 0.0 then (x + 0.5).Floor else -(-x + 0.5).Floor
  }

  /** The class attributes' winner: the first of the largest, numbered from `first`. */
  predicate IsBest(t: Tensor, row: nat, first: nat, k: nat)
    requires Whole(t) && row < t.rows && first + k < t.attrs
  {
    && (forall i :: first <= i < t.attrs ==> ReadTensorValue(t, row, i) <= ReadTensorValue(t, row, first + k))
    && (forall i :: first <= i < first + k ==> ReadTensorValue(t, row, i) < ReadTensorValue(t, row, first + k))
  }

  lemma BestBeats(t: Tensor, row: nat, first: nat, k: nat, m: nat)
    requires Whole(t) && row < t.rows && first + k < t.attrs && first + m < t.attrs
    requires IsBest(t, row, first, k)
    ensures ReadTensorValue(t, row, first + m) <= ReadTensorValue(t, row, first + k)
    ensures m < k ==> ReadTensorValue(t, row, first + m) < ReadTensorValue(t, row, first + k)
  {
  }

  lemma BestUnique(t: Tensor, row: nat, first: nat, k: nat, m: nat)
    requires Whole(t) && row < t.rows && first + k < t.attrs && first + m < t.attrs
    requires IsBest(t, row, first, k) && IsBest(t, row, first, m)
    ensures k == m
  {
    BestBeats(t, row, first, k, m);
    BestBeats(t, row, first, m, k);
  }

  /** Starting below every score, each strictly larger score takes over. */
  method BestClass(t: Tensor, row: nat, first: nat) returns (bestScore: real, bestClass: nat)
    requires Whole(t) && row < t.rows && first < t.attrs
    ensures first + bestClass < t.attrs && IsBest(t, row, first, bestClass)
    ensures bestScore == ReadTensorValue(t, row, first + bestClass)
  {
    bestScore, bestClass := ReadTensorValue(t, row, first), 0;
    for attr := first to t.attrs
      invariant first + bestClass < t.attrs && (attr == first || first + bestClass < attr)
      invariant attr == first ==> bestClass == 0
      invariant bestScore == ReadTensorValue(t, row, first + bestClass)
      invariant forall i :: first <= i < attr ==> ReadTensorValue(t, row, i) <= bestScore
      invariant forall i :: first <= i < first + bestClass ==> ReadTensorValue(t, row, i) < bestScore
    {
      var score := ReadTensorValue(t, row, attr);
      if score > bestScore {
        bestScore, bestClass := score, attr - first;
      }
    }
  }

  /** Which of a row's attributes hold score and class. */
  ghost predicate Scored(t: Tensor, hasObjectness: bool, row: nat, score: real, classId: int)
    requires Whole(t) && row < t.rows && 5 <= t.attrs
  {
    if t.attrs == 5 then score == ReadTensorValue(t, row, 4) && classId == 0
    else if t.attrs == 6 then
      score == ReadTensorValue(t, row, 4) && classId == RoundAway(ReadTensorValue(t, row, 5))
    else
      var first := if hasObjectness then 5 else 4;
      && 0 <= classId && first + classId < t.attrs && IsBest(t, row, first, classId)
      && score == ReadTensorValue(t, row, first + classId) * (if hasObjectness then ReadTensorValue(t, row, 4) else 1.0)
  }

  method ScoreRow(t: Tensor, hasObjectness: bool, row: nat) returns (score: real, classId: int)
    requires Whole(t) && row < t.rows && 5 <= t.attrs
    ensures Scored(t, hasObjectness, row, score, classId)
  {
    if t.attrs == 5 {
      score, classId := ReadTensorValue(t, row, 4), 0;
    } else if t.attrs == 6 {
      score, classId := ReadTensorValue(t, row, 4), RoundAway(ReadTensorValue(t, row, 5));
    } else if hasObjectness {
      var objectness := ReadTensorValue(t, row, 4);
      var best, k := BestClass(t, row, 5);
      score, classId := objectness * best, k;
    } else {
      score, classId := BestClass(t, row, 4);
    }
  }

  // ----- the box

  datatype Quad = Quad(a: real, b: real, c: real, d: real)

  function Abs(x: real): real {
    if x < 0.0 then -x else x
  }

  predicate LooksNormalized(q: Quad) {
    Abs(q.a) <= 2.0 && Abs(q.b) <= 2.0 && Abs(q.c) <= 2.0 && Abs(q.d) <= 2.0
  }

  function ClampReal(value: real, lower: real, upper: real): real {
    Nms.Larger(lower, Nms.Smaller(value, upper))
  }

  function Stretch(x: real, length: nat): real {
    x * length as real
  }

  function Stretched(q: Quad, target: Size): Quad {
    Quad(Stretch(q.a, target.width), Stretch(q.b, target.height),
         Stretch(q.c, target.width), Stretch(q.d, target.height))
  }

  /** Corners in model-input pixels: scaled up if they look normalised, then put in corner form. */
  function Corners(raw: Quad, target: Size, xyxy: bool): Quad {
    var q := if LooksNormalized(raw) then Stretched(raw, target) else raw;
    if xyxy then q
    else Quad(q.a - q.c * 0.5, q.b - q.d * 0.5, q.a + q.c * 0.5, q.b + q.d * 0.5)
  }

  /** One coordinate back from the model's input to the camera frame, kept inside it. */
  function ToFrame(x: real, pad: nat, scale: real, limit: nat): real
    requires scale > 0.0 && limit > 0
  {
    ClampReal((x - pad as real) / scale, 0.0, (limit - 1) as real)
  }

  function DecodeBox(raw: Quad, source: Size, target: Size, g: LetterboxInfo, xyxy: bool): Quad
    requires g.scale > 0.0 && source.width > 0 && source.height > 0
  {
    QuadToFrame(Corners(raw, target, xyxy), source, g)
  }

  function QuadToFrame(q: Quad, source: Size, g: LetterboxInfo): Quad
    requires g.scale > 0.0 && source.width > 0 && source.height > 0
  {
    Quad(ToFrame(q.a, g.padX, g.scale, source.width), ToFrame(q.b, g.padY, g.scale, source.height),
         ToFrame(q.c, g.padX, g.scale, source.width), ToFrame(q.d, g.padY, g.scale, source.height))
  }

  /** Corners of a box of positive size inside the frame. */
  predicate InFrame(q: Quad, source: Size) {
    0.0 <= q.a < q.c <= source.width as real - 1.0 && 0.0 <= q.b < q.d <= source.height as real - 1.0
  }

  // ----- the rows

  function Decimal(n: int): string
    decreases if n < 0 then 1 else 0, n
  {
    if n < 0 then "-" + Decimal(-n)
    else if n < 10 then [('0' as int + n) as char]
    else Decimal(n / 10) + [('0' as int + n % 10) as char]
  }

  /** The number written by decimal digits. */
  function ValueOf(digits: string): nat {
    if digits == [] then 0
    else ValueOf(digits[..|digits| - 1]) * 10
         + Max(0, Min(9, digits[|digits| - 1] as int - '0' as int))
  }

  predicate AllDigits(s: string) {
    s != [] && forall i :: 0 <= i < |s| ==> '0' <= s[i] <= '9'
  }

  /** Writing a number down and reading it gives it back; no digit is wasted. */
  lemma {:induction false} DecimalReads(n: nat)
    ensures AllDigits(Decimal(n)) && ValueOf(Decimal(n)) == n && (n > 0 ==> Decimal(n)[0] != '0')
  {
    var s := Decimal(n);
    assert s[|s| - 1] == ('0' as int + n % 10) as char;
    if n >= 10 {
      DecimalReads(n / 10);
      assert s[..|s| - 1] == Decimal(n / 10);
    }
  }

  function NameOf(labels: seq<string>, classId: int): string {
    if 0 <= classId < |labels| then labels[classId] else "class_" + Decimal(classId)
  }

  datatype Settings = Settings(hasObjectness: bool, xyxy: bool, scoreThreshold: real)

  function RawBox(t: Tensor, row: nat): Quad
    requires Whole(t) && row < t.rows && 5 <= t.attrs
  {
    Quad(ReadTensorValue(t, row, 0), ReadTensorValue(t, row, 1), ReadTensorValue(t, row, 2), ReadTensorValue(t, row, 3))
  }

  function BoxOf(d: Nms.Detection): Quad {
    Quad(d.x1, d.y1, d.x2, d.y2)
  }

  /** What a row yields: a detection when it scores enough and its box, cut to the frame,
      is not empty; nothing otherwise. */
  ghost predicate RowYields(t: Tensor, row: nat, cfg: Settings, source: Size, target: Size, g: LetterboxInfo,
                            labels: seq<string>, found: seq<Nms.Detection>)
    requires Whole(t) && row < t.rows && 5 <= t.attrs && g.scale > 0.0 && source.width > 0 && source.height > 0
  {
    var q := DecodeBox(RawBox(t, row), source, target, g, cfg.xyxy);
    exists score, classId :: Scored(t, cfg.hasObjectness, row, score, classId) &&
      found == if score >= cfg.scoreThreshold && InFrame(q, source)
               then [Nms.Detection(classId, NameOf(labels, classId), score, q.a, q.b, q.c, q.d)]
               else []
  }

  method DecodeRow(t: Tensor, row: nat, cfg: Settings, source: Size, target: Size, g: LetterboxInfo,
                   labels: seq<string>)
      returns (found: seq<Nms.Detection>)
    requires Whole(t) && row < t.rows && 5 <= t.attrs && g.scale > 0.0 && source.width > 0 && source.height > 0
    ensures RowYields(t, row, cfg, source, target, g, labels, found)
    ensures |found| <= 1
  {
    var raw := RawBox(t, row);
    var score, classId := ScoreRow(t, cfg.hasObjectness, row);
    var q := DecodeBox(raw, source, target, g, cfg.xyxy);
    if score < cfg.scoreThreshold {
      return [];
    }
    if q.c <= q.a || q.d <= q.b {
      return [];
    }
    found := [Nms.Detection(classId, NameOf(labels, classId), score, q.a, q.b, q.c, q.d)];
  }

  /** All boxes are proper and inside the frame, with the score asked for. */
  predicate Acceptable(dets: seq<Nms.Detection>, cfg: Settings, source: Size) {
    forall i :: 0 <= i < |dets| ==> dets[i].score >= cfg.scoreThreshold && InFrame(BoxOf(dets[i]), source)
  }

  function Concat(rows: seq<seq<Nms.Detection>>): seq<Nms.Detection> {
    if rows == [] then [] else Concat(rows[..|rows| - 1]) + rows[|rows| - 1]
  }

  method DecodeRows(t: Tensor, cfg: Settings, source: Size, target: Size, g: LetterboxInfo, labels: seq<string>)
      returns (detections: seq<Nms.Detection>, ghost perRow: seq<seq<Nms.Detection>>)
    requires Whole(t) && 5 <= t.attrs && g.scale > 0.0 && source.width > 0 && source.height > 0
    ensures |perRow| == t.rows && detections == Concat(perRow)
    ensures forall row :: 0 <= row < t.rows ==> RowYields(t, row, cfg, source, target, g, labels, perRow[row])
    ensures Acceptable(detections, cfg, source)
  {
    detections, perRow := [], [];
    var row := 0;
    while row < t.rows
      invariant 0 <= row == |perRow| <= t.rows && detections == Concat(perRow)
      invariant forall r :: 0 <= r < row ==> RowYields(t, r, cfg, source, target, g, labels, perRow[r])
      invariant Acceptable(detections, cfg, source)
    {
      var found := DecodeRow(t, row, cfg, source, target, g, labels);
      assert (perRow + [found])[..|perRow|] == perRow;
      detections, perRow := detections + found, perRow + [found];
      row := row + 1;
    }
  }

  lemma ScoredOnce(t: Tensor, hasObjectness: bool, row: nat, s1: real, k1: int, s2: real, k2: int)
    requires Whole(t) && row < t.rows && 5 <= t.attrs
    requires Scored(t, hasObjectness, row, s1, k1) && Scored(t, hasObjectness, row, s2, k2)
    ensures s1 == s2 && k1 == k2
  {
    if t.attrs > 6 {
      BestUnique(t, row, if hasObjectness then 5 else 4, k1, k2);
    }
  }

  /** What a row yields is settled by the tensor, ties between classes included. */
  lemma RowYieldsOnce(t: Tensor, row: nat, cfg: Settings, source: Size, target: Size, g: LetterboxInfo,
                      labels: seq<string>, found: seq<Nms.Detection>, again: seq<Nms.Detection>)
    requires Whole(t) && row < t.rows && 5 <= t.attrs && g.scale > 0.0 && source.width > 0 && source.height > 0
    requires RowYields(t, row, cfg, source, target, g, labels, found)
    requires RowYields(t, row, cfg, source, target, g, labels, again)
    ensures found == again
  {
    var q := DecodeBox(RawBox(t, row), source, target, g, cfg.xyxy);
    var s1, k1 :| Scored(t, cfg.hasObjectness, row, s1, k1) &&
      found == if s1 >= cfg.scoreThreshold && InFrame(q, source)
               then [Nms.Detection(k1, NameOf(labels, k1), s1, q.a, q.b, q.c, q.d)] else [];
    var s2, k2 :| Scored(t, cfg.hasObjectness, row, s2, k2) &&
      again == if s2 >= cfg.scoreThreshold && InFrame(q, source)
               then [Nms.Detection(k2, NameOf(labels, k2), s2, q.a, q.b, q.c, q.d)] else [];
    ScoredOnce(t, cfg.hasObjectness, row, s1, k1, s2, k2);
  }

  // ----- from the tensor to the result

  lemma KeptAreAcceptable(dets: seq<Nms.Detection>, kept: seq<Nms.Detection>, cfg: Settings, source: Size)
    requires Acceptable(dets, cfg, source) && multiset(kept) <= multiset(dets)
    ensures Acceptable(kept, cfg, source)
  {
    forall i | 0 <= i < |kept|
      ensures kept[i].score >= cfg.scoreThreshold && InFrame(BoxOf(kept[i]), source)
    {
      assert kept[i] in multiset(kept);
      assert kept[i] in dets;
    }
  }

  /** Decoding and suppression together: the boxes returned lie in the frame, score enough, come
      best first, do not overlap too much within a class, and are at most as many as asked for. */
  method Detect(t: Tensor, cfg: Settings, source: Size, target: Size, g: LetterboxInfo, labels: seq<string>,
                nmsThreshold: real, maxResults: int) returns (kept: seq<Nms.Detection>)
    requires Whole(t) && 5 <= t.attrs && g.scale > 0.0 && source.width > 0 && source.height > 0
    ensures Acceptable(kept, cfg, source)
    ensures Nms.Descending(kept) && Nms.Independent(kept, nmsThreshold)
    ensures maxResults > 0 ==> |kept| <= maxResults
  {
    var detections, _ := DecodeRows(t, cfg, source, target, g, labels);
    kept := Nms.ApplyNms(detections, nmsThreshold, maxResults);
    ghost var sorted :| Nms.IsSorting(sorted, detections)
                        && kept == Nms.Limited(Nms.Greedy(sorted, nmsThreshold), maxResults);
    Nms.NmsSound(detections, sorted, nmsThreshold, maxResults);
    Nms.LimitKept(Nms.Greedy(sorted, nmsThreshold), maxResults);
    KeptAreAcceptable(detections, kept, cfg, source);
  }

  // ----- what is read from a table

  /** The scores of the classes in a line of the table. */
  function Classes(line: seq<real>, hasObjectness: bool): seq<real>
    requires |line| >= 7
  {
    if hasObjectness then line[5..] else line[4..]
  }

  /** The first of the largest. */
  predicate FirstLargest(scores: seq<real>, k: int) {
    && 0 <= k < |scores|
    && (forall i :: 0 <= i < |scores| ==> scores[i] <= scores[k])
    && (forall i :: 0 <= i < k ==> scores[i] < scores[k])
  }

  /** Score and class of a line: x, y, w, h and a score; those, a score and a class number; or
      those, an objectness if there is one, and a score for each class. */
  ghost predicate LineScored(line: seq<real>, hasObjectness: bool, score: real, classId: int)
    requires |line| >= 5
  {
    if |line| == 5 then score == line[4] && classId == 0
    else if |line| == 6 then score == line[4] && classId == RoundAway(line[5])
    else
      && FirstLargest(Classes(line, hasObjectness), classId)
      && score == Classes(line, hasObjectness)[classId] * (if hasObjectness then line[4] else 1.0)
  }

  ghost predicate Matches(t: Tensor, row: nat, line: seq<real>)
    requires Whole(t) && row < t.rows
  {
    |line| == t.attrs && forall a :: 0 <= a < t.attrs ==> ReadTensorValue(t, row, a) == line[a]
  }

  lemma BestOfLine(t: Tensor, row: nat, line: seq<real>, first: nat, k: nat)
    requires Whole(t) && row < t.rows && Matches(t, row, line) && first + k < t.attrs
    ensures IsBest(t, row, first, k) <==> FirstLargest(line[first..], k)
  {
    var scores := line[first..];
    assert forall i :: first <= i < t.attrs ==> ReadTensorValue(t, row, i) == scores[i - first];
    if FirstLargest(scores, k) {
      forall i | first <= i < t.attrs ensures ReadTensorValue(t, row, i) <= ReadTensorValue(t, row, first + k) {
        assert scores[i - first] <= scores[k];
      }
      forall i | first <= i < first + k ensures ReadTensorValue(t, row, i) < ReadTensorValue(t, row, first + k) {
        assert scores[i - first] < scores[k];
      }
    }
    if IsBest(t, row, first, k) {
      forall i | 0 <= i < |scores| ensures scores[i] <= scores[k] {
        assert ReadTensorValue(t, row, first + i) == scores[i];
      }
      forall i | 0 <= i < k ensures scores[i] < scores[k] {
        assert ReadTensorValue(t, row, first + i) == scores[i];
      }
    }
  }

  lemma ScoredIsLineScored(t: Tensor, hasObjectness: bool, row: nat, line: seq<real>, score: real, classId: int)
    requires Whole(t) && row < t.rows && 5 <= t.attrs && Matches(t, row, line)
    ensures Scored(t, hasObjectness, row, score, classId) <==> LineScored(line, hasObjectness, score, classId)
  {
    var first := if hasObjectness then 5 else 4;
    if t.attrs > 6 && 0 <= classId && first + classId < t.attrs {
      BestOfLine(t, row, line, first, classId);
    }
  }

  /** The detection of one line of a table, or none. */
  ghost predicate LineYields(line: seq<real>, cfg: Settings, source: Size, target: Size, g: LetterboxInfo,
                             labels: seq<string>, found: seq<Nms.Detection>)
    requires |line| >= 5 && g.scale > 0.0 && source.width > 0 && source.height > 0
  {
    var q := DecodeBox(Quad(line[0], line[1], line[2], line[3]), source, target, g, cfg.xyxy);
    exists score, classId :: LineScored(line, cfg.hasObjectness, score, classId) &&
      found == if score >= cfg.scoreThreshold && InFrame(q, source)
               then [Nms.Detection(classId, NameOf(labels, classId), score, q.a, q.b, q.c, q.d)]
               else []
  }

  lemma RowYieldsItsLine(t: Tensor, row: nat, line: seq<real>, cfg: Settings, source: Size, target: Size,
                         g: LetterboxInfo, labels: seq<string>, found: seq<Nms.Detection>)
    requires Whole(t) && row < t.rows && 5 <= t.attrs && g.scale > 0.0 && source.width > 0 && source.height > 0
    requires Matches(t, row, line) && RowYields(t, row, cfg, source, target, g, labels, found)
    ensures LineYields(line, cfg, source, target, g, labels, found)
  {
    var q := DecodeBox(RawBox(t, row), source, target, g, cfg.xyxy);
    var score, classId :| Scored(t, cfg.hasObjectness, row, score, classId) &&
      found == if score >= cfg.scoreThreshold && InFrame(q, source)
               then [Nms.Detection(classId, NameOf(labels, classId), score, q.a, q.b, q.c, q.d)] else [];
    assert RawBox(t, row) == Quad(line[0], line[1], line[2], line[3]);
    ScoredIsLineScored(t, cfg.hasObjectness, row, line, score, classId);
  }

  lemma LineYieldsOnce(line: seq<real>, cfg: Settings, source: Size, target: Size, g: LetterboxInfo,
                       labels: seq<string>, found: seq<Nms.Detection>, again: seq<Nms.Detection>)
    requires |line| >= 5 && g.scale > 0.0 && source.width > 0 && source.height > 0
    requires LineYields(line, cfg, source, target, g, labels, found)
    requires LineYields(line, cfg, source, target, g, labels, again)
    ensures found == again
  {
    LayoutsWhole([line], |line|);
    forall a | 0 <= a < |line| ensures ReadTensorValue(RowMajor([line], |line|), 0, a) == line[a] {
      ReadsTheTable([line], |line|, 0, a);
    }
    LineIsRow(RowMajor([line], |line|), 0, line, cfg, source, target, g, labels, found);
    LineIsRow(RowMajor([line], |line|), 0, line, cfg, source, target, g, labels, again);
    RowYieldsOnce(RowMajor([line], |line|), 0, cfg, source, target, g, labels, found, again);
  }

  lemma LineIsRow(t: Tensor, row: nat, line: seq<real>, cfg: Settings, source: Size, target: Size,
                  g: LetterboxInfo, labels: seq<string>, found: seq<Nms.Detection>)
    requires Whole(t) && row < t.rows && 5 <= t.attrs && g.scale > 0.0 && source.width > 0 && source.height > 0
    requires Matches(t, row, line) && LineYields(line, cfg, source, target, g, labels, found)
    ensures RowYields(t, row, cfg, source, target, g, labels, found)
  {
    var q := DecodeBox(Quad(line[0], line[1], line[2], line[3]), source, target, g, cfg.xyxy);
    var score, classId :| LineScored(line, cfg.hasObjectness, score, classId) &&
      found == if score >= cfg.scoreThreshold && InFrame(q, source)
               then [Nms.Detection(classId, NameOf(labels, classId), score, q.a, q.b, q.c, q.d)] else [];
    assert RawBox(t, row) == Quad(line[0], line[1], line[2], line[3]);
    ScoredIsLineScored(t, cfg.hasObjectness, row, line, score, classId);
  }

  /** The layout does not matter: a table given candidate by candidate and given attribute by
      attribute yields the same detections, those of its lines. */
  lemma LayoutIrrelevant(m: Table, attrs: nat, cfg: Settings, source: Size, target: Size, g: LetterboxInfo,
                         labels: seq<string>, perRow: seq<seq<Nms.Detection>>, perRow': seq<seq<Nms.Detection>>)
    requires IsTable(m, attrs) && attrs >= 5 && g.scale > 0.0 && source.width > 0 && source.height > 0
    requires |perRow| == |perRow'| == |m|
    requires Whole(RowMajor(m, attrs)) && Whole(AttrMajor(m, attrs))
    requires forall r :: 0 <= r < |m| ==> RowYields(RowMajor(m, attrs), r, cfg, source, target, g, labels, perRow[r])
    requires forall r :: 0 <= r < |m| ==> RowYields(AttrMajor(m, attrs), r, cfg, source, target, g, labels, perRow'[r])
    ensures forall r :: 0 <= r < |m| ==> LineYields(m[r], cfg, source, target, g, labels, perRow[r])
    ensures perRow == perRow' && Concat(perRow) == Concat(perRow')
  {
    forall r | 0 <= r < |m|
      ensures LineYields(m[r], cfg, source, target, g, labels, perRow[r]) && perRow[r] == perRow'[r]
    {
      TableMatches(m, attrs, r);
      RowYieldsItsLine(RowMajor(m, attrs), r, m[r], cfg, source, target, g, labels, perRow[r]);
      RowYieldsItsLine(AttrMajor(m, attrs), r, m[r], cfg, source, target, g, labels, perRow'[r]);
      LineYieldsOnce(m[r], cfg, source, target, g, labels, perRow[r], perRow'[r]);
    }
  }

  lemma TableMatches(m: Table, attrs: nat, r: nat)
    requires IsTable(m, attrs) && r < |m|
    ensures Whole(RowMajor(m, attrs)) && Whole(AttrMajor(m, attrs))
    ensures Matches(RowMajor(m, attrs), r, m[r]) && Matches(AttrMajor(m, attrs), r, m[r])
  {
    LayoutsWhole(m, attrs);
    forall a | 0 <= a < attrs
      ensures ReadTensorValue(RowMajor(m, attrs), r, a) == m[r][a] == ReadTensorValue(AttrMajor(m, attrs), r, a)
    {
      ReadsTheTable(m, attrs, r, a);
    }
  }

  /** Both layouts through the decoding loop. */
  method DecodeBothLayouts(m: Table, attrs: nat, cfg: Settings, source: Size, target: Size, g: LetterboxInfo,
                           labels: seq<string>)
      returns (fromRows: seq<Nms.Detection>, fromColumns: seq<Nms.Detection>)
    requires IsTable(m, attrs) && attrs >= 5 && g.scale > 0.0 && source.width > 0 && source.height > 0
    ensures fromRows == fromColumns
    ensures exists perRow :: |perRow| == |m| && fromRows == Concat(perRow)
              && forall r :: 0 <= r < |m| ==> LineYields(m[r], cfg, source, target, g, labels, perRow[r])
  {
    LayoutsWhole(m, attrs);
    ghost var perRow, perRow';
    fromRows, perRow := DecodeRows(RowMajor(m, attrs), cfg, source, target, g, labels);
    fromColumns, perRow' := DecodeRows(AttrMajor(m, attrs), cfg, source, target, g, labels);
    LayoutIrrelevant(m, attrs, cfg, source, target, g, labels, perRow, perRow');
  }

  // ----- decoding undoes the letterbox

  /** A camera coordinate in model-input pixels. */
  function ToModel(x: real, pad: nat, scale: real): real {
    x * scale + pad as real
  }

  function ModelCorners(q: Quad, g: LetterboxInfo): Quad {
    Quad(ToModel(q.a, g.padX, g.scale), ToModel(q.b, g.padY, g.scale),
         ToModel(q.c, g.padX, g.scale), ToModel(q.d, g.padY, g.scale))
  }

  /** How a model reports corners: as they are, or as centre and size. */
  function Report(q: Quad, xyxy: bool): Quad {
    if xyxy then q else Quad((q.a + q.c) * 0.5, (q.b + q.d) * 0.5, q.c - q.a, q.d - q.b)
  }

  lemma CentreAndSize(a: real, c: real, n: nat)
    ensures Stretch((a + c) * 0.5, n) - Stretch(c - a, n) * 0.5 == Stretch(a, n)
    ensures Stretch((a + c) * 0.5, n) + Stretch(c - a, n) * 0.5 == Stretch(c, n)
  {
  }

  /** Either format carries the same corners, stretched or not. */
  lemma CornersOfReport(q: Quad, target: Size, xyxy: bool)
    ensures Corners(Report(q, xyxy), target, xyxy)
         == if LooksNormalized(Report(q, xyxy)) then Stretched(q, target) else q
  {
    if !xyxy && LooksNormalized(Report(q, xyxy)) {
      CentreAndSize(q.a, q.c, target.width);
      CentreAndSize(q.b, q.d, target.height);
    }
  }

  lemma MapsBack(x: real, pad: nat, scale: real, limit: nat)
    requires scale > 0.0 && limit > 0 && 0.0 <= x <= (limit - 1) as real
    ensures ToFrame(ToModel(x, pad, scale), pad, scale, limit) == x
  {
    assert (ToModel(x, pad, scale) - pad as real) / scale == x;
  }

  /** Stretching both ends of an axis by the target's length is harmless only when that
      length is 1, or when the span covers the whole axis and there is no padding. */
  predicate AxisHarmless(from: real, to: real, pad: nat, length: nat, limit: nat) {
    length == 1 || (from == 0.0 && pad == 0 && to == (limit - 1) as real)
  }

  lemma StretchedAxis(from: real, to: real, pad: nat, scale: real, length: nat, limit: nat)
    requires scale > 0.0 && limit > 0 && length > 0 && 0.0 <= from < to <= (limit - 1) as real
    ensures ToFrame(Stretch(ToModel(from, pad, scale), length), pad, scale, limit) == from
            && ToFrame(Stretch(ToModel(to, pad, scale), length), pad, scale, limit) == to
       <==> AxisHarmless(from, to, pad, length, limit)
  {
    StretchedPoint(from, pad, scale, length, limit);
    StretchedPoint(to, pad, scale, length, limit);
  }

  /** A stretched point stays where it was only at the origin or at the far edge. */
  lemma StretchedPoint(x: real, pad: nat, scale: real, length: nat, limit: nat)
    requires scale > 0.0 && limit > 0 && length > 0 && 0.0 <= x <= (limit - 1) as real
    ensures ToFrame(Stretch(ToModel(x, pad, scale), length), pad, scale, limit) == x
       <==> length == 1 || (x == 0.0 && pad == 0) || x == (limit - 1) as real
  {
    var m := ToModel(x, pad, scale);
    MapsBack(x, pad, scale, limit);
    if length > 1 && (x > 0.0 || pad > 0) {
      Nms.ProductPositive(m, (length - 1) as real);
      var far := (m * length as real - pad as real) / scale;
      assert m * length as real == m + m * (length - 1) as real;
      QuotientGrows(m - pad as real, m * length as real - pad as real, scale);
      assert far > x;
    }
  }

  lemma QuotientGrows(a: real, b: real, scale: real)
    requires a < b && scale > 0.0
    ensures a / scale < b / scale
  {
  }

  lemma PlainQuad(q: Quad, source: Size, g: LetterboxInfo)
    requires g.scale > 0.0 && source.width > 0 && source.height > 0 && InFrame(q, source)
    ensures QuadToFrame(ModelCorners(q, g), source, g) == q
  {
    MapsBack(q.a, g.padX, g.scale, source.width);
    MapsBack(q.b, g.padY, g.scale, source.height);
    MapsBack(q.c, g.padX, g.scale, source.width);
    MapsBack(q.d, g.padY, g.scale, source.height);
  }

  lemma StretchedQuad(q: Quad, source: Size, target: Size, g: LetterboxInfo)
    requires g.scale > 0.0 && source.width > 0 && source.height > 0 && target.width > 0 && target.height > 0
    requires InFrame(q, source)
    ensures QuadToFrame(Stretched(ModelCorners(q, g), target), source, g) == q
       <==> AxisHarmless(q.a, q.c, g.padX, target.width, source.width)
            && AxisHarmless(q.b, q.d, g.padY, target.height, source.height)
  {
    StretchedAxis(q.a, q.c, g.padX, g.scale, target.width, source.width);
    StretchedAxis(q.b, q.d, g.padY, g.scale, target.height, source.height);
  }

  /** For a model that reports pixels, in either box format: decoding gives back every box
      inside the frame exactly when its report does not look normalised, or looks so
      harmlessly on both axes. */
  lemma PixelReportsDecode(q: Quad, source: Size, target: Size, g: LetterboxInfo, xyxy: bool)
    requires g.scale > 0.0 && source.width > 0 && source.height > 0 && target.width > 0 && target.height > 0
    requires InFrame(q, source)
    ensures DecodeBox(Report(ModelCorners(q, g), xyxy), source, target, g, xyxy) == q
       <==> !LooksNormalized(Report(ModelCorners(q, g), xyxy))
            || (AxisHarmless(q.a, q.c, g.padX, target.width, source.width)
                && AxisHarmless(q.b, q.d, g.padY, target.height, source.height))
  {
    CornersOfReport(ModelCorners(q, g), target, xyxy);
    PlainQuad(q, source, g);
    StretchedQuad(q, source, target, g);
  }

  /** For a model that reports corners in pixels: a box is misread, unless harmlessly, exactly
      when it ends within the first two pixels of the model's input on both axes. */
  lemma PixelCornersDecode(q: Quad, source: Size, target: Size, g: LetterboxInfo)
    requires g.scale > 0.0 && source.width > 0 && source.height > 0 && target.width > 0 && target.height > 0
    requires InFrame(q, source)
    ensures DecodeBox(Report(ModelCorners(q, g), true), source, target, g, true) == q
       <==> q.c * g.scale + g.padX as real > 2.0 || q.d * g.scale + g.padY as real > 2.0
            || (AxisHarmless(q.a, q.c, g.padX, target.width, source.width)
                && AxisHarmless(q.b, q.d, g.padY, target.height, source.height))
  {
    PixelReportsDecode(q, source, target, g, true);
    CornersInPixels(q, source, g);
  }

  lemma CornersInPixels(q: Quad, source: Size, g: LetterboxInfo)
    requires g.scale > 0.0 && InFrame(q, source)
    ensures LooksNormalized(Report(ModelCorners(q, g), true))
       <==> q.c * g.scale + g.padX as real <= 2.0 && q.d * g.scale + g.padY as real <= 2.0
  {
    ProductLess(q.a, q.c, g.scale);
    ProductLess(q.b, q.d, g.scale);
    CornersLookNormalised(ModelCorners(q, g));
  }

  lemma CornersLookNormalised(m: Quad)
    requires 0.0 <= m.a <= m.c && 0.0 <= m.b <= m.d
    ensures LooksNormalized(m) <==> m.c <= 2.0 && m.d <= 2.0
  {
  }

  /** A box that is misread: one pixel square, in the corner of a same-size picture. */
  lemma TinyBoxMisread()
    ensures var size := Size(640, 640);
            var q := Quad(0.0, 0.0, 1.0, 1.0);
            && Geometry(size, size) == LetterboxInfo(1.0, 0, 0, 640, 640)
            && InFrame(q, size)
            && DecodeBox(Report(ModelCorners(q, Geometry(size, size)), true), size, size, Geometry(size, size), true)
               == Quad(0.0, 0.0, 639.0, 639.0)
  {
    SameSizeGeometry(Size(640, 640));
  }

  /** Coordinates divided by the model's input size. */
  function Shrink(x: real, length: nat): real
    requires length > 0
  {
    x / length as real
  }

  function Normalised(q: Quad, target: Size): Quad
    requires target.width > 0 && target.height > 0
  {
    Quad(Shrink(q.a, target.width), Shrink(q.b, target.height), Shrink(q.c, target.width), Shrink(q.d, target.height))
  }

  lemma ProductLess(a: real, b: real, scale: real)
    requires 0.0 <= a <= b && scale > 0.0
    ensures 0.0 <= a * scale <= b * scale
  {
  }

  lemma QuotientAtMost(a: real, n: real)
    requires n > 0.0 && 0.0 <= a <= 2.0 * n
    ensures 0.0 <= a / n <= 2.0
  {
  }

  lemma ShrinkThenStretch(x: real, n: nat)
    requires n > 0
    ensures Stretch(Shrink(x, n), n) == x
  {
  }

  lemma ShrinkThenStretchQuad(q: Quad, target: Size)
    requires target.width > 0 && target.height > 0
    ensures Stretched(Normalised(q, target), target) == q
  {
    ShrinkThenStretch(q.a, target.width);
    ShrinkThenStretch(q.b, target.height);
    ShrinkThenStretch(q.c, target.width);
    ShrinkThenStretch(q.d, target.height);
  }

  /** A camera coordinate lands in the model's input, padding counted twice at most. */
  lemma ModelPoint(x: real, source: nat, target: nat, scale: real, pad: nat)
    requires source > 0 && target > 0 && 0.0 < scale <= target as real / source as real && pad <= target
    requires 0.0 <= x <= source as real
    ensures 0.0 <= ToModel(x, pad, scale) <= 2.0 * target as real
  {
    ScaledFits(source, target, scale);
    ProductLess(x, source as real, scale);
  }

  /** One axis of a report divided by the input size: its two ends, or its centre and size. */
  lemma AxisLooksNormalised(from: real, to: real, n: nat)
    requires n > 0 && 0.0 <= from <= to <= 2.0 * n as real
    ensures Abs(Shrink(from, n)) <= 2.0 && Abs(Shrink(to, n)) <= 2.0
    ensures Abs(Shrink((from + to) * 0.5, n)) <= 2.0 && Abs(Shrink(to - from, n)) <= 2.0
  {
    QuotientAtMost(from, n as real);
    QuotientAtMost(to, n as real);
    QuotientAtMost((from + to) * 0.5, n as real);
    QuotientAtMost(to - from, n as real);
  }

  lemma ModelAxis(from: real, to: real, source: nat, target: nat, scale: real, pad: nat)
    requires source > 0 && target > 0 && 0.0 < scale <= target as real / source as real && pad <= target
    requires 0.0 <= from <= to <= source as real
    ensures 0.0 <= ToModel(from, pad, scale) <= ToModel(to, pad, scale) <= 2.0 * target as real
  {
    ModelPoint(from, source, target, scale, pad);
    ModelPoint(to, source, target, scale, pad);
    assert from * scale <= to * scale by {
      ProductLess(from, to, scale);
    }
  }

  lemma ReportLooksNormalised(q: Quad, source: Size, target: Size, g: LetterboxInfo, xyxy: bool)
    requires source.width > 0 && source.height > 0 && target.width > 0 && target.height > 0
    requires 0.0 < g.scale <= target.width as real / source.width as real && g.padX <= target.width
    requires g.scale <= target.height as real / source.height as real && g.padY <= target.height
    requires InFrame(q, source)
    ensures LooksNormalized(Normalised(Report(ModelCorners(q, g), xyxy), target))
  {
    var m := ModelCorners(q, g);
    ModelAxis(q.a, q.c, source.width, target.width, g.scale, g.padX);
    ModelAxis(q.b, q.d, source.height, target.height, g.scale, g.padY);
    AxisLooksNormalised(m.a, m.c, target.width);
    AxisLooksNormalised(m.b, m.d, target.height);
  }

  lemma CornersOfNormalised(q: Quad, target: Size, xyxy: bool)
    requires target.width > 0 && target.height > 0 && LooksNormalized(Normalised(Report(q, xyxy), target))
    ensures Corners(Normalised(Report(q, xyxy), target), target, xyxy) == q
  {
    ShrinkThenStretchQuad(Report(q, xyxy), target);
  }

  /** For a model that reports coordinates relative to its input size, in either box format:
      decoding gives back every box inside the frame, always. */
  lemma NormalisedReportsDecode(q: Quad, source: Size, target: Size, xyxy: bool)
    requires source.width > 0 && source.height > 0 && target.width > 0 && target.height > 0
    requires InFrame(q, source)
    ensures var g := Geometry(source, target);
            && g.scale > 0.0
            && DecodeBox(Normalised(Report(ModelCorners(q, g), xyxy), target), source, target, g, xyxy) == q
  {
    WindowFits(source, target);
    var g := Geometry(source, target);
    ReportLooksNormalised(q, source, target, g, xyxy);
    CornersOfNormalised(ModelCorners(q, g), target, xyxy);
    PlainQuad(q, source, g);
  }
}
