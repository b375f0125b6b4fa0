/** Extracting configuration twice is extracting it once, on every byte string. The
    pieces are not always recut at the same places: when a piece ends in a zero byte and
    a 3-byte start code follows, the second pass moves that zero into the next piece. */
module ConfigIdempotence {
  import opened Bytes
  import opened AnnexB

  function PrefixLen(p: Chunk): nat
    requires |p| > 2
  {
    if p[2] == 1 then 3 else 4
  }

  /** A start code, a header byte, and no further start code after that. */
  predicate Piece(p: Chunk) {
    && CodeAt(p, 0) && PrefixLen(p) < |p|
    && forall i :: PrefixLen(p) < i < |p| ==> !CodeAt(p, i)
  }

  /** No 00 00 01 closes the piece, where the scanner looks past it for lack of a header. */
  predicate Sealed(p: Chunk)
    requires Piece(p)
  {
    PrefixLen(p) + 3 < |p| ==> !(p[|p| - 3] == 0 && p[|p| - 2] == 0 && p[|p| - 1] == 1)
  }

  predicate Chain(units: seq<Unit>) {
    units != [] ==>
      && Piece(units[0].bytes)
      && units[0].header == units[0].bytes[PrefixLen(units[0].bytes)]
      && IsConfig(units[0].header)
      && (|units| > 1 ==> Sealed(units[0].bytes))
      && Chain(units[1..])
  }

  lemma UnitIsPiece(d: Chunk, start: nat)
    requires CodeAt(d, start) && start + CodeLen(d, start) < |d|
    ensures var u := UnitAt(d, start);
            && Piece(u.bytes)
            && u.header == u.bytes[PrefixLen(u.bytes)]
            && (start + |u.bytes| < |d| ==> Sealed(u.bytes))
  {
    var header := start + CodeLen(d, start);
    CutIsPiece(d, start, NextCode(d, header + 1));
  }

  lemma CutIsPiece(d: Chunk, start: nat, end: nat)
    requires CodeAt(d, start) && start + CodeLen(d, start) < end <= |d|
    requires end < |d| ==> CodeAt(d, end)
    requires forall k :: start + CodeLen(d, start) < k < end ==> !CodeAt(d, k)
    ensures var p := d[start..end];
            && Piece(p) && PrefixLen(p) == CodeLen(d, start)
            && (end < |d| ==> Sealed(p))
  {
    var p := d[start..end];
    forall i | CodeLen(d, start) < i < |p| ensures !CodeAt(p, i) {
      assert !CodeAt(d, start + i);
    }
    if end < |d| && PrefixLen(p) + 3 < |p| {
      assert !CodeAt(d, end - 3);
    }
  }

  lemma {:induction false} ScanIsChain(d: Chunk, from: nat)
    ensures Chain(Config(Scan(d, from)))
    decreases |d| - from
  {
    if ScanGoesOn(d, from) {
      var start := NextCode(d, from);
      var header := start + CodeLen(d, start);
      ScanIsChain(d, header + 1);
      UnitIsPiece(d, start);
      ConfigCons(UnitAt(d, start), Scan(d, header + 1));
      var rest := Config(Scan(d, header + 1));
      assert ([UnitAt(d, start)] + rest)[1..] == rest;
    }
  }

  /** The next piece is found where it begins, or one zero byte early; either way its
      header byte is the same. */
  lemma FindPiece(j: Chunk, from: nat, pre: Chunk, p: Chunk, post: Chunk)
    requires j == pre + (p + post) && Piece(p)
    requires from <= |pre| && forall k :: from <= k < |pre| - 1 ==> !CodeAt(j, k)
    ensures ScanGoesOn(j, from) && NextCode(j, from) <= |pre|
    ensures NextCode(j, from) + CodeLen(j, NextCode(j, from)) == |pre| + PrefixLen(p)
    ensures j[|pre| + PrefixLen(p)] == p[PrefixLen(p)]
    ensures pre == [] ==> NextCode(j, from) == 0
  {
    var at := |pre|;
    assert j[at] == p[0] && j[at + 1] == p[1] && j[at + 2] == p[2] && j[at + 3] == p[3];
    assert j[at + PrefixLen(p)] == p[PrefixLen(p)];
    if from < at && CodeAt(j, at - 1) {
      NextCodeIs(j, from, at - 1);
    } else {
      NextCodeIs(j, from, at);
    }
  }

  lemma QuietPiece(j: Chunk, pre: Chunk, p: Chunk, post: Chunk, k: nat)
    requires j == pre + (p + post) && Piece(p)
    requires post != [] ==> Sealed(p) && |post| > 1 && post[0] == post[1] == 0
    requires |pre| + PrefixLen(p) < k < |pre| + |p| - 1
    ensures !CodeAt(j, k)
  {
    var i := k - |pre|;
    assert forall m :: 0 <= m < |p| ==> j[|pre| + m] == p[m];
    assert post != [] ==> j[|pre| + |p|] == 0 && j[|pre| + |p| + 1] == 0;
    assert i + 3 < |p| ==> !CodeAt(p, i);
  }

  lemma {:induction false} Rescan(j: Chunk, from: nat, pre: Chunk, units: seq<Unit>)
    requires j == pre + Join(units) && Chain(units)
    requires from <= |pre| && forall k :: from <= k < |pre| - 1 ==> !CodeAt(j, k)
    ensures ConfigFrom(j, from) == j[NextCode(j, from)..]
    ensures pre == [] ==> NextCode(j, from) == 0
    decreases |units|
  {
    if units == [] {
      NextCodeIs(j, from, |j|);
    } else {
      var p, rest := units[0].bytes, units[1..];
      FindPiece(j, from, pre, p, Join(rest));
      var header := |pre| + PrefixLen(p);
      forall k | header + 1 <= k < |pre + p| - 1 ensures !CodeAt(j, k) {
        QuietPiece(j, pre, p, Join(rest), k);
      }
      AppendAssoc(pre, p, Join(rest));
      Rescan(j, header + 1, pre + p, rest);
      ConfigStep(j, from, header);
      var start, next := NextCode(j, from), NextCode(j, header + 1);
      SliceThenRest(j, start, next);
    }
  }

  /** For every byte string, conforming or not. */
  lemma ExtractIdempotent(d: Chunk)
    ensures Extract(Extract(d)) == Extract(d)
  {
    var units := Config(Scan(d, 0));
    ScanIsChain(d, 0);
    assert Join(units) == [] + Join(units);
    Rescan(Join(units), 0, [], units);
  }
}
