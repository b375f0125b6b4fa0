/** The gateway's scanner for H.264 byte streams (Annex B of ITU-T H.264):
    start codes, the NAL type test and the bootstrap-config extractor. */
module AnnexB {
  import opened Bytes

  // ----- start codes

  /** A start code at i: 00 00 01, or 00 00 00 01. Either needs four bytes to be left. */
  predicate CodeAt(d: Chunk, i: nat) {
    && i + 3 < |d|
    && d[i] == 0 && d[i + 1] == 0
    && (d[i + 2] == 1 || (d[i + 2] == 0 && d[i + 3] == 1))
  }

  function CodeLen(d: Chunk, i: nat): nat
    requires CodeAt(d, i)
  {
    if d[i + 2] == 1 then 3 else 4
  }

  /** The first start code at or after `from`, or |d| when there is none. */
  function NextCode(d: Chunk, from: nat): (i: nat)
    ensures i <= |d|
    ensures i < |d| ==> from <= i && CodeAt(d, i)
    ensures forall k :: from <= k < i ==> !CodeAt(d, k)
    ensures from <= |d| ==> from <= i
    decreases |d| - from
  {
    if from + 3 >= |d| then |d|
    else if CodeAt(d, from) then from
    else NextCode(d, from + 1)
  }

  lemma NextCodeIs(d: Chunk, from: nat, i: nat)
    requires from <= i <= |d|
    requires i < |d| ==> CodeAt(d, i)
    requires forall k :: from <= k < i ==> !CodeAt(d, k)
    ensures NextCode(d, from) == i
  {
  }

  /** The result |d| stands for npos. */
  method FindStartCode(data: Chunk, from: nat) returns (start: nat, prefixLen: nat)
    ensures start == NextCode(data, from)
    ensures prefixLen == if start < |data| then CodeLen(data, start) else 0
  {
    var i := from;
    prefixLen := 0;
    while i + 3 < |data|
      invariant from <= i
      invariant NextCode(data, from) == NextCode(data, i)
      decreases |data| - i
    {
      if data[i] == 0 && data[i + 1] == 0 {
        if data[i + 2] == 1 {
          return i, 3;
        }
        if i + 3 < |data| && data[i + 2] == 0 && data[i + 3] == 1 {
          return i, 4;
        }
      }
      i := i + 1;
    }
    start := |data|;
  }

  // ----- NAL units

  /** A unit as the scanner meets it: its header byte, and its bytes from the start
      code up to the next one. */
  datatype Unit = Unit(header: Byte, bytes: Chunk)

  /** The units met by scanning from `from`: the search resumes one past each header. */
  function Scan(d: Chunk, from: nat): seq<Unit>
    decreases |d| - from
  {
    var start := NextCode(d, from);
    if start == |d| then [] else
    var header := start + CodeLen(d, start);
    if header >= |d| then [] else
    [Unit(d[header], d[start..NextCode(d, header + 1)])] + Scan(d, header + 1)
  }

  /** The low five bits of the header. */
  function NalType(header: Byte): nat {
    header as int % 32
  }

  /** The type is read past the forbidden bit and nal_ref_idc, as section 7.3.1 of H.264 lays
      the header out; 7, 8 and 6 are configuration. */
  lemma HeaderType(refIdc: nat, t: nat)
    requires refIdc < 8 && t < 32
    ensures NalType(32 * refIdc + t) == t
    ensures IsConfig(32 * refIdc + t) <==> t == 6 || t == 7 || t == 8
  {
  }

  const SLICE_IDR := 5
  const SEI := 6
  const SPS := 7
  const PPS := 8

  predicate IsConfig(header: Byte) {
    NalType(header) == SPS || NalType(header) == PPS || NalType(header) == SEI
  }

  predicate HasType(units: seq<Unit>, nalType: nat) {
    exists i :: 0 <= i < |units| && NalType(units[i].header) == nalType
  }

  /** The units that carry configuration, in order. */
  function Config(units: seq<Unit>): seq<Unit> {
    if units == [] then []
    else if IsConfig(units[0].header) then [units[0]] + Config(units[1..])
    else Config(units[1..])
  }

  function Join(units: seq<Unit>): Chunk {
    if units == [] then [] else units[0].bytes + Join(units[1..])
  }

  function Extract(d: Chunk): Chunk {
    Join(Config(Scan(d, 0)))
  }

  predicate Contains(d: Chunk, nalType: nat) {
    HasType(Scan(d, 0), nalType)
  }

  /** The unit whose start code is at `start`. */
  function UnitAt(d: Chunk, start: nat): Unit
    requires CodeAt(d, start) && start + CodeLen(d, start) < |d|
  {
    var header := start + CodeLen(d, start);
    Unit(d[header], d[start..NextCode(d, header + 1)])
  }

  predicate ScanGoesOn(d: Chunk, from: nat) {
    var start := NextCode(d, from);
    start < |d| && start + CodeLen(d, start) < |d|
  }

  lemma ScanStep(d: Chunk, from: nat)
    ensures var start := NextCode(d, from);
            Scan(d, from) == if ScanGoesOn(d, from)
                             then [UnitAt(d, start)] + Scan(d, start + CodeLen(d, start) + 1)
                             else []
  {
  }

  lemma HasTypeCons(first: Unit, rest: seq<Unit>, t: nat)
    ensures HasType([first] + rest, t) <==> NalType(first.header) == t || HasType(rest, t)
  {
    var units := [first] + rest;
    if NalType(first.header) == t {
      assert units[0] == first;
    } else if i :| 0 <= i < |rest| && NalType(rest[i].header) == t {
      assert units[i + 1] == rest[i];
    }
  }

  lemma ConfigCons(first: Unit, rest: seq<Unit>)
    ensures Config([first] + rest) == (if IsConfig(first.header) then [first] else []) + Config(rest)
    ensures Join([first] + rest) == first.bytes + Join(rest)
    ensures Join(Config([first] + rest))
         == (if IsConfig(first.header) then first.bytes else []) + Join(Config(rest))
  {
    assert ([first] + rest)[1..] == rest;
    assert ([first] + Config(rest))[1..] == Config(rest);
  }

  /** Whether a unit of the given type is still to come when scanning from `from`. */
  predicate TypeFrom(d: Chunk, from: nat, t: nat) {
    HasType(Scan(d, from), t)
  }

  lemma TypeEnd(d: Chunk, from: nat, t: nat)
    requires !ScanGoesOn(d, from)
    ensures !TypeFrom(d, from, t)
  {
  }

  lemma TypeStep(d: Chunk, from: nat, header: nat, t: nat)
    requires ScanGoesOn(d, from) && header == NextCode(d, from) + CodeLen(d, NextCode(d, from))
    ensures TypeFrom(d, from, t) <==> NalType(d[header]) == t || TypeFrom(d, header + 1, t)
  {
    HasTypeCons(UnitAt(d, NextCode(d, from)), Scan(d, header + 1), t);
  }

  /** The configuration bytes still to come when scanning from `from`. */
  function ConfigFrom(d: Chunk, from: nat): Chunk {
    Join(Config(Scan(d, from)))
  }

  lemma ConfigEnd(d: Chunk, from: nat)
    requires !ScanGoesOn(d, from)
    ensures ConfigFrom(d, from) == []
  {
  }

  lemma ConfigStep(d: Chunk, from: nat, header: nat)
    requires ScanGoesOn(d, from) && header == NextCode(d, from) + CodeLen(d, NextCode(d, from))
    ensures ConfigFrom(d, from)
         == (if IsConfig(d[header]) then d[NextCode(d, from)..NextCode(d, header + 1)] else [])
            + ConfigFrom(d, header + 1)
  {
    ConfigCons(UnitAt(d, NextCode(d, from)), Scan(d, header + 1));
  }

  lemma ConfigDone(d: Chunk, from: nat, config: Chunk)
    requires !ScanGoesOn(d, from)
    ensures config + ConfigFrom(d, from) == config
  {
    ConfigEnd(d, from);
  }

  lemma ConfigAdvance(d: Chunk, from: nat, header: nat, config: Chunk)
    requires ScanGoesOn(d, from) && header == NextCode(d, from) + CodeLen(d, NextCode(d, from))
    ensures var piece := d[NextCode(d, from)..NextCode(d, header + 1)];
            config + ConfigFrom(d, from)
            == if IsConfig(d[header]) then (config + piece) + ConfigFrom(d, header + 1)
               else config + ConfigFrom(d, header + 1)
  {
    ConfigStep(d, from, header);
    AppendAssoc(config, d[NextCode(d, from)..NextCode(d, header + 1)], ConfigFrom(d, header + 1));
  }

  method ContainsNalType(data: Chunk, nalType: nat) returns (found: bool)
    ensures found == Contains(data, nalType)
  {
    var offset: nat := 0;
    ghost var answer := Contains(data, nalType);
    while true
      invariant answer == TypeFrom(data, offset, nalType)
      decreases |data| + 4 - offset
    {
      var start, prefixLen := FindStartCode(data, offset);
      if start == |data| {
        TypeEnd(data, offset, nalType);
        return false;
      }
      var nalIndex := start + prefixLen;
      if nalIndex < |data| {
        TypeStep(data, offset, nalIndex, nalType);
        if data[nalIndex] as int % 32 == nalType {
          return true;
        }
      } else {
        TypeEnd(data, offset, nalType);
        TypeEnd(data, nalIndex + 1, nalType);
      }
      offset := nalIndex + 1;
    }
  }

  /** The body of the loop: a configuration unit's bytes are appended. */
  method AppendConfig(data: Chunk, config: Chunk, ghost from: nat, start: nat, nalIndex: nat, nalEnd: nat)
      returns (longer: Chunk)
    requires ScanGoesOn(data, from) && start == NextCode(data, from) && nalIndex == start + CodeLen(data, start)
    requires nalEnd == NextCode(data, nalIndex + 1)
    ensures longer + ConfigFrom(data, nalIndex + 1) == config + ConfigFrom(data, from)
  {
    ConfigAdvance(data, from, nalIndex, config);
    var nalType := data[nalIndex] as int % 32;
    longer := config;
    if nalType == 7 || nalType == 8 || nalType == 6 {
      longer := config + data[start..nalEnd];
    }
  }

  method ExtractBootstrapConfig(data: Chunk) returns (config: Chunk)
    ensures config == Extract(data)
  {
    config := [];
    var offset: nat := 0;
    ghost var answer := Extract(data);
    while true
      invariant answer == config + ConfigFrom(data, offset)
      decreases |data| + 4 - offset
    {
      var start, prefixLen := FindStartCode(data, offset);
      if start == |data| {
        ConfigDone(data, offset, config);
        break;
      }
      var nalIndex := start + prefixLen;
      if nalIndex >= |data| {
        ConfigDone(data, offset, config);
        break;
      }
      var nalEnd, _ := FindStartCode(data, nalIndex + 1);
      config := AppendConfig(data, config, offset, start, nalIndex, nalEnd);
      offset := nalIndex + 1;
    }
  }

  // ----- the scanner inverts the byte-stream writer

  /** A NAL unit's bytes and the length of the start code it is sent with. */
  datatype Nal = Nal(longCode: bool, body: Chunk)

  /** What section 7.4.1 of H.264 demands of a unit's bytes. */
  predicate Conforming(body: Chunk) {
    && body != [] && body[|body| - 1] != 0
    && forall i :: 0 <= i && i + 2 < |body| ==> !(body[i] == 0 && body[i + 1] == 0 && body[i + 2] <= 2)
  }

  predicate AllConforming(nals: seq<Nal>) {
    forall i :: 0 <= i < |nals| ==> Conforming(nals[i].body)
  }

  function Wrap(n: Nal): Chunk {
    (if n.longCode then [0, 0, 0, 1] else [0, 0, 1]) + n.body
  }

  /** The byte stream of section B.1, without leading or trailing zero bytes. */
  function Stream(nals: seq<Nal>): Chunk {
    if nals == [] then [] else Wrap(nals[0]) + Stream(nals[1..])
  }

  function Units(nals: seq<Nal>): (units: seq<Unit>)
    requires AllConforming(nals)
    ensures |units| == |nals|
    ensures forall i :: 0 <= i < |nals| ==> units[i] == Unit(nals[i].body[0], Wrap(nals[i]))
  {
    seq(|nals|, i requires 0 <= i < |nals| => Unit(nals[i].body[0], Wrap(nals[i])))
  }

  function ConfigOnly(nals: seq<Nal>): seq<Nal>
    requires AllConforming(nals)
  {
    if nals == [] then []
    else if IsConfig(nals[0].body[0]) then [nals[0]] + ConfigOnly(nals[1..])
    else ConfigOnly(nals[1..])
  }

  /** No start code begins after a conforming unit's header and before its end. */
  lemma QuietBody(d: Chunk, body: Chunk, header: nat, i: nat)
    requires Conforming(body) && header + |body| <= |d| && d[header..header + |body|] == body
    requires header < i < header + |body|
    ensures !CodeAt(d, i)
  {
    var k := i - header;
    assert body[k] == d[i] && body[|body| - 1] == d[header + |body| - 1];
    if k + 1 < |body| {
      assert body[k + 1] == d[i + 1];
    }
    if k + 2 < |body| {
      assert body[k + 2] == d[i + 2];
    }
  }

  lemma WrapStarts(d: Chunk, at: nat, n: Nal)
    requires at + |Wrap(n)| <= |d| && d[at..at + |Wrap(n)|] == Wrap(n) && n.body != []
    ensures CodeAt(d, at) && CodeLen(d, at) == |Wrap(n)| - |n.body|
    ensures d[at + CodeLen(d, at)] == n.body[0]
  {
    var w := Wrap(n);
    assert d[at] == w[0] && d[at + 1] == w[1] && d[at + 2] == w[2] && d[at + 3] == w[3];
    assert n.longCode ==> d[at + 4] == w[4];
  }

  lemma QuietUnit(d: Chunk, at: nat, n: Nal)
    requires at + |Wrap(n)| <= |d| && d[at..at + |Wrap(n)|] == Wrap(n) && Conforming(n.body)
    ensures forall k :: at + |Wrap(n)| - |n.body| < k < at + |Wrap(n)| ==> !CodeAt(d, k)
  {
    var header, end := at + |Wrap(n)| - |n.body|, at + |Wrap(n)|;
    assert d[header..end] == n.body by {
      SliceOfSlice(d, at, end, header - at);
    }
    forall k | header < k < end ensures !CodeAt(d, k) {
      QuietBody(d, n.body, header, k);
    }
  }

  lemma ScanUnit(d: Chunk, from: nat, pre: Chunk, n: Nal, post: Chunk)
    requires d == pre + (Wrap(n) + post) && Conforming(n.body)
    requires from <= |pre| && forall k :: from <= k < |pre| ==> !CodeAt(d, k)
    ensures NextCode(d, from) == |pre| && ScanGoesOn(d, from)
    ensures CodeLen(d, |pre|) == |Wrap(n)| - |n.body|
    ensures d[|pre| + CodeLen(d, |pre|)] == n.body[0] && d[|pre|..|pre| + |Wrap(n)|] == Wrap(n)
    ensures forall k :: |pre| + CodeLen(d, |pre|) < k < |pre| + |Wrap(n)| ==> !CodeAt(d, k)
  {
    assert d[|pre|..|pre| + |Wrap(n)|] == Wrap(n);
    WrapStarts(d, |pre|, n);
    NextCodeIs(d, from, |pre|);
    QuietUnit(d, |pre|, n);
  }

  /** Where the scan of a byte stream leads when the next unit begins at |pre|. */
  lemma {:induction false} ScanStream(d: Chunk, from: nat, pre: Chunk, nals: seq<Nal>)
    requires d == pre + Stream(nals) && AllConforming(nals)
    requires from <= |pre| && forall k :: from <= k < |pre| ==> !CodeAt(d, k)
    ensures NextCode(d, from) == if nals == [] then |d| else |pre|
    ensures Scan(d, from) == Units(nals)
    decreases |nals|
  {
    if nals == [] {
      NextCodeIs(d, from, |d|);
    } else {
      var n, rest := nals[0], nals[1..];
      ScanUnit(d, from, pre, n, Stream(rest));
      var header := |pre| + CodeLen(d, |pre|);
      AppendAssoc(pre, Wrap(n), Stream(rest));
      ScanStream(d, header + 1, pre + Wrap(n), rest);
      ScanStep(d, from);
      UnitsCons(nals);
    }
  }

  lemma UnitsCons(nals: seq<Nal>)
    requires nals != [] && AllConforming(nals)
    ensures Units(nals) == [Unit(nals[0].body[0], Wrap(nals[0]))] + Units(nals[1..])
  {
  }

  /** The scanner recovers every unit of a conforming stream, in order, with its own
      start code, whatever mix of 3- and 4-byte codes was used. */
  lemma ScanInvertsStream(nals: seq<Nal>)
    requires AllConforming(nals)
    ensures Scan(Stream(nals), 0) == Units(nals)
  {
    assert Stream(nals) == [] + Stream(nals);
    ScanStream(Stream(nals), 0, [], nals);
  }

  lemma {:induction false} ConfigOfUnits(nals: seq<Nal>)
    requires AllConforming(nals)
    ensures Join(Config(Units(nals))) == Stream(ConfigOnly(nals))
  {
    if nals != [] {
      ConfigOfUnits(nals[1..]);
      UnitsCons(nals);
      ConfigCons(Unit(nals[0].body[0], Wrap(nals[0])), Units(nals[1..]));
    }
  }

  /** For every list of conforming units, each behind a 3- or 4-byte start code, the
      extractor returns the stream of just the SPS, PPS and SEI units, in order. */
  lemma ExtractFilters(nals: seq<Nal>)
    requires AllConforming(nals)
    ensures Extract(Stream(nals)) == Stream(ConfigOnly(nals))
  {
    ScanInvertsStream(nals);
    ConfigOfUnits(nals);
  }

  /** The type test finds exactly the types that were sent. */
  lemma ContainsFinds(nals: seq<Nal>, nalType: nat)
    requires AllConforming(nals)
    ensures Contains(Stream(nals), nalType)
       <==> exists i :: 0 <= i < |nals| && NalType(nals[i].body[0]) == nalType
  {
    ScanInvertsStream(nals);
    var units := Units(nals);
    if i :| 0 <= i < |nals| && NalType(nals[i].body[0]) == nalType {
      assert NalType(units[i].header) == nalType;
    }
  }
}
