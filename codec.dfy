/**
 * The package timeline decoder of `Replay::RecordPkgs`: a cursor walks a
 * recording's bytes, reads each 8-byte common header (id, content size) and
 * then a payload whose width depends on the kind. `Encode` is the layout the
 * recorder writes; decoding it gives back the packages (`DecodeEncode`).
 * Integers are little-endian, as on the hosts the recorder runs on.
 */
module Codec {
  import opened Wrappers
  import opened Packages

  const TwoTo31: int := 0x8000_0000
  const TwoTo32: int := 0x1_0000_0000

  function Pow256(n: nat): nat {
    if n == 0 then 1 else 256 * Pow256(n - 1)
  }

  /** The little-endian unsigned value of a byte string. */
  function LE(bs: seq<byte>): nat {
    if |bs| == 0 then 0 else bs[0] + 256 * LE(bs[1..])
  }

  /** The `n` low bytes of `x`, least significant first. */
  function ToLE(x: nat, n: nat): (bs: seq<byte>)
    ensures |bs| == n
  {
    if n == 0 then [] else [x % 256] + ToLE(x / 256, n - 1)
  }

  lemma {:induction false} LEOfToLE(x: nat, n: nat)
    requires x < Pow256(n)
    ensures LE(ToLE(x, n)) == x
  {
    if n > 0 {
      assert x / 256 < Pow256(n - 1);
      LEOfToLE(x / 256, n - 1);
      assert ToLE(x, n)[1..] == ToLE(x / 256, n - 1);
    }
  }

  lemma Pow256Four()
    ensures Pow256(4) == TwoTo32
  {
    assert Pow256(2) == 65536;
  }

  predicate IsInt32(v: int) { -TwoTo31 <= v < TwoTo31 }

  /** A 32-bit two's-complement integer read from four bytes. */
  function Int32Of(bs: seq<byte>): int {
    var u := LE(bs);
    if u >= TwoTo31 then u - TwoTo32 else u
  }

  function Int32Bytes(v: int): (bs: seq<byte>)
    requires IsInt32(v)
    ensures |bs| == 4
  {
    ToLE(if v < 0 then v + TwoTo32 else v, 4)
  }

  lemma Int32RoundTrip(v: int)
    requires IsInt32(v)
    ensures Int32Of(Int32Bytes(v)) == v
  {
    Pow256Four();
    LEOfToLE(if v < 0 then v + TwoTo32 else v, 4);
  }

  /**
   * The numeric package ids. Their values are declared in DatLogger.hpp,
   * which is not part of this model; the model numbers the kinds in the
   * order `RecordPkgs` handles them, and only their distinctness matters.
   */
  const Kinds: seq<Kind> :=
    [Header, ModelId, TimeSeries, ObjId, Positions, Speed, ObjType, ObjCategory, CtrlType,
     WheelAngle, WheelRot, BoundingBox, ScaleMode, VisibilityMask, Name, RoadId, LaneId,
     PosOffset, PosT, PosS, ObjDeleted, ObjAdded, EndOfScenario]

  function Code(k: Kind): (c: nat)
    ensures c < |Kinds| && Kinds[c] == k
  {
    match k
    case Header => 0 case ModelId => 1 case TimeSeries => 2 case ObjId => 3 case Positions => 4
    case Speed => 5 case ObjType => 6 case ObjCategory => 7 case CtrlType => 8 case WheelAngle => 9
    case WheelRot => 10 case BoundingBox => 11 case ScaleMode => 12 case VisibilityMask => 13
    case Name => 14 case RoadId => 15 case LaneId => 16 case PosOffset => 17 case PosT => 18
    case PosS => 19 case ObjDeleted => 20 case ObjAdded => 21 case EndOfScenario => 22
  }

  /** The kind at position `c` of `ks`, looked up one position at a time. */
  function KindAt(c: nat, ks: seq<Kind>): Option<Kind>
    decreases |ks|
  {
    if |ks| == 0 then None else if c == 0 then Some(ks[0]) else KindAt(c - 1, ks[1..])
  }

  lemma {:induction false} KindAtIndex(c: nat, ks: seq<Kind>)
    ensures KindAt(c, ks) == if c < |ks| then Some(ks[c]) else None
    decreases |ks|
  {
    if |ks| > 0 && c > 0 {
      KindAtIndex(c - 1, ks[1..]);
    }
  }

  /** The kind of a package id; `None` for an id the switch of `RecordPkgs` has no case for. */
  function KindOfCode(c: int): (r: Option<Kind>)
    ensures r.Some? <==> 0 <= c < |Kinds|
    ensures r.Some? ==> Code(r.value) == c
  {
    if c < 0 then None
    else
      KindAtIndex(c, Kinds);
      if c < |Kinds| then CodeOfKindsAt(c); KindAt(c, Kinds) else KindAt(c, Kinds)
  }

  lemma KindOfCodeInverse(k: Kind)
    ensures KindOfCode(Code(k)) == Some(k)
  {
  }

  lemma CodeOfKindsAt(c: nat)
    requires c < |Kinds|
    ensures Code(Kinds[c]) == c
  {
  }

  /** The width of the field a one-value package is read into. */
  function FieldWidth(k: Kind): nat {
    if IsIntKind(k) then 4 else 8
  }

  /** The payload of a one-value package whose `content_size` bytes are `bs`. */
  function ScalarPayload(k: Kind, bs: seq<byte>): Payload {
    if k == Name then Text(bs)
    else if |bs| != FieldWidth(k) then Malformed(bs)
    else if k == TimeSeries then TimeValue(LE(bs))
    else if IsIntKind(k) then IntValue(Int32Of(bs))
    else RealValue(Real64(bs))
  }

  /** The payload of a position or bounding-box package: six doubles of eight bytes each. */
  function SixPayload(k: Kind, bs: seq<byte>): Payload
    requires |bs| == 48
  {
    var f := (i: nat) requires i < 6 => Real64(bs[8 * i .. 8 * i + 8]);
    if k == Positions then Pose(f(0), f(1), f(2), f(3), f(4), f(5))
    else Box(f(0), f(1), f(2), f(3), f(4), f(5))
  }

  /** What one turn of the reading loop does with the bytes at the cursor. */
  datatype Step =
    | Stop                          // end of data, or a common header cut short: nothing appended
    | Skip(next: nat)               // unknown id: nothing appended, reading goes on at `next`
    | Got(pkg: Package, next: nat)  // `pkg` appended, reading goes on at `next`
    | Last(pkg: Package)            // `pkg` appended from a payload the end of the file cut short; reading stops

  predicate Advances(s: Step, n: nat) {
    (s.Skip? ==> 0 < s.next <= n) && (s.Got? ==> 0 < s.next <= n)
  }

  /**
   * One turn of the reading loop: it stops exactly when fewer than the 8
   * bytes of a common header are left; an unknown id consumes only its
   * header; a package appended takes at least its header.
   */
  function DecodeOne(b: seq<byte>): (s: Step)
    ensures Advances(s, |b|)
    ensures s.Stop? <==> |b| < 8
    ensures |b| >= 8 && KindOfCode(LE(b[..4])).None? ==> s == Skip(8)
    ensures s.Got? ==> 8 <= s.next
  {
    if |b| < 8 then Stop
    else
      var size := LE(b[4..8]);
      match KindOfCode(LE(b[..4]))
      case None => Skip(8)
      case Some(k) => DecodeContent(k, size, b[8..], 8)
  }

  /** The content of a package of kind `k`, read from `c`, the bytes after its common header (which took `h` bytes). */
  function DecodeContent(k: Kind, size: nat, c: seq<byte>, h: nat): (s: Step)
    requires h > 0
    ensures Advances(s, h + |c|) && !s.Stop? && !s.Skip?
    ensures s.Got? ==> h <= s.next
  {
    if k == Header then DecodeHeader(size, c, h)
    else if IsMarker(k) then Got(Package(k, size, NoContent), h)
    else if k == Positions || k == BoundingBox then
      if 48 <= |c| then Got(Package(k, size, SixPayload(k, c[..48])), h + 48)
      else Last(Package(k, size, Malformed(c)))
    else if size <= |c| then Got(Package(k, size, ScalarPayload(k, c[..size])), h + size)
    else Last(Package(k, size, Malformed(c)))
  }

  /** The file header: a version, then two size-prefixed strings (the content size is not used). */
  function DecodeHeader(size: nat, c: seq<byte>, h: nat): (s: Step)
    requires h > 0
    ensures Advances(s, h + |c|) && (s.Got? || s.Last?)
    ensures s.Got? ==> h + 12 <= s.next
  {
    var cut := Last(Package(Header, size, Malformed(c)));
    if |c| < 8 then cut
    else
      var n1 := LE(c[4..8]);
      if |c| < 8 + n1 + 4 then cut
      else
        var n2 := LE(c[8 + n1 .. 12 + n1]);
        if |c| < 12 + n1 + n2 then cut
        else
          var info := HeaderInfo(Int32Of(c[..4]), c[8 .. 8 + n1], c[12 + n1 .. 12 + n1 + n2]);
          Got(Package(Header, size, info), h + 12 + n1 + n2)
  }

  /** The packages `RecordPkgs` appends to `pkgs_` when reading the bytes `b`. */
  function Decode(b: seq<byte>): (r: seq<Package>)
    ensures 8 * |r| <= |b|
    decreases |b|
  {
    if |b| == 0 then []
    else
      match DecodeOne(b)
      case Stop => []
      case Skip(n) => Decode(b[n..])
      case Got(p, n) => [p] + Decode(b[n..])
      case Last(p) => [p]
  }

  lemma DecodeUnfold(b: seq<byte>, st: Step)
    requires |b| > 0 && st == DecodeOne(b)
    ensures st.Stop? ==> Decode(b) == []
    ensures st.Skip? ==> Decode(b) == Decode(b[st.next..])
    ensures st.Got? ==> Decode(b) == [st.pkg] + Decode(b[st.next..])
    ensures st.Last? ==> Decode(b) == [st.pkg]
  {
  }

  lemma DecodeAt(file: seq<byte>, pos: nat, st: Step)
    requires pos < |file| && st == DecodeOne(file[pos..])
    ensures st.Stop? ==> Decode(file[pos..]) == []
    ensures st.Skip? ==> pos + st.next <= |file| && Decode(file[pos..]) == Decode(file[pos + st.next..])
    ensures st.Got? ==> pos + st.next <= |file| && Decode(file[pos..]) == [st.pkg] + Decode(file[pos + st.next..])
    ensures st.Last? ==> Decode(file[pos..]) == [st.pkg]
  {
    var rest := file[pos..];
    DecodeUnfold(rest, st);
    if st.Skip? || st.Got? {
      assert rest[st.next..] == file[pos + st.next..];
    }
  }

  /**
   * One turn of the reading loop of `RecordPkgs` at `pos`: the packages it
   * appends, and whether and where reading goes on.
   */
  method ReadOne(file: seq<byte>, pos: nat) returns (ps: seq<Package>, more: bool, next: nat)
    requires pos < |file|
    ensures more ==> pos < next <= |file| && Decode(file[pos..]) == ps + Decode(file[next..])
    ensures !more ==> Decode(file[pos..]) == ps
  {
    var st := DecodeOne(file[pos..]);
    DecodeAt(file, pos, st);
    more := st.Skip? || st.Got?;
    ps := if st.Got? || st.Last? then [st.pkg] else [];
    next := if more then pos + st.next else pos;
  }

  /** `Replay::RecordPkgs`: read packages until the cursor reaches the end of the file or a read fails. */
  method RecordPkgs(file: seq<byte>) returns (pkgs: seq<Package>)
    ensures pkgs == Decode(file)
  {
    pkgs := [];
    var pos := 0;
    var good := true;
    while good && pos < |file|
      invariant 0 <= pos <= |file|
      invariant good ==> pkgs + Decode(file[pos..]) == Decode(file)
      invariant !good ==> pkgs == Decode(file)
      decreases |file| - pos, good
    {
      var ps, more, next := ReadOne(file, pos);
      if more {
        Associative(pkgs, ps, Decode(file[next..]));
      }
      pkgs := pkgs + ps;
      good := more;
      if more {
        pos := next;
      }
    }
    if good {
      assert file[pos..] == [];
    }
  }

  /** A package as the recorder writes it: what `Encode` can lay out and `Decode` reads back. */
  predicate WellFormed(p: Package) {
    && p.contentSize < TwoTo32
    && (p.kind == Header ==>
          p.payload.HeaderInfo? && IsInt32(p.payload.version)
          && |p.payload.odrFilename| < TwoTo32 && |p.payload.modelFilename| < TwoTo32)
    && (p.kind == Positions ==>
          p.payload.Pose? && |p.payload.x.bits| == 8 && |p.payload.y.bits| == 8 && |p.payload.z.bits| == 8
          && |p.payload.h.bits| == 8 && |p.payload.r.bits| == 8 && |p.payload.p.bits| == 8)
    && (p.kind == BoundingBox ==>
          p.payload.Box? && |p.payload.cx.bits| == 8 && |p.payload.cy.bits| == 8 && |p.payload.cz.bits| == 8
          && |p.payload.width.bits| == 8 && |p.payload.length.bits| == 8 && |p.payload.height.bits| == 8)
    && (p.kind == TimeSeries ==>
          p.payload.TimeValue? && 0 <= p.payload.ticks < Pow256(8) && p.contentSize == 8)
    && (p.kind == Name ==> p.payload.Text? && p.contentSize == |p.payload.chars|)
    && (IsMarker(p.kind) ==> p.payload.NoContent?)
    && (IsIntKind(p.kind) ==> p.payload.IntValue? && IsInt32(p.payload.value) && p.contentSize == 4)
    && (IsRealKind(p.kind) ==> p.payload.RealValue? && |p.payload.double.bits| == 8 && p.contentSize == 8)
  }

  function EncodeContent(p: Package): seq<byte>
    requires WellFormed(p)
  {
    match p.payload
    case HeaderInfo(v, o, m) => Int32Bytes(v) + ToLE(|o|, 4) + o + ToLE(|m|, 4) + m
    case TimeValue(t) => ToLE(t, 8)
    case IntValue(v) => Int32Bytes(v)
    case RealValue(r) => r.bits
    case Pose(x, y, z, h, r, pp) => x.bits + y.bits + z.bits + h.bits + r.bits + pp.bits
    case Box(x, y, z, w, l, h) => x.bits + y.bits + z.bits + w.bits + l.bits + h.bits
    case Text(c) => c
    case NoContent => []
    case Malformed(raw) => raw
  }

  function EncodePackage(p: Package): seq<byte>
    requires WellFormed(p)
  {
    ToLE(Code(p.kind), 4) + ToLE(p.contentSize, 4) + EncodeContent(p)
  }

  /** The bytes of a recording holding the packages `ps`, in order. */
  function Encode(ps: seq<Package>): seq<byte>
    requires forall i :: 0 <= i < |ps| ==> WellFormed(ps[i])
  {
    if ps == [] then [] else EncodePackage(ps[0]) + Encode(ps[1..])
  }

  lemma LEOfToLEPrefix(x: nat, n: nat, rest: seq<byte>)
    requires x < Pow256(n)
    ensures (ToLE(x, n) + rest)[..n] == ToLE(x, n)
    ensures LE((ToLE(x, n) + rest)[..n]) == x
  {
    assert (ToLE(x, n) + rest)[..n] == ToLE(x, n);
    LEOfToLE(x, n);
  }

  lemma HeaderRoundTrip(p: Package, rest: seq<byte>)
    requires WellFormed(p) && p.kind == Header
    ensures DecodeContent(p.kind, p.contentSize, EncodeContent(p) + rest, 8) == Got(p, 8 + |EncodeContent(p)|)
  {
    var c := EncodeContent(p) + rest;
    Pow256Four();
    var HeaderInfo(v, o, m) := p.payload;
    var i := Int32Bytes(v);
    var l1 := ToLE(|o|, 4);
    var l2 := ToLE(|m|, 4);
    assert c == i + l1 + o + l2 + m + rest;
    assert c[..4] == i;
    Int32RoundTrip(v);
    assert c[4..8] == l1;
    LEOfToLE(|o|, 4);
    assert c[8 .. 8 + |o|] == o;
    assert c[8 + |o| .. 12 + |o|] == l2;
    LEOfToLE(|m|, 4);
    assert c[12 + |o| .. 12 + |o| + |m|] == m;
  }

  /** The six doubles of a pose or a box, in their order on the wire. */
  lemma SixFields(bs: seq<byte>, a: Real64, b: Real64, c: Real64, d: Real64, e: Real64, f: Real64)
    requires |a.bits| == 8 && |b.bits| == 8 && |c.bits| == 8 && |d.bits| == 8 && |e.bits| == 8 && |f.bits| == 8
    requires bs == a.bits + b.bits + c.bits + d.bits + e.bits + f.bits
    ensures |bs| == 48
    ensures bs[0..8] == a.bits && bs[8..16] == b.bits && bs[16..24] == c.bits
    ensures bs[24..32] == d.bits && bs[32..40] == e.bits && bs[40..48] == f.bits
  {
    assert bs == (a.bits + b.bits + c.bits + d.bits + e.bits) + f.bits;
  }

  lemma SixRoundTrip(p: Package, rest: seq<byte>)
    requires WellFormed(p) && (p.kind == Positions || p.kind == BoundingBox)
    ensures DecodeContent(p.kind, p.contentSize, EncodeContent(p) + rest, 8) == Got(p, 8 + |EncodeContent(p)|)
  {
    var c := EncodeContent(p) + rest;
    var bs := EncodeContent(p);
    if p.kind == Positions {
      var Pose(x, y, z, h, r, pp) := p.payload;
      SixFields(bs, x, y, z, h, r, pp);
    } else {
      var Box(x, y, z, w, l, h) := p.payload;
      SixFields(bs, x, y, z, w, l, h);
    }
    assert c[..48] == bs;
  }

  lemma ScalarRoundTrip(p: Package, rest: seq<byte>)
    requires WellFormed(p) && p.kind != Header && !IsMarker(p.kind) && p.kind != Positions && p.kind != BoundingBox
    ensures DecodeContent(p.kind, p.contentSize, EncodeContent(p) + rest, 8) == Got(p, 8 + |EncodeContent(p)|)
  {
    var c := EncodeContent(p) + rest;
    var bs := EncodeContent(p);
    Pow256Four();
    if p.kind == TimeSeries {
      LEOfToLE(p.payload.ticks, 8);
    } else if IsIntKind(p.kind) {
      Int32RoundTrip(p.payload.value);
    }
    assert |bs| == p.contentSize;
    assert c[..p.contentSize] == bs;
  }

  /** The content the recorder writes for a package reads back as that package. */
  lemma ContentRoundTrip(p: Package, rest: seq<byte>)
    requires WellFormed(p)
    ensures DecodeContent(p.kind, p.contentSize, EncodeContent(p) + rest, 8) == Got(p, 8 + |EncodeContent(p)|)
  {
    if p.kind == Header {
      HeaderRoundTrip(p, rest);
    } else if IsMarker(p.kind) {
    } else if p.kind == Positions || p.kind == BoundingBox {
      SixRoundTrip(p, rest);
    } else {
      ScalarRoundTrip(p, rest);
    }
  }

  /** The common header of an encoded package reads back as its id and content size. */
  lemma CommonHeader(code: nat, size: nat, content: seq<byte>, b: seq<byte>)
    requires code < TwoTo32 && size < TwoTo32
    requires b == ToLE(code, 4) + ToLE(size, 4) + content
    ensures |b| >= 8 && LE(b[..4]) == code && LE(b[4..8]) == size && b[8..] == content
  {
    Pow256Four();
    var l1 := ToLE(code, 4);
    var l2 := ToLE(size, 4);
    assert b == l1 + (l2 + content);
    assert b[..4] == l1;
    LEOfToLE(code, 4);
    assert b[4..8] == l2;
    LEOfToLE(size, 4);
  }

  lemma PackageRoundTrip(p: Package, rest: seq<byte>)
    requires WellFormed(p)
    ensures DecodeOne(EncodePackage(p) + rest) == Got(p, |EncodePackage(p)|)
    ensures (EncodePackage(p) + rest)[|EncodePackage(p)|..] == rest
  {
    var b := EncodePackage(p) + rest;
    var c := EncodeContent(p) + rest;
    Associative(ToLE(Code(p.kind), 4) + ToLE(p.contentSize, 4), EncodeContent(p), rest);
    CommonHeader(Code(p.kind), p.contentSize, c, b);
    KindOfCodeInverse(p.kind);
    ContentRoundTrip(p, rest);
    assert DecodeOne(b) == DecodeContent(p.kind, p.contentSize, c, 8);
    assert |EncodePackage(p)| == 8 + |EncodeContent(p)|;
  }

  lemma DecodeCons(p: Package, rest: seq<byte>)
    requires WellFormed(p)
    ensures Decode(EncodePackage(p) + rest) == [p] + Decode(rest)
  {
    var b := EncodePackage(p) + rest;
    PackageRoundTrip(p, rest);
    DecodeUnfold(b, DecodeOne(b));
  }

  /** Decoding what the recorder writes gives back the same packages, in order. */
  lemma {:induction false} DecodeEncode(ps: seq<Package>)
    requires forall i :: 0 <= i < |ps| ==> WellFormed(ps[i])
    ensures Decode(Encode(ps)) == ps
  {
    if ps != [] {
      DecodeEncode(ps[1..]);
      DecodeCons(ps[0], Encode(ps[1..]));
      assert [ps[0]] + ps[1..] == ps;
    }
  }
}
