// Sequence parameter sets (apps/capture/src/h264.rs): Annex B framing, emulation
// prevention, Exp-Golomb codes and the cropped size, against the encoder that
// ITU-T H.264 sections 7.3.1, 7.3.2.1.1, 9.1 and Annex B prescribe.
//
// The source's sizes are 32-bit: arithmetic that may leave that range wraps here
// as it does in a release build.
module H264 {
  import opened Basics

  type Bit = b: int | 0 <= b < 2

  // ----- Bits -----

  /** `v >> n` */
  function Shr(v: nat, n: nat): nat {
    if n == 0 then v else Shr(v / 2, n - 1)
  }

  /** Bit `k` of `data`, most significant first. */
  function BitAt(data: seq<Byte>, k: nat): Bit
    requires k < 8 * |data|
  {
    Shr(data[k / 8], 7 - k % 8) % 2
  }

  function BitsOf(data: seq<Byte>): (s: seq<Bit>)
    ensures |s| == 8 * |data|
  {
    seq(8 * |data|, k requires 0 <= k < 8 * |data| => BitAt(data, k))
  }

  /** `code` is what `s` holds at `p`. */
  predicate At(s: seq<Bit>, p: nat, code: seq<Bit>) {
    p + |code| <= |s| && s[p..p + |code|] == code
  }

  lemma AtConcat(s: seq<Bit>, p: nat, a: seq<Bit>, b: seq<Bit>)
    ensures At(s, p, a + b) <==> At(s, p, a) && At(s, p + |a|, b)
  {
    if p + |a| + |b| <= |s| {
      var both := s[p..p + |a| + |b|];
      assert both == s[p..p + |a|] + s[p + |a|..p + |a| + |b|];
      if both == a + b {
        assert s[p..p + |a|] == both[..|a|] == a;
        assert s[p + |a|..p + |a| + |b|] == both[|a|..] == b;
      }
    }
  }

  /** A value read, unless the data ran out or the code is invalid, and the position after it. */
  datatype Read<T> = Read(value: Option<T>, next: nat)

  function ReadBit(s: seq<Bit>, p: nat): Read<nat> {
    if p < |s| then Read(Some(s[p] as nat), p + 1) else Read(None, p)
  }

  function ReadBits(s: seq<Bit>, p: nat, count: nat): (r: Read<nat>)
    ensures r.value.Some? ==> r.value.value < Pow2(count) && r.next == p + count <= |s|
  {
    if count == 0 && p <= |s| then Read(Some(0), p)
    else if count == 0 then Read(None, p)
    else
      var before := ReadBits(s, p, count - 1);
      var bit := ReadBit(s, before.next);
      if before.value.None? || bit.value.None? then Read(None, before.next)
      else Read(Some(2 * before.value.value + bit.value.value), bit.next)
  }

  const MAX_ZEROS := 31

  /** Zero bits up to and including the first one bit: how many there are, if at most 31. */
  function CountZeros(s: seq<Bit>, p: nat, zeros: nat): (r: Read<nat>)
    requires zeros <= MAX_ZEROS
    ensures r.value.Some? ==> zeros <= r.value.value <= MAX_ZEROS && r.next == p + (r.value.value - zeros) + 1 <= |s|
    decreases MAX_ZEROS - zeros
  {
    var bit := ReadBit(s, p);
    if bit.value.None? then Read(None, p)
    else if bit.value.value == 1 then Read(Some(zeros), p + 1)
    else if zeros + 1 > MAX_ZEROS then Read(None, p + 1)
    else CountZeros(s, p + 1, zeros + 1)
  }

  function ReadUe(s: seq<Bit>, p: nat): Read<nat> {
    var zeros := CountZeros(s, p, 0);
    if zeros.value.None? then zeros
    else
      var suffix := ReadBits(s, zeros.next, zeros.value.value);
      if suffix.value.None? then suffix
      else Read(Some(Pow2(zeros.value.value) - 1 + suffix.value.value), suffix.next)
  }

  function ReadSe(s: seq<Bit>, p: nat): Read<int> {
    var code := ReadUe(s, p);
    if code.value.None? then Read(None, code.next)
    else
      var k := code.value.value;
      Read(Some(if k % 2 == 1 then (k + 1) / 2 else -(k / 2)), code.next)
  }

  // ----- Codes -----

  function Repeat<T>(x: T, n: nat): (s: seq<T>)
    ensures |s| == n && forall i :: 0 <= i < n ==> s[i] == x
  {
    seq(n, _ => x)
  }

  function Zeros(n: nat): seq<Bit> {
    Repeat(0, n)
  }

  function Binary(x: nat, n: nat): (s: seq<Bit>)
    ensures |s| == n
  {
    if n == 0 then [] else Binary(x / 2, n - 1) + [x % 2]
  }

  function Log2(n: nat): (r: nat)
    requires n >= 1
    ensures Pow2(r) <= n < 2 * Pow2(r)
  {
    if n == 1 then 0 else 1 + Log2(n / 2)
  }

  /** ue(v), section 9.1. */
  function UeCode(v: nat): seq<Bit> {
    var z := Log2(v + 1);
    Zeros(z) + [1] + Binary(v + 1 - Pow2(z), z)
  }

  /** se(v), section 9.1.1. */
  function SeCode(v: int): seq<Bit> {
    UeCode(if v > 0 then 2 * v - 1 else -2 * v)
  }

  lemma {:induction false} Pow2Grows(a: nat, b: nat)
    requires a < b
    ensures 2 * Pow2(a) <= Pow2(b)
  {
    if a + 1 < b {
      Pow2Grows(a, b - 1);
    }
  }

  lemma Log2Unique(n: nat, z: nat)
    requires Pow2(z) <= n < 2 * Pow2(z)
    ensures Log2(n) == z
  {
    if Log2(n) < z {
      Pow2Grows(Log2(n), z);
    } else if z < Log2(n) {
      Pow2Grows(z, Log2(n));
    }
  }

  const U32 := 0x1_0000_0000

  lemma Pow2Of32()
    ensures Pow2(32) == U32
  {
    assert Pow2(8) == 256;
    assert Pow2(16) == 65536;
    assert Pow2(24) == 0x100_0000;
  }

  lemma {:induction false} BitsInvert(s: seq<Bit>, p: nat, x: nat, n: nat)
    requires x < Pow2(n)
    ensures ReadBits(s, p, n) == Read(Some(x), p + n) <==> At(s, p, Binary(x, n))
  {
    if n > 0 {
      BitsInvert(s, p, x / 2, n - 1);
      AtConcat(s, p, Binary(x / 2, n - 1), [x % 2]);
    }
  }

  lemma {:induction false} ZerosInvert(s: seq<Bit>, p: nat, zeros: nat, n: nat)
    requires zeros <= n <= MAX_ZEROS
    ensures CountZeros(s, p, zeros) == Read(Some(n), p + n - zeros + 1) <==> At(s, p, Zeros(n - zeros) + [1])
    decreases n - zeros
  {
    if zeros < n {
      ZerosInvert(s, p + 1, zeros + 1, n);
      assert Zeros(n - zeros) + [1] == [0] + (Zeros(n - zeros - 1) + [1]);
      AtConcat(s, p, [0], Zeros(n - zeros - 1) + [1]);
    } else {
      assert Zeros(0) + [1] == [1];
    }
  }

  lemma WidthOf(n: nat)
    requires n >= 1
    ensures Log2(n) <= MAX_ZEROS <==> n < U32
  {
    hide Log2;
    Pow2Of32();
    var z := Log2(n);
    if z < 32 {
      if z < 31 {
        Pow2Grows(z, 31);
      }
      assert 2 * Pow2(31) == Pow2(32);
    } else if z > 32 {
      Pow2Grows(32, z);
    }
  }

  lemma UeReads(s: seq<Bit>, p: nat, v: nat)
    requires v < U32 - 1 && At(s, p, UeCode(v))
    ensures ReadUe(s, p) == Read(Some(v), p + |UeCode(v)|)
  {
    hide At, Log2, CountZeros, ReadBits;
    var z := Log2(v + 1);
    WidthOf(v + 1);
    AtConcat(s, p, Zeros(z) + [1], Binary(v + 1 - Pow2(z), z));
    ZerosInvert(s, p, 0, z);
    BitsInvert(s, p + z + 1, v + 1 - Pow2(z), z);
  }

  lemma UeReadsOnly(s: seq<Bit>, p: nat, v: nat)
    requires ReadUe(s, p).value == Some(v)
    ensures v < U32 - 1 && At(s, p, UeCode(v)) && ReadUe(s, p).next == p + |UeCode(v)|
  {
    hide At, Log2, CountZeros, ReadBits;
    var z := CountZeros(s, p, 0).value.value;
    Log2Unique(v + 1, z);
    WidthOf(v + 1);
    AtConcat(s, p, Zeros(z) + [1], Binary(v + 1 - Pow2(z), z));
    ZerosInvert(s, p, 0, z);
    BitsInvert(s, p + z + 1, v + 1 - Pow2(z), z);
  }

  /** The parser reads `v` exactly where its code stands, for every value of 32 bits but the last. */
  lemma UeInverts(s: seq<Bit>, p: nat, v: nat)
    ensures ReadUe(s, p) == Read(Some(v), p + |UeCode(v)|) <==> v < U32 - 1 && At(s, p, UeCode(v))
  {
    hide At, Log2, UeCode, ReadUe;
    if ReadUe(s, p).value == Some(v) {
      UeReadsOnly(s, p, v);
    }
    if v < U32 - 1 && At(s, p, UeCode(v)) {
      UeReads(s, p, v);
    }
  }

  lemma SeInverts(s: seq<Bit>, p: nat, v: int)
    ensures ReadSe(s, p) == Read(Some(v), p + |SeCode(v)|) <==> -U32 / 2 < v < U32 / 2 && At(s, p, SeCode(v))
  {
    hide At, UeCode, ReadUe;
    var k := if v > 0 then 2 * v - 1 else -2 * v;
    UeInverts(s, p, k);
  }

  // ----- The parameter set -----

  /** The three values of pic_order_cnt_type. */
  datatype Order =
    | Lsb(log2Max: nat)
    | Cycle(deltaZero: Bit, nonRef: int, topBottom: int, offsets: seq<int>)
    | OutputOrder

  datatype Crop = Crop(left: nat, right: nat, top: nat, bottom: nat)

  /** The syntax elements up to the cropping window; `width` and `height` are the coded minus-one values. */
  datatype Fields = Fields(id: nat, log2FrameNum: nat, order: Order, refFrames: nat, gaps: Bit,
                           width: nat, height: nat, frameOnly: Bit, adaptive: Bit, direct: Bit,
                           crop: Option<Crop>)

  datatype Size = Size(width: nat, height: nat)

  function SeCodes(values: seq<int>): seq<Bit> {
    if values == [] then [] else SeCodes(values[..|values| - 1]) + SeCode(values[|values| - 1])
  }

  function OrderCode(o: Order): seq<Bit> {
    match o
    case Lsb(log2Max) => UeCode(0) + UeCode(log2Max)
    case Cycle(deltaZero, nonRef, topBottom, offsets) =>
      UeCode(1) + ([deltaZero] + (SeCode(nonRef) + (SeCode(topBottom) + (UeCode(|offsets|) + SeCodes(offsets)))))
    case OutputOrder => UeCode(2)
  }

  function CropCode(crop: Option<Crop>): seq<Bit> {
    match crop
    case None => [0]
    case Some(c) => [1] + (UeCode(c.left) + (UeCode(c.right) + (UeCode(c.top) + UeCode(c.bottom))))
  }

  function HeaderCode(f: Fields): seq<Bit> {
    UeCode(f.id) + (UeCode(f.log2FrameNum) + (OrderCode(f.order) + (UeCode(f.refFrames) + [f.gaps])))
  }

  function ScanCode(f: Fields): seq<Bit> {
    if f.frameOnly == 1 then [1, f.direct] else [0, f.adaptive, f.direct]
  }

  function PictureCode(f: Fields): seq<Bit> {
    UeCode(f.width) + (UeCode(f.height) + (ScanCode(f) + CropCode(f.crop)))
  }

  /** Section 7.3.2.1.1, from seq_parameter_set_id to the cropping window. */
  function FieldsCode(f: Fields): seq<Bit> {
    HeaderCode(f) + PictureCode(f)
  }

  predicate Unsigned(v: nat) {
    v < U32 - 1
  }

  predicate Signed(v: int) {
    -U32 / 2 < v < U32 / 2
  }

  const MAX_CYCLE := 255

  /** The values ue(v) and se(v) can carry, and at most 255 reference frames in a cycle. */
  predicate Codable(f: Fields) {
    && Unsigned(f.id) && Unsigned(f.log2FrameNum) && Unsigned(f.refFrames)
    && Unsigned(f.width) && Unsigned(f.height)
    && (f.crop.Some? ==>
          var c := f.crop.value;
          Unsigned(c.left) && Unsigned(c.right) && Unsigned(c.top) && Unsigned(c.bottom))
    && match f.order
       case Lsb(log2Max) => Unsigned(log2Max)
       case Cycle(_, nonRef, topBottom, offsets) =>
         && Signed(nonRef) && Signed(topBottom) && |offsets| <= MAX_CYCLE
         && forall i :: 0 <= i < |offsets| ==> Signed(offsets[i])
       case OutputOrder => true
  }

  // ----- Reading it -----

  function AfterBit(s: seq<Bit>, p: Option<nat>): Option<nat> {
    if p.None? || ReadBit(s, p.value).value.None? then None else Some(ReadBit(s, p.value).next)
  }

  function AfterUe(s: seq<Bit>, p: Option<nat>): Option<nat> {
    if p.None? || ReadUe(s, p.value).value.None? then None else Some(ReadUe(s, p.value).next)
  }

  function AfterSe(s: seq<Bit>, p: Option<nat>): Option<nat> {
    if p.None? || ReadSe(s, p.value).value.None? then None else Some(ReadSe(s, p.value).next)
  }

  function AfterSes(s: seq<Bit>, p: Option<nat>, count: nat): Option<nat> {
    if count == 0 then p else AfterSe(s, AfterSes(s, p, count - 1))
  }

  /** The offsets of a picture order cycle; a longer list is read only this far. */
  function AfterCycle(s: seq<Bit>, p: Option<nat>): Option<nat> {
    if p.None? then None
    else
      var count := ReadUe(s, p.value);
      if count.value.None? then None
      else AfterSes(s, Some(count.next), if count.value.value < MAX_CYCLE then count.value.value else MAX_CYCLE)
  }

  function AfterOrder(s: seq<Bit>, p: Option<nat>): Option<nat> {
    if p.None? then None
    else
      var kind := ReadUe(s, p.value);
      if kind.value.None? then None
      else if kind.value.value == 0 then AfterUe(s, Some(kind.next))
      else if kind.value.value == 1 then
        AfterCycle(s, AfterSe(s, AfterSe(s, AfterBit(s, Some(kind.next)))))
      else Some(kind.next)
  }

  function AfterHeader(s: seq<Bit>, p: nat): Option<nat> {
    AfterBit(s, AfterUe(s, AfterOrder(s, AfterUe(s, AfterUe(s, Some(p))))))
  }

  function ReadCrop(s: seq<Bit>, p: nat): Option<Crop> {
    var flag := ReadBit(s, p);
    if flag.value.None? then None
    else if flag.value.value == 0 then Some(Crop(0, 0, 0, 0))
    else
      var left := ReadUe(s, flag.next);
      if left.value.None? then None else
      var right := ReadUe(s, left.next);
      if right.value.None? then None else
      var top := ReadUe(s, right.next);
      if top.value.None? then None else
      var bottom := ReadUe(s, top.next);
      if bottom.value.None? then None
      else Some(Crop(left.value.value, right.value.value, top.value.value, bottom.value.value))
  }

  function Wrap(x: nat): nat {
    x % U32
  }

  function CheckedSub(a: nat, b: nat): Option<nat> {
    if b <= a then Some(a - b) else None
  }

  /** The cropped size of 4:2:0 pictures, in wrapping 32-bit arithmetic. */
  function Cropped(widthMbs: nat, mapUnits: nat, frameOnly: Bit, c: Crop): Option<Size> {
    var fields := 2 - frameOnly;
    var width := CheckedSub(Wrap(16 * widthMbs), Wrap(2 * Wrap(c.left + c.right)));
    var height := CheckedSub(Wrap(16 * Wrap(mapUnits * fields)), Wrap(2 * fields * Wrap(c.top + c.bottom)));
    if width.None? || height.None? then None else Some(Size(width.value, height.value))
  }

  function ReadPicture(s: seq<Bit>, p: nat): Option<Size> {
    var width := ReadUe(s, p);
    if width.value.None? then None else
    var height := ReadUe(s, width.next);
    if height.value.None? then None else
    var frameOnly := ReadBit(s, height.next);
    if frameOnly.value.None? then None else
    var flags := if frameOnly.value.value == 0 then AfterBit(s, Some(frameOnly.next)) else Some(frameOnly.next);
    var scanned := AfterBit(s, flags);
    if scanned.None? then None else
    var crop := ReadCrop(s, scanned.value);
    if crop.None? then None
    else Cropped(width.value.value + 1, height.value.value + 1, frameOnly.value.value, crop.value)
  }

  function ReadSize(s: seq<Bit>): Option<Size> {
    var header := AfterHeader(s, 0);
    if header.None? then None else ReadPicture(s, header.value)
  }

  // ----- What was written is read back -----

  lemma {:induction false} SeCodesRead(s: seq<Bit>, p: nat, values: seq<int>)
    requires At(s, p, SeCodes(values)) && forall i :: 0 <= i < |values| ==> Signed(values[i])
    ensures AfterSes(s, Some(p), |values|) == Some(p + |SeCodes(values)|)
  {
    hide At, SeCode, ReadSe;
    if values != [] {
      var n := |values| - 1;
      AtConcat(s, p, SeCodes(values[..n]), SeCode(values[n]));
      SeCodesRead(s, p, values[..n]);
      SeInverts(s, p + |SeCodes(values[..n])|, values[n]);
    }
  }

  lemma CycleRead(s: seq<Bit>, p: nat, values: seq<int>)
    requires At(s, p, UeCode(|values|) + SeCodes(values))
    requires |values| <= MAX_CYCLE && forall i :: 0 <= i < |values| ==> Signed(values[i])
    ensures AfterCycle(s, Some(p)) == Some(p + |UeCode(|values|) + SeCodes(values)|)
  {
    hide At, UeCode, SeCodes, ReadUe, AfterSes;
    AtConcat(s, p, UeCode(|values|), SeCodes(values));
    UeInverts(s, p, |values|);
    SeCodesRead(s, p + |UeCode(|values|)|, values);
  }

  lemma BitRead(s: seq<Bit>, p: nat, b: Bit, rest: seq<Bit>)
    requires At(s, p, [b] + rest)
    ensures ReadBit(s, p) == Read(Some(b), p + 1) && At(s, p + 1, rest)
  {
    AtConcat(s, p, [b], rest);
  }

  lemma UeRead(s: seq<Bit>, p: nat, v: nat, rest: seq<Bit>)
    requires At(s, p, UeCode(v) + rest) && Unsigned(v)
    ensures ReadUe(s, p) == Read(Some(v), p + |UeCode(v)|) && At(s, p + |UeCode(v)|, rest)
  {
    AtConcat(s, p, UeCode(v), rest);
    UeInverts(s, p, v);
  }

  lemma SeRead(s: seq<Bit>, p: nat, v: int, rest: seq<Bit>)
    requires At(s, p, SeCode(v) + rest) && Signed(v)
    ensures ReadSe(s, p) == Read(Some(v), p + |SeCode(v)|) && At(s, p + |SeCode(v)|, rest)
  {
    AtConcat(s, p, SeCode(v), rest);
    SeInverts(s, p, v);
  }

  lemma OrderRead(s: seq<Bit>, p: nat, f: Fields)
    requires Codable(f) && At(s, p, OrderCode(f.order))
    ensures AfterOrder(s, Some(p)) == Some(p + |OrderCode(f.order)|)
  {
    hide At, UeCode, SeCode, SeCodes, ReadUe, ReadSe, ReadBit, AfterCycle;
    match f.order
    case Lsb(log2Max) =>
      UeRead(s, p, 0, UeCode(log2Max));
      UeInverts(s, p + |UeCode(0)|, log2Max);
    case Cycle(deltaZero, nonRef, topBottom, offsets) =>
      var cycle := UeCode(|offsets|) + SeCodes(offsets);
      UeRead(s, p, 1, [deltaZero] + (SeCode(nonRef) + (SeCode(topBottom) + cycle)));
      var q := p + |UeCode(1)|;
      BitRead(s, q, deltaZero, SeCode(nonRef) + (SeCode(topBottom) + cycle));
      SeRead(s, q + 1, nonRef, SeCode(topBottom) + cycle);
      SeRead(s, q + 1 + |SeCode(nonRef)|, topBottom, cycle);
      CycleRead(s, q + 1 + |SeCode(nonRef)| + |SeCode(topBottom)|, offsets);
    case OutputOrder =>
      UeInverts(s, p, 2);
  }

  lemma HeaderRead(s: seq<Bit>, p: nat, f: Fields)
    requires Codable(f) && At(s, p, HeaderCode(f))
    ensures AfterHeader(s, p) == Some(p + |HeaderCode(f)|)
  {
    hide At, UeCode, ReadUe, ReadBit, OrderCode, AfterOrder;
    var tail := UeCode(f.refFrames) + [f.gaps];
    UeRead(s, p, f.id, UeCode(f.log2FrameNum) + (OrderCode(f.order) + tail));
    var q := p + |UeCode(f.id)|;
    UeRead(s, q, f.log2FrameNum, OrderCode(f.order) + tail);
    var r := q + |UeCode(f.log2FrameNum)|;
    AtConcat(s, r, OrderCode(f.order), tail);
    OrderRead(s, r, f);
    var t := r + |OrderCode(f.order)|;
    UeRead(s, t, f.refFrames, [f.gaps]);
    assert [f.gaps] == [f.gaps] + [];
    BitRead(s, t + |UeCode(f.refFrames)|, f.gaps, []);
  }

  const NO_CROP := Crop(0, 0, 0, 0)

  function WindowOf(f: Fields): Crop {
    if f.crop.None? then NO_CROP else f.crop.value
  }

  lemma CropRead(s: seq<Bit>, p: nat, f: Fields)
    requires Codable(f) && At(s, p, CropCode(f.crop))
    ensures ReadCrop(s, p) == Some(WindowOf(f))
  {
    hide At, UeCode, ReadUe, ReadBit;
    match f.crop
    case None =>
      assert [0] == [0] + [];
      BitRead(s, p, 0, []);
    case Some(c) =>
      BitRead(s, p, 1, UeCode(c.left) + (UeCode(c.right) + (UeCode(c.top) + UeCode(c.bottom))));
      UeRead(s, p + 1, c.left, UeCode(c.right) + (UeCode(c.top) + UeCode(c.bottom)));
      var q := p + 1 + |UeCode(c.left)|;
      UeRead(s, q, c.right, UeCode(c.top) + UeCode(c.bottom));
      UeRead(s, q + |UeCode(c.right)|, c.top, UeCode(c.bottom));
      UeInverts(s, q + |UeCode(c.right)| + |UeCode(c.top)|, c.bottom);
  }

  lemma ScanRead(s: seq<Bit>, p: nat, f: Fields)
    requires At(s, p, ScanCode(f))
    ensures ReadBit(s, p) == Read(Some(f.frameOnly), p + 1)
    ensures AfterBit(s, if f.frameOnly == 0 then AfterBit(s, Some(p + 1)) else Some(p + 1)) == Some(p + |ScanCode(f)|)
  {
    assert s[p] == s[p..p + |ScanCode(f)|][0];
  }

  lemma PictureRead(s: seq<Bit>, p: nat, f: Fields)
    requires Codable(f) && At(s, p, PictureCode(f))
    ensures ReadPicture(s, p) == Cropped(f.width + 1, f.height + 1, f.frameOnly, WindowOf(f))
  {
    hide At, UeCode, ReadUe, ReadBit, AfterBit, CropCode, ReadCrop, ScanCode, Cropped;
    var tail := ScanCode(f) + CropCode(f.crop);
    UeRead(s, p, f.width, UeCode(f.height) + tail);
    var q := p + |UeCode(f.width)|;
    UeRead(s, q, f.height, tail);
    var r := q + |UeCode(f.height)|;
    AtConcat(s, r, ScanCode(f), CropCode(f.crop));
    ScanRead(s, r, f);
    CropRead(s, r + |ScanCode(f)|, f);
  }

  /** Whatever follows the coded fields (the VUI, say), the size is that of the fields. */
  lemma FieldsRead(f: Fields, rest: seq<Bit>)
    requires Codable(f)
    ensures ReadSize(FieldsCode(f) + rest) == Cropped(f.width + 1, f.height + 1, f.frameOnly, WindowOf(f))
  {
    hide UeCode, HeaderCode, PictureCode, AfterHeader, ReadPicture, Cropped;
    var s := FieldsCode(f) + rest;
    assert At(s, 0, FieldsCode(f));
    AtConcat(s, 0, HeaderCode(f), PictureCode(f));
    HeaderRead(s, 0, f);
    PictureRead(s, |HeaderCode(f)|, f);
  }

  // ----- The size in unbounded arithmetic (section 7.4.2.1.1, 4:2:0) -----

  function CodedWidth(f: Fields): nat {
    16 * (f.width + 1)
  }

  function CodedHeight(f: Fields): nat {
    (2 - f.frameOnly) * 16 * (f.height + 1)
  }

  function CutWidth(f: Fields): nat {
    2 * (WindowOf(f).left + WindowOf(f).right)
  }

  function CutHeight(f: Fields): nat {
    2 * (2 - f.frameOnly) * (WindowOf(f).top + WindowOf(f).bottom)
  }

  /** 32 bits get `coded - cut` right. */
  predicate Exact(coded: nat, cut: nat) {
    0 <= coded - cut < U32 && cut % U32 <= coded % U32
  }

  lemma WrapTimes(k: nat, x: nat)
    ensures Wrap(k * Wrap(x)) == Wrap(k * x)
  {
    var q, r := x / U32, x % U32;
    assert x == q * U32 + r;
    Regroup(k, q, r);
    ModShift(k * r, k * q);
  }

  lemma Regroup(k: nat, q: nat, r: nat)
    ensures k * (q * U32 + r) == (k * q) * U32 + k * r
  {
  }

  lemma {:induction false} ModShift(x: nat, n: nat)
    ensures (n * U32 + x) % U32 == x % U32
  {
    if n > 0 {
      ModShift(x, n - 1);
      assert n * U32 + x == ((n - 1) * U32 + x) + U32;
    }
  }

  lemma SubExact(coded: nat, cut: nat)
    requires cut <= coded
    ensures CheckedSub(Wrap(coded), Wrap(cut)) == Some(coded - cut) <==> Exact(coded, cut)
  {
    var a, b := coded / U32, cut / U32;
    assert coded == a * U32 + coded % U32 && cut == b * U32 + cut % U32;
    if cut % U32 <= coded % U32 {
      if a > b {
        assert (a - b) * U32 >= U32;
      } else {
        assert a == b;
      }
    }
  }

  /** The size is computed correctly exactly when neither subtraction leaves 32 bits. */
  lemma SizeExact(f: Fields)
    requires CutWidth(f) <= CodedWidth(f) && CutHeight(f) <= CodedHeight(f)
    ensures Cropped(f.width + 1, f.height + 1, f.frameOnly, WindowOf(f))
            == Some(Size(CodedWidth(f) - CutWidth(f), CodedHeight(f) - CutHeight(f)))
            <==> Exact(CodedWidth(f), CutWidth(f)) && Exact(CodedHeight(f), CutHeight(f))
  {
    var c, fields := WindowOf(f), 2 - f.frameOnly;
    WrapTimes(2, c.left + c.right);
    WrapTimes(16, (f.height + 1) * fields);
    WrapTimes(2 * fields, c.top + c.bottom);
    assert 16 * ((f.height + 1) * fields) == CodedHeight(f);
    SubExact(CodedWidth(f), CutWidth(f));
    SubExact(CodedHeight(f), CutHeight(f));
  }

  // ----- Bytes -----

  /** `n` bits as a number, most significant first. */
  function Value(bits: seq<Bit>, p: nat, n: nat): (v: nat)
    requires p + n <= |bits|
    ensures v < Pow2(n)
  {
    if n == 0 then 0 else 2 * Value(bits, p, n - 1) + bits[p + n - 1]
  }

  lemma {:induction false} DigitOf(bits: seq<Bit>, p: nat, n: nat, j: nat)
    requires p + n <= |bits| && j < n
    ensures Shr(Value(bits, p, n), n - 1 - j) % 2 == bits[p + j]
  {
    if j < n - 1 {
      DigitOf(bits, p, n - 1, j);
      assert Value(bits, p, n) / 2 == Value(bits, p, n - 1);
    }
  }

  lemma ByteRange()
    ensures Pow2(8) == 256
  {
  }

  function ByteOf(bits: seq<Bit>, i: nat): Byte
    requires 8 * i + 8 <= |bits|
  {
    ByteRange();
    Value(bits, 8 * i, 8)
  }

  function Pack(bits: seq<Bit>): seq<Byte>
    requires |bits| % 8 == 0
  {
    seq(|bits| / 8, i requires 0 <= i < |bits| / 8 => ByteOf(bits, i))
  }

  lemma PackedBit(bits: seq<Bit>, k: nat)
    requires |bits| % 8 == 0 && k < |bits|
    ensures BitAt(Pack(bits), k) == bits[k]
  {
    hide Value, Pow2;
    DigitOf(bits, 8 * (k / 8), 8, k % 8);
  }

  lemma PackInverts(bits: seq<Bit>)
    requires |bits| % 8 == 0
    ensures BitsOf(Pack(bits)) == bits
  {
    forall k | 0 <= k < |bits| ensures BitsOf(Pack(bits))[k] == bits[k] {
      PackedBit(bits, k);
    }
  }

  function Padding(n: nat): (p: nat)
    ensures p < 8 && (n + p) % 8 == 0
  {
    (8 - n % 8) % 8
  }

  /** Alignment bits up to the next whole byte. */
  function Aligned(bits: seq<Bit>): (r: seq<Bit>)
    ensures |r| % 8 == 0
  {
    bits + Zeros(Padding(|bits|))
  }

  /** The payload: three fixed bytes, the fields, whatever follows them, the stop bit, and alignment. */
  function Payload(profile: Byte, flags: Byte, level: Byte, f: Fields, more: seq<Bit>): seq<Byte> {
    [profile, flags, level] + Pack(Aligned(FieldsCode(f) + more + [1]))
  }

  lemma {:induction false} OneBitCounts(bits: seq<Bit>, p: nat, n: nat, j: nat)
    requires p + n <= |bits| && j < n && bits[p + j] == 1
    ensures Value(bits, p, n) > 0
  {
    if j < n - 1 {
      OneBitCounts(bits, p, n - 1, j);
    }
  }

  lemma StopBitEndsPayload(bits: seq<Bit>)
    requires bits != [] && bits[|bits| - 1] == 1
    ensures var packed := Pack(Aligned(bits)); packed != [] && packed[|packed| - 1] != 0
  {
    hide Value, Padding;
    var all := Aligned(bits);
    var i := |all| / 8 - 1;
    OneBitCounts(all, 8 * i, 8, |bits| - 1 - 8 * i);
  }

  // ----- Emulation prevention (section 7.3.1) -----

  /** `zeros` zero bytes came just before. */
  function Escape(zeros: nat, bytes: seq<Byte>): seq<Byte>
    decreases bytes
  {
    if bytes == [] then []
    else
      var b := bytes[0];
      if zeros >= 2 && b <= 3 then [3, b] + Escape(if b == 0 then 1 else 0, bytes[1..])
      else [b] + Escape(if b == 0 then zeros + 1 else 0, bytes[1..])
  }

  function Unescape(zeros: nat, bytes: seq<Byte>): seq<Byte>
    decreases bytes
  {
    if bytes == [] then []
    else
      var b := bytes[0];
      if zeros >= 2 && b == 3 then Unescape(0, bytes[1..])
      else [b] + Unescape(if b == 0 then zeros + 1 else 0, bytes[1..])
  }

  lemma {:induction false} UnescapeInverts(zeros: nat, bytes: seq<Byte>)
    ensures Unescape(zeros, Escape(zeros, bytes)) == bytes
    decreases bytes
  {
    if bytes != [] {
      var b, rest := bytes[0], bytes[1..];
      if zeros >= 2 && b <= 3 {
        var tail := Escape(if b == 0 then 1 else 0, rest);
        UnescapeInverts(if b == 0 then 1 else 0, rest);
        assert ([3, b] + tail)[1..] == [b] + tail && ([b] + tail)[1..] == tail;
        assert Unescape(zeros, [3, b] + tail) == Unescape(0, [b] + tail);
      } else {
        var tail := Escape(if b == 0 then zeros + 1 else 0, rest);
        UnescapeInverts(if b == 0 then zeros + 1 else 0, rest);
        assert ([b] + tail)[1..] == tail;
      }
    }
  }

  /** Nothing in `e` reads as a start code or its forbidden neighbours, even after `zeros` zero bytes. */
  ghost predicate Clean(zeros: nat, e: seq<Byte>) {
    && (forall i :: 0 <= i < |e| - 2 && e[i] == 0 && e[i + 1] == 0 ==> e[i + 2] >= 3)
    && (zeros >= 1 && |e| >= 2 && e[0] == 0 ==> e[1] >= 3)
    && (zeros >= 2 && |e| >= 1 ==> e[0] >= 3)
  }

  lemma CleanStep(zeros: nat, b: Byte, tail: seq<Byte>)
    requires Clean(if b == 0 then zeros + 1 else 0, tail) && (zeros >= 2 ==> b >= 3)
    ensures Clean(zeros, [b] + tail)
  {
    var e := [b] + tail;
    forall i | 0 <= i < |e| - 2 && e[i] == 0 && e[i + 1] == 0 ensures e[i + 2] >= 3 {
      if i > 0 {
        assert e[i] == tail[i - 1] && e[i + 1] == tail[i] && e[i + 2] == tail[i + 1];
      }
    }
  }

  lemma {:induction false} EscapeIsClean(zeros: nat, bytes: seq<Byte>)
    ensures Clean(zeros, Escape(zeros, bytes))
    decreases bytes
  {
    if bytes != [] {
      var b, rest := bytes[0], bytes[1..];
      if zeros >= 2 && b <= 3 {
        var tail := Escape(if b == 0 then 1 else 0, rest);
        EscapeIsClean(if b == 0 then 1 else 0, rest);
        CleanStep(0, b, tail);
        CleanStep(zeros, 3, [b] + tail);
        assert [3, b] + tail == [3] + ([b] + tail);
      } else {
        EscapeIsClean(if b == 0 then zeros + 1 else 0, rest);
        CleanStep(zeros, b, Escape(if b == 0 then zeros + 1 else 0, rest));
      }
    }
  }

  lemma {:induction false} EscapeKeepsEnd(zeros: nat, bytes: seq<Byte>)
    requires bytes != []
    ensures var e := Escape(zeros, bytes); e != [] && e[|e| - 1] == bytes[|bytes| - 1]
    decreases bytes
  {
    var b, rest := bytes[0], bytes[1..];
    if rest == [] {
      assert Escape(0, rest) == [] && Escape(1, rest) == [] && Escape(zeros + 1, rest) == [];
    } else {
      EscapeKeepsEnd(if b != 0 then 0 else if zeros >= 2 then 1 else zeros + 1, rest);
    }
  }

  // ----- Annex B -----

  /** The positions just after each start code from `i` on. */
  function Starts(stream: seq<Byte>, i: nat): seq<nat>
    decreases |stream| - i
  {
    if i + 3 > |stream| then []
    else if stream[i] == 0 && stream[i + 1] == 0 && stream[i + 2] == 1 then [i + 3] + Starts(stream, i + 3)
    else Starts(stream, i + 1)
  }

  function TrimZeros(bytes: seq<Byte>): seq<Byte> {
    if bytes != [] && bytes[|bytes| - 1] == 0 then TrimZeros(bytes[..|bytes| - 1]) else bytes
  }

  ghost predicate InOrder(starts: seq<nat>, from: nat, end: nat) {
    && (forall k :: 0 <= k < |starts| ==> from + 3 <= starts[k] <= end)
    && (forall k :: 0 <= k < |starts| - 1 ==> starts[k] + 3 <= starts[k + 1])
  }

  lemma InOrderCons(i: nat, tail: seq<nat>, end: nat)
    requires i + 3 <= end && InOrder(tail, i + 3, end)
    ensures InOrder([i + 3] + tail, i, end)
  {
  }

  lemma {:induction false} StartsInOrder(stream: seq<Byte>, i: nat)
    ensures InOrder(Starts(stream, i), i, |stream|)
    decreases |stream| - i
  {
    if i + 3 <= |stream| {
      if stream[i] == 0 && stream[i + 1] == 0 && stream[i + 2] == 1 {
        StartsInOrder(stream, i + 3);
        var tail := Starts(stream, i + 3);
        InOrderCons(i, tail, |stream|);
      } else {
        StartsInOrder(stream, i + 1);
      }
    }
  }

  /** The units that begin at `starts`, each up to the next start code or the end, less trailing zeros. */
  function Units(stream: seq<Byte>, starts: seq<nat>): seq<seq<Byte>>
    requires InOrder(starts, 0, |stream|)
  {
    if starts == [] then []
    else
      var end := if |starts| > 1 then starts[1] - 3 else |stream|;
      [TrimZeros(stream[starts[0]..end])] + Units(stream, starts[1..])
  }

  function Nals(stream: seq<Byte>): seq<seq<Byte>> {
    StartsInOrder(stream, 0);
    Units(stream, Starts(stream, 0))
  }

  /** A NAL unit behind its start code, with `zeros` extra zero bytes before it. */
  datatype Framed = Framed(zeros: nat, nal: seq<Byte>)

  function ZeroBytes(n: nat): seq<Byte> {
    Repeat(0, n)
  }

  const START_CODE: seq<Byte> := [0, 0, 1]

  /** Annex B: the units in order, then `trailing` zero bytes. */
  function AnnexB(units: seq<Framed>, trailing: nat): seq<Byte> {
    if units == [] then ZeroBytes(trailing)
    else ZeroBytes(units[0].zeros) + START_CODE + units[0].nal + AnnexB(units[1..], trailing)
  }

  /** What section 7.4.1 asks of a NAL unit: no start code inside and no zero byte at the end. */
  ghost predicate WellFormed(nal: seq<Byte>) {
    && nal != [] && nal[|nal| - 1] != 0
    && forall i :: 0 <= i < |nal| - 2 && nal[i] == 0 && nal[i + 1] == 0 ==> nal[i + 2] != 1
  }

  function Bare(units: seq<Framed>): (r: seq<seq<Byte>>)
    ensures |r| == |units|
  {
    seq(|units|, i requires 0 <= i < |units| => units[i].nal)
  }

  function Offsets(units: seq<Framed>, i: nat): (r: seq<nat>)
    ensures |r| == |units|
  {
    if units == [] then []
    else
      var start := i + units[0].zeros + 3;
      [start] + Offsets(units[1..], start + |units[0].nal|)
  }

  /** No start code begins in stream[i..j]. */
  lemma {:induction false} NoStartIn(stream: seq<Byte>, i: nat, j: nat)
    requires i <= j <= |stream|
    requires forall k :: i <= k < j && k + 3 <= |stream| ==> !(stream[k] == 0 && stream[k + 1] == 0 && stream[k + 2] == 1)
    ensures Starts(stream, i) == Starts(stream, j)
    decreases j - i
  {
    if i < j {
      NoStartIn(stream, i + 1, j);
      if i + 3 > |stream| {
        assert Starts(stream, j) == [];
      }
    }
  }

  lemma StartHere(stream: seq<Byte>, i: nat)
    requires i + 3 <= |stream| && stream[i] == 0 && stream[i + 1] == 0 && stream[i + 2] == 1
    ensures Starts(stream, i) == [i + 3] + Starts(stream, i + 3)
  {
  }

  lemma NothingInZeros(stream: seq<Byte>, i: nat, n: nat)
    requires i <= |stream| && stream[i..] == ZeroBytes(n)
    ensures Starts(stream, i) == []
  {
    forall k | i <= k < |stream| ensures stream[k] == 0 {
      assert stream[k] == stream[i..][k - i];
    }
    NoStartIn(stream, i, |stream|);
  }

  lemma {:induction false} StartsOf(stream: seq<Byte>, i: nat, units: seq<Framed>, trailing: nat)
    requires i <= |stream| && stream[i..] == AnnexB(units, trailing)
    requires forall k :: 0 <= k < |units| ==> WellFormed(units[k].nal)
    ensures Starts(stream, i) == Offsets(units, i)
    decreases |units|
  {
    hide Starts, WellFormed;
    if units == [] {
      NothingInZeros(stream, i, trailing);
    } else {
      var u, rest := units[0], AnnexB(units[1..], trailing);
      OneStart(stream, i, u, rest);
      StartsOf(stream, i + u.zeros + 3 + |u.nal|, units[1..], trailing);
    }
  }

  lemma OneStart(stream: seq<Byte>, i: nat, u: Framed, rest: seq<Byte>)
    requires i <= |stream| && stream[i..] == ZeroBytes(u.zeros) + START_CODE + u.nal + rest
    requires WellFormed(u.nal)
    ensures var start := i + u.zeros + 3;
            var next := start + |u.nal|;
            next <= |stream| && stream[next..] == rest && Starts(stream, i) == [start] + Starts(stream, next)
  {
    hide Starts, WellFormed;
    var code := i + u.zeros;
    UnitAt(stream, i, u, rest);
    NoStartIn(stream, i, code);
    StartHere(stream, code);
    NoStartIn(stream, code + 3, code + 3 + |u.nal|);
  }

  /** Where the parts of a framed unit lie in the stream. */
  lemma UnitAt(stream: seq<Byte>, i: nat, u: Framed, rest: seq<Byte>)
    requires i <= |stream| && stream[i..] == ZeroBytes(u.zeros) + START_CODE + u.nal + rest
    requires WellFormed(u.nal)
    ensures var code := i + u.zeros;
            var start := code + 3;
            var end := start + |u.nal|;
            && end <= |stream| && stream[start..end] == u.nal && stream[end..] == rest
            && stream[code] == 0 && stream[code + 1] == 0 && stream[code + 2] == 1
            && (forall k :: i <= k < code ==> stream[k] == 0)
            && (forall k :: start <= k < end && k + 3 <= |stream| ==>
                              !(stream[k] == 0 && stream[k + 1] == 0 && stream[k + 2] == 1))
  {
    hide WellFormed;
    var s := stream[i..];
    var z, n := u.zeros, |u.nal|;
    assert |s| == z + 3 + n + |rest|;
    assert forall k :: 0 <= k < z ==> stream[i + k] == s[k] == 0;
    assert s[z] == 0 && s[z + 1] == 0 && s[z + 2] == 1;
    assert s[z + 3..z + 3 + n] == u.nal && s[z + 3 + n..] == rest;
    assert stream[i + z + 3..i + z + 3 + n] == s[z + 3..z + 3 + n];
    assert stream[i + z + 3 + n..] == s[z + 3 + n..];
    NoCodeInside(stream, i + z + 3, u.nal);
  }

  lemma NoCodeInside(stream: seq<Byte>, start: nat, nal: seq<Byte>)
    requires start + |nal| <= |stream| && stream[start..start + |nal|] == nal && WellFormed(nal)
    ensures forall k :: start <= k < start + |nal| && k + 3 <= |stream| ==>
                          !(stream[k] == 0 && stream[k + 1] == 0 && stream[k + 2] == 1)
  {
    forall k | start <= k < start + |nal| && k + 3 <= |stream|
      ensures !(stream[k] == 0 && stream[k + 1] == 0 && stream[k + 2] == 1)
    {
      assert stream[k] == nal[k - start];
      if k + 1 < start + |nal| {
        assert stream[k + 1] == nal[k + 1 - start];
        if k + 2 < start + |nal| {
          assert stream[k + 2] == nal[k + 2 - start];
        }
      }
    }
  }

  lemma {:induction false} TrimsBack(bytes: seq<Byte>, zeros: nat)
    requires bytes != [] && bytes[|bytes| - 1] != 0
    ensures TrimZeros(bytes + ZeroBytes(zeros)) == bytes
  {
    if zeros > 0 {
      TrimsBack(bytes, zeros - 1);
      var all := bytes + ZeroBytes(zeros);
      assert all[..|all| - 1] == bytes + ZeroBytes(zeros - 1);
    } else {
      assert bytes + ZeroBytes(0) == bytes;
    }
  }

  /** The zero bytes between a unit and the next start code, or the end. */
  function ZerosAfter(units: seq<Framed>, trailing: nat): nat
    requires units != []
  {
    if |units| > 1 then units[1].zeros else trailing
  }

  lemma NextZeros(units: seq<Framed>, trailing: nat)
    requires units != []
    ensures ZeroBytes(ZerosAfter(units, trailing)) <= AnnexB(units[1..], trailing)
    ensures |units| == 1 ==> |AnnexB(units[1..], trailing)| == trailing
  {
  }

  lemma TailSlice(s: seq<Byte>, a: nat, n: nat)
    requires a <= |s| && n <= |s[a..]|
    ensures a + n <= |s| && s[a..a + n] == s[a..][..n]
  {
  }

  /** A framed unit, cut after the zero bytes that follow it, trims back to itself. */
  lemma UnitTrims(stream: seq<Byte>, i: nat, u: Framed, rest: seq<Byte>, zeros: nat)
    requires i <= |stream| && stream[i..] == ZeroBytes(u.zeros) + START_CODE + u.nal + rest
    requires WellFormed(u.nal) && ZeroBytes(zeros) <= rest
    ensures var start := i + u.zeros + 3;
            var next := start + |u.nal|;
            && next + zeros <= |stream| && stream[next..] == rest
            && TrimZeros(stream[start..next + zeros]) == u.nal
  {
    hide WellFormed, TrimZeros;
    var start := i + u.zeros + 3;
    var next := start + |u.nal|;
    UnitAt(stream, i, u, rest);
    TailSlice(stream, next, zeros);
    assert rest[..zeros] == ZeroBytes(zeros);
    assert stream[start..next + zeros] == u.nal + ZeroBytes(zeros);
    LastByte(u.nal);
    TrimsBack(u.nal, zeros);
  }

  lemma FirstUnit(stream: seq<Byte>, i: nat, units: seq<Framed>, trailing: nat)
    requires units != [] && i <= |stream| && stream[i..] == AnnexB(units, trailing) && WellFormed(units[0].nal)
    ensures var start := i + units[0].zeros + 3;
            var next := start + |units[0].nal|;
            var end := next + ZerosAfter(units, trailing);
            && end <= |stream| && stream[next..] == AnnexB(units[1..], trailing)
            && TrimZeros(stream[start..end]) == units[0].nal
            && (|units| == 1 ==> end == |stream|)
  {
    hide WellFormed, TrimZeros, ZerosAfter, ZeroBytes;
    NextZeros(units, trailing);
    UnitTrims(stream, i, units[0], AnnexB(units[1..], trailing), ZerosAfter(units, trailing));
    if |units| == 1 {
      LastEnds(units, trailing);
    }
  }

  lemma LastEnds(units: seq<Framed>, trailing: nat)
    requires |units| == 1
    ensures ZerosAfter(units, trailing) == trailing == |AnnexB(units[1..], trailing)|
  {
  }

  lemma {:induction false} UnitsOf(stream: seq<Byte>, i: nat, units: seq<Framed>, trailing: nat)
    requires i <= |stream| && stream[i..] == AnnexB(units, trailing)
    requires forall k :: 0 <= k < |units| ==> WellFormed(units[k].nal)
    requires InOrder(Offsets(units, i), 0, |stream|)
    ensures Units(stream, Offsets(units, i)) == Bare(units)
    decreases |units|
  {
    hide WellFormed, TrimZeros, AnnexB;
    if units != [] {
      var next := i + units[0].zeros + 3 + |units[0].nal|;
      FirstUnit(stream, i, units, trailing);
      assert Offsets(units, i)[1..] == Offsets(units[1..], next);
      UnitsOf(stream, next, units[1..], trailing);
      assert Bare(units) == [units[0].nal] + Bare(units[1..]);
    }
  }

  lemma LastByte(nal: seq<Byte>)
    requires WellFormed(nal)
    ensures nal != [] && nal[|nal| - 1] != 0
  {
  }

  /** Splitting a byte stream gives back the units it was made of, whatever zero bytes lie between them. */
  lemma NalsInvert(units: seq<Framed>, trailing: nat)
    requires forall k :: 0 <= k < |units| ==> WellFormed(units[k].nal)
    ensures Nals(AnnexB(units, trailing)) == Bare(units)
  {
    hide WellFormed, Units, Starts;
    var stream := AnnexB(units, trailing);
    assert stream[0..] == stream;
    StartsInOrder(stream, 0);
    StartsOf(stream, 0, units, trailing);
    UnitsOf(stream, 0, units, trailing);
  }

  // ----- The parser as a whole -----

  /** `size` is absent for profiles with the extended syntax, and for fields that cannot be read. */
  datatype Sps = Sps(profile: Byte, flags: Byte, level: Byte, size: Option<Size>)

  predicate IsSps(nal: seq<Byte>) {
    nal != [] && nal[0] % 32 == 7
  }

  function FirstSps(nals: seq<seq<Byte>>): (r: Option<seq<Byte>>)
    ensures r.Some? ==> IsSps(r.value)
  {
    if nals == [] then None else if IsSps(nals[0]) then Some(nals[0]) else FirstSps(nals[1..])
  }

  predicate Plain(profile: Byte) {
    profile in {66, 77, 88}
  }

  function ParsePayload(payload: seq<Byte>): Option<Sps> {
    if |payload| < 4 then None
    else Some(Sps(payload[0], payload[1], payload[2],
                  if Plain(payload[0]) then ReadSize(BitsOf(payload[3..])) else None))
  }

  function Parse(stream: seq<Byte>): Option<Sps> {
    var nal := FirstSps(Nals(stream));
    if nal.None? then None else ParsePayload(Unescape(0, nal.value[1..]))
  }

  lemma {:induction false} FirstSpsIs(before: seq<seq<Byte>>, nal: seq<Byte>, after: seq<seq<Byte>>)
    requires IsSps(nal) && forall k :: 0 <= k < |before| ==> !IsSps(before[k])
    ensures FirstSps(before + [nal] + after) == Some(nal)
  {
    if before != [] {
      FirstSpsIs(before[1..], nal, after);
      assert (before + [nal] + after)[1..] == before[1..] + [nal] + after;
    } else {
      assert (before + [nal] + after)[0] == nal;
    }
  }

  /** An SPS unit of a byte stream, and the units around it. */
  datatype Around = Around(before: seq<Framed>, zeros: nat, header: Byte, after: seq<Framed>, trailing: nat)

  ghost predicate Fitting(a: Around) {
    && a.header % 32 == 7
    && (forall k :: 0 <= k < |a.before| ==>
                      WellFormed(a.before[k].nal) && (a.before[k].nal == [] || a.before[k].nal[0] % 32 != 7))
    && (forall k :: 0 <= k < |a.after| ==> WellFormed(a.after[k].nal))
  }

  function SpsUnit(header: Byte, payload: seq<Byte>): seq<Byte> {
    [header] + Escape(0, payload)
  }

  function StreamOf(a: Around, payload: seq<Byte>): seq<Byte> {
    AnnexB(a.before + [Framed(a.zeros, SpsUnit(a.header, payload))] + a.after, a.trailing)
  }

  lemma SpsUnitWellFormed(header: Byte, payload: seq<Byte>)
    requires header % 32 == 7 && payload != [] && payload[|payload| - 1] != 0
    ensures WellFormed(SpsUnit(header, payload)) && IsSps(SpsUnit(header, payload))
  {
    EscapeIsClean(0, payload);
    EscapeKeepsEnd(0, payload);
    CleanStep(0, header, Escape(0, payload));
  }

  /** What is not of unit type 7 is passed over. */
  lemma OthersPassed(before: seq<Framed>)
    requires forall k :: 0 <= k < |before| ==> before[k].nal == [] || before[k].nal[0] % 32 != 7
    ensures forall k :: 0 <= k < |Bare(before)| ==> !IsSps(Bare(before)[k])
  {
  }

  lemma {:induction false} NoFirstSps(nals: seq<seq<Byte>>)
    requires forall k :: 0 <= k < |nals| ==> !IsSps(nals[k])
    ensures FirstSps(nals) == None
  {
    if nals != [] {
      NoFirstSps(nals[1..]);
    }
  }

  /** A stream without a unit of type 7 has no SPS. */
  lemma NoSpsParsesToNone(units: seq<Framed>, trailing: nat)
    requires forall k :: 0 <= k < |units| ==>
                           WellFormed(units[k].nal) && (units[k].nal == [] || units[k].nal[0] % 32 != 7)
    ensures Parse(AnnexB(units, trailing)) == None
  {
    hide WellFormed, AnnexB, Nals, IsSps;
    NalsInvert(units, trailing);
    OthersPassed(units);
    NoFirstSps(Bare(units));
  }

  /** The parser works on exactly the payload the first SPS unit was made from. */
  lemma PayloadReached(a: Around, payload: seq<Byte>)
    requires Fitting(a) && payload != [] && payload[|payload| - 1] != 0
    ensures Parse(StreamOf(a, payload)) == ParsePayload(payload)
  {
    hide WellFormed, IsSps, AnnexB, Nals, Escape, Unescape, ParsePayload;
    var nal := SpsUnit(a.header, payload);
    var units := a.before + [Framed(a.zeros, nal)] + a.after;
    SpsUnitWellFormed(a.header, payload);
    NalsInvert(units, a.trailing);
    OthersPassed(a.before);
    FirstSpsIs(Bare(a.before), nal, Bare(a.after));
    assert Bare(units) == Bare(a.before) + [nal] + Bare(a.after);
    assert nal[1..] == Escape(0, payload);
    UnescapeInverts(0, payload);
  }

  lemma PayloadRead(profile: Byte, flags: Byte, level: Byte, f: Fields, more: seq<Bit>)
    requires profile in {66, 77, 88} && Codable(f)
    ensures var payload := Payload(profile, flags, level, f, more);
            && payload != [] && payload[|payload| - 1] != 0
            && ParsePayload(payload)
               == Some(Sps(profile, flags, level, Cropped(f.width + 1, f.height + 1, f.frameOnly, WindowOf(f))))
  {
    hide FieldsCode, ReadSize, Cropped, BitsOf, Pack;
    var bits := FieldsCode(f) + more + [1];
    var pad := Zeros(Padding(|bits|));
    var packed := Pack(Aligned(bits));
    StopBitEndsPayload(bits);
    PackInverts(Aligned(bits));
    assert Aligned(bits) == FieldsCode(f) + (more + [1] + pad);
    FieldsRead(f, more + [1] + pad);
    assert ([profile, flags, level] + packed)[3..] == packed;
  }

  /**
   * Parsing inverts writing: for every Baseline, Main or Extended SPS, anything
   * after its cropping window, any NAL units around it and either start code,
   * the parser returns what was written.  The size is the true one exactly when
   * neither of its two subtractions leaves 32 bits.
   */
  lemma ParseInverts(a: Around, profile: Byte, flags: Byte, level: Byte, f: Fields, more: seq<Bit>)
    requires Fitting(a) && profile in {66, 77, 88} && Codable(f)
    requires CutWidth(f) <= CodedWidth(f) && CutHeight(f) <= CodedHeight(f)
    ensures var parsed := Parse(StreamOf(a, Payload(profile, flags, level, f, more)));
            && parsed.Some?
            && parsed.value.profile == profile && parsed.value.flags == flags && parsed.value.level == level
            && (parsed.value.size == Some(Size(CodedWidth(f) - CutWidth(f), CodedHeight(f) - CutHeight(f)))
                <==> Exact(CodedWidth(f), CutWidth(f)) && Exact(CodedHeight(f), CutHeight(f)))
  {
    hide Fitting, StreamOf, Parse, ParsePayload, Payload, Cropped, Exact;
    PayloadRead(profile, flags, level, f, more);
    PayloadReached(a, Payload(profile, flags, level, f, more));
    SizeExact(f);
  }

  /** Coded sizes of 32 bits are always enough. */
  lemma CodedSizeFits(coded: nat, cut: nat)
    requires cut <= coded < U32
    ensures Exact(coded, cut)
  {
  }

  /** Where the coded size fits 32 bits, what was written is what is parsed. */
  lemma OrdinarySizesParse(a: Around, profile: Byte, flags: Byte, level: Byte, f: Fields, more: seq<Bit>)
    requires Fitting(a) && profile in {66, 77, 88} && Codable(f)
    requires CutWidth(f) <= CodedWidth(f) < U32 && CutHeight(f) <= CodedHeight(f) < U32
    ensures Parse(StreamOf(a, Payload(profile, flags, level, f, more)))
            == Some(Sps(profile, flags, level, Some(Size(CodedWidth(f) - CutWidth(f), CodedHeight(f) - CutHeight(f)))))
  {
    hide Fitting, StreamOf, Parse, Payload, Exact;
    ParseInverts(a, profile, flags, level, f, more);
    CodedSizeFits(CodedWidth(f), CutWidth(f));
    CodedSizeFits(CodedHeight(f), CutHeight(f));
  }

  /** For every other profile the size is left open, whatever the payload. */
  lemma OtherProfilesParse(a: Around, payload: seq<Byte>)
    requires Fitting(a) && |payload| >= 4 && payload[|payload| - 1] != 0 && payload[0] !in {66, 77, 88}
    ensures Parse(StreamOf(a, payload)) == Some(Sps(payload[0], payload[1], payload[2], None))
  {
    PayloadReached(a, payload);
  }

  /** A payload of less than four bytes is no SPS, and nothing after it is looked at. */
  lemma ShortSpsParsesToNone(a: Around, payload: seq<Byte>)
    requires Fitting(a) && 0 < |payload| < 4 && payload[|payload| - 1] != 0
    ensures Parse(StreamOf(a, payload)) == None
  {
    PayloadReached(a, payload);
  }

  // ----- The parser as it runs -----

  /** Once a read has failed, reading more bits fails at the same place. */
  lemma {:induction false} FailureStays(s: seq<Bit>, p: nat, n: nat, count: nat)
    requires n <= count && ReadBits(s, p, n).value.None? && n > 0
    ensures ReadBits(s, p, count) == ReadBits(s, p, n)
  {
    if n < count {
      FailureStays(s, p, n, count - 1);
    }
  }

  lemma BitIsOneOrZero(s: seq<Bit>, p: nat)
    ensures ReadBit(s, p).value.Some? ==> ReadBit(s, p).value.value < 2
  {
  }

  lemma {:induction false} SesFail(s: seq<Bit>, p: nat, n: nat, count: nat)
    requires n <= count && AfterSes(s, Some(p), n).None?
    ensures AfterSes(s, Some(p), count).None?
  {
    if n < count {
      SesFail(s, p, n, count - 1);
    }
  }

  class Bits {
    const data: seq<Byte>
    var position: nat

    ghost predicate Valid()
      reads this
    {
      position <= 8 * |data|
    }

    constructor (data: seq<Byte>)
      ensures Valid() && this.data == data && position == 0
    {
      this.data, position := data, 0;
    }

    /** The value and the position after it are those of `read`. */
    ghost predicate Does<T>(read: Read<T>, value: Option<T>)
      reads this
    {
      Valid() && read == Read(value, position)
    }

    method Bit() returns (r: Option<nat>)
      requires Valid()
      modifies this
      ensures Does(ReadBit(BitsOf(data), old(position)), r)
    {
      if position / 8 >= |data| {
        return None;
      }
      r := Some(Shr(data[position / 8], 7 - position % 8) % 2);
      position := position + 1;
    }

    method Take(count: nat) returns (r: Option<nat>)
      requires Valid()
      modifies this
      ensures Does(ReadBits(BitsOf(data), old(position), count), r)
    {
      ghost var s, p := BitsOf(data), position;
      var value := 0;
      for i := 0 to count
        invariant Valid() && ReadBits(s, p, i) == Read(Some(value), position)
      {
        var bit := Bit();
        if bit.None? {
          FailureStays(s, p, i + 1, count);
          return None;
        }
        value := 2 * value + bit.value;
      }
      r := Some(value);
    }

    method Ue() returns (r: Option<nat>)
      requires Valid()
      modifies this
      ensures Does(ReadUe(BitsOf(data), old(position)), r)
    {
      hide BitsOf, ReadBits, CountZeros;
      var zeros := LeadingZeros();
      if zeros.None? {
        return None;
      }
      var suffix := Take(zeros.value);
      r := if suffix.None? then None else Some(Pow2(zeros.value) - 1 + suffix.value);
    }

    method LeadingZeros() returns (r: Option<nat>)
      requires Valid()
      modifies this
      ensures Does(CountZeros(BitsOf(data), old(position), 0), r)
    {
      hide BitsOf;
      ghost var s, p := BitsOf(data), position;
      var zeros := 0;
      ghost var at := position;
      var bit := Bit();
      while bit.Some? && bit.value == 0
        invariant Valid() && zeros <= MAX_ZEROS
        invariant Does(ReadBit(s, at), bit)
        invariant CountZeros(s, p, 0) == CountZeros(s, at, zeros)
        decreases MAX_ZEROS - zeros
      {
        zeros := zeros + 1;
        if zeros > MAX_ZEROS {
          return None;
        }
        at := position;
        bit := Bit();
      }
      r := if bit.None? then None else Some(zeros);
    }

    method Se() returns (r: Option<int>)
      requires Valid()
      modifies this
      ensures Does(ReadSe(BitsOf(data), old(position)), r)
    {
      hide BitsOf, ReadUe;
      var code := Ue();
      if code.None? {
        return None;
      }
      var k: int := code.value;
      r := Some(if k % 2 == 1 then (k + 1) / 2 else -(k / 2));
    }

    /** `ok` when the reads that lead to `after` all succeed, and then stands there. */
    ghost predicate Skips(after: Option<nat>, ok: bool)
      reads this
    {
      Valid() && ok == after.Some? && (ok ==> position == after.value)
    }

    method SkipHeader() returns (ok: bool)
      requires Valid()
      modifies this
      ensures Skips(AfterHeader(BitsOf(data), old(position)), ok)
    {
      hide BitsOf, ReadUe, ReadBit, AfterCycle;
      var id := Ue();
      if id.None? {
        return false;
      }
      var log2FrameNum := Ue();
      if log2FrameNum.None? {
        return false;
      }
      ok := SkipOrder();
      if !ok {
        return;
      }
      var refFrames := Ue();
      if refFrames.None? {
        return false;
      }
      var gaps := Bit();
      ok := gaps.Some?;
    }

    method SkipOrder() returns (ok: bool)
      requires Valid()
      modifies this
      ensures Skips(AfterOrder(BitsOf(data), Some(old(position))), ok)
    {
      hide BitsOf, ReadUe, ReadSe, ReadBit, AfterSes;
      var kind := Ue();
      if kind.None? {
        return false;
      }
      match kind.value {
        case 0 =>
          var log2Max := Ue();
          ok := log2Max.Some?;
        case 1 =>
          var deltaZero := Bit();
          if deltaZero.None? {
            return false;
          }
          var nonRef := Se();
          if nonRef.None? {
            return false;
          }
          var topBottom := Se();
          if topBottom.None? {
            return false;
          }
          ok := SkipCycle();
        case _ =>
          ok := true;
      }
    }

    method SkipCycle() returns (ok: bool)
      requires Valid()
      modifies this
      ensures Skips(AfterCycle(BitsOf(data), Some(old(position))), ok)
    {
      hide BitsOf, ReadUe, ReadSe;
      ghost var s := BitsOf(data);
      var count := Ue();
      if count.None? {
        return false;
      }
      var n := if count.value < MAX_CYCLE then count.value else MAX_CYCLE;
      ghost var start := position;
      for i := 0 to n
        invariant Valid() && AfterSes(s, Some(start), i) == Some(position)
      {
        var offset := Se();
        if offset.None? {
          SesFail(s, start, i + 1, n);
          return false;
        }
      }
      ok := true;
    }

    method Window() returns (r: Option<Crop>)
      requires Valid()
      modifies this
      ensures Valid() && r == ReadCrop(BitsOf(data), old(position))
    {
      hide BitsOf, ReadUe, ReadBit;
      var flag := Bit();
      if flag.None? {
        return None;
      }
      if flag.value != 1 {
        BitIsOneOrZero(BitsOf(data), old(position));
        return Some(NO_CROP);
      }
      var left := Ue();
      if left.None? {
        return None;
      }
      var right := Ue();
      if right.None? {
        return None;
      }
      var top := Ue();
      if top.None? {
        return None;
      }
      var bottom := Ue();
      if bottom.None? {
        return None;
      }
      r := Some(Crop(left.value, right.value, top.value, bottom.value));
    }

    method PictureSize() returns (r: Option<Size>)
      requires Valid()
      modifies this
      ensures r == ReadPicture(BitsOf(data), old(position))
    {
      hide BitsOf, ReadUe, ReadBit, ReadCrop, Cropped;
      var width := Ue();
      if width.None? {
        return None;
      }
      var height := Ue();
      if height.None? {
        return None;
      }
      BitIsOneOrZero(BitsOf(data), position);
      var frameOnly := Bit();
      if frameOnly.None? {
        return None;
      }
      if frameOnly.value == 0 {
        var adaptive := Bit();
        if adaptive.None? {
          return None;
        }
      }
      var direct := Bit();
      if direct.None? {
        return None;
      }
      var crop := Window();
      if crop.None? {
        return None;
      }
      r := Cropped(width.value + 1, height.value + 1, frameOnly.value, crop.value);
    }
  }

  /** Removes emulation-prevention bytes. */
  method RemoveEmulation(bytes: seq<Byte>) returns (payload: seq<Byte>)
    ensures payload == Unescape(0, bytes)
  {
    payload := [];
    var zeros := 0;
    for i := 0 to |bytes|
      invariant Unescape(0, bytes) == payload + Unescape(zeros, bytes[i..])
    {
      var b := bytes[i];
      assert bytes[i..][1..] == bytes[i + 1..];
      if zeros >= 2 && b == 3 {
        zeros := 0;
      } else {
        zeros := if b == 0 then zeros + 1 else 0;
        payload := payload + [b];
      }
    }
  }

  method FindStarts(stream: seq<Byte>) returns (starts: seq<nat>)
    ensures starts == Starts(stream, 0)
  {
    starts := [];
    var index := 0;
    while index + 3 <= |stream|
      invariant index <= |stream|
      invariant Starts(stream, 0) == starts + Starts(stream, index)
      decreases |stream| - index
    {
      if stream[index] == 0 && stream[index + 1] == 0 && stream[index + 2] == 1 {
        starts := starts + [index + 3];
        index := index + 3;
      } else {
        index := index + 1;
      }
    }
  }

  lemma InOrderTail(starts: seq<nat>, from: nat, end: nat, n: nat)
    requires InOrder(starts, from, end) && n <= |starts|
    ensures InOrder(starts[n..], from, end)
  {
  }

  method NalUnits(stream: seq<Byte>) returns (nals: seq<seq<Byte>>)
    ensures nals == Nals(stream)
  {
    hide Starts, TrimZeros, InOrder;
    var starts := FindStarts(stream);
    StartsInOrder(stream, 0);
    nals := [];
    InOrderTail(starts, 0, |stream|, 0);
    assert starts[0..] == starts;
    for n := 0 to |starts|
      invariant InOrder(starts[n..], 0, |stream|)
      invariant nals + Units(stream, starts[n..]) == Units(stream, starts)
    {
      InOrderTail(starts, 0, |stream|, n + 1);
      Window(starts, 0, |stream|, n);
      assert starts[n..][1..] == starts[n + 1..];
      var end := if n + 1 < |starts| then starts[n + 1] - 3 else |stream|;
      var unit := Trimmed(stream[starts[n]..end]);
      nals := nals + [unit];
    }
  }

  lemma Window(starts: seq<nat>, from: nat, end: nat, n: nat)
    requires InOrder(starts, from, end) && n < |starts|
    ensures starts[n] <= (if n + 1 < |starts| then starts[n + 1] - 3 else end) <= end
  {
  }

  method Trimmed(bytes: seq<Byte>) returns (r: seq<Byte>)
    ensures r == TrimZeros(bytes)
  {
    var end: nat := |bytes|;
    assert bytes[..end] == bytes;
    while end > 0 && bytes[end - 1] == 0
      invariant end <= |bytes| && TrimZeros(bytes[..end]) == TrimZeros(bytes)
    {
      assert bytes[..end][..end - 1] == bytes[..end - 1];
      end := end - 1;
    }
    r := bytes[..end];
  }

  /** The first SPS of a byte stream. */
  method ParseSps(stream: seq<Byte>) returns (r: Option<Sps>)
    ensures r == Parse(stream)
  {
    hide Nals, Unescape, ReadSize;
    var nals := NalUnits(stream);
    var nal := Find(nals);
    if nal.None? {
      return None;
    }
    var payload := RemoveEmulation(nal.value[1..]);
    if |payload| < 4 {
      return None;
    }
    var size := None;
    if Plain(payload[0]) {
      size := ParseSize(payload[3..]);
    }
    r := Some(Sps(payload[0], payload[1], payload[2], size));
  }

  method Find(nals: seq<seq<Byte>>) returns (r: Option<seq<Byte>>)
    ensures r == FirstSps(nals)
  {
    for i := 0 to |nals|
      invariant FirstSps(nals) == FirstSps(nals[i..])
    {
      if IsSps(nals[i]) {
        return Some(nals[i]);
      }
      assert nals[i..][1..] == nals[i + 1..];
    }
    r := None;
  }

  method ParseSize(data: seq<Byte>) returns (r: Option<Size>)
    ensures r == ReadSize(BitsOf(data))
  {
    hide AfterHeader, ReadPicture;
    var bits := new Bits(data);
    var ok := bits.SkipHeader();
    if !ok {
      return None;
    }
    r := bits.PictureSize();
  }
}
