/**
 The annotation raster of internal/core/screen_capture.go: borders, label backgrounds and
 the painter's loop over elements. Glyphs are not part of this model.

 An image is an array2 indexed [x, y], its origin at (0, 0).
 */
module Raster {
  import opened GoInt
  import opened Elements

  type byte = n: int | 0 <= n < 256

  datatype RGBA = RGBA(r: byte, g: byte, b: byte, a: byte)

  // ---------------------------------------------------------------- painted sets

  /** The values a Go loop `for p := lo; p < lo+length; p++` visits. */
  ghost predicate Run(lo: int64, length: int64, p: int) {
    lo <= p < Wrap64(lo + length)
  }

  predicate IsAt(lo: int, t: int, p: int) {
    p == Wrap64(lo + t)
  }

  /** p is one of lo, lo+1, ..., lo+count-1 in wrapping arithmetic. */
  ghost predicate Among(lo: int, count: int, p: int) {
    exists t :: 0 <= t < count && IsAt(lo, t, p)
  }

  predicate IsBackFrom(hi: int, t: int, p: int) {
    p == Wrap64(hi - 1 - t)
  }

  /** p is one of hi-1, hi-2, ..., hi-count in wrapping arithmetic. */
  ghost predicate AmongLast(hi: int, count: int, p: int) {
    exists t :: 0 <= t < count && IsBackFrom(hi, t, p)
  }

  /** The pixels drawRect visits: two horizontal and two vertical bands. */
  ghost predicate Border(f: Frame, thickness: int, px: int, py: int) {
    || (Run(f.x, f.w, px) && (Among(f.y, thickness, py) || AmongLast(f.y + f.h, thickness, py)))
    || (Run(f.y, f.h, py) && (Among(f.x, thickness, px) || AmongLast(f.x + f.w, thickness, px)))
  }

  ghost predicate Filled(f: Frame, px: int, py: int) {
    Run(f.x, f.w, px) && Run(f.y, f.h, py)
  }

  // ---------------------------------------------------------------- drawing

  predicate InImage(img: array2<RGBA>, px: int, py: int) {
    0 <= px < img.Length0 && 0 <= py < img.Length1
  }

  /** img is what it was, with c on the pixels of `painted`. */
  twostate predicate Painted(img: array2<RGBA>, c: RGBA, painted: (int, int) -> bool)
    reads img
  {
    forall px, py | InImage(img, px, py) :: img[px, py] == if painted(px, py) then c else old(img[px, py])
  }

  method HorizontalEdge(img: array2<RGBA>, x: int64, w: int64, y: int64, c: RGBA)
    modifies img
    ensures Painted(img, c, (px, py) => Run(x, w, px) && py == y)
  {
    var px := x;
    while px < Wrap64(x + w)
      invariant px == x || (x <= px <= Wrap64(x + w))
      invariant Painted(img, c, (qx, qy) => x <= qx < px && qy == y)
    {
      if px >= 0 && px < img.Length0 && y >= 0 && y < img.Length1 {
        img[px, y] := c;
      }
      px := px + 1;
    }
  }

  method VerticalEdge(img: array2<RGBA>, y: int64, h: int64, x: int64, c: RGBA)
    modifies img
    ensures Painted(img, c, (px, py) => Run(y, h, py) && px == x)
  {
    var py := y;
    while py < Wrap64(y + h)
      invariant py == y || (y <= py <= Wrap64(y + h))
      invariant Painted(img, c, (qx, qy) => y <= qy < py && qx == x)
    {
      if x >= 0 && x < img.Length0 && py >= 0 && py < img.Length1 {
        img[x, py] := c;
      }
      py := py + 1;
    }
  }

  ghost predicate Ring(f: Frame, t: int, px: int, py: int) {
    || (Run(f.x, f.w, px) && (IsAt(f.y, t, py) || IsBackFrom(f.y + f.h, t, py)))
    || (Run(f.y, f.h, py) && (IsAt(f.x, t, px) || IsBackFrom(f.x + f.w, t, px)))
  }

  lemma BorderGrows(f: Frame, t: nat)
    ensures forall px, py :: Border(f, t + 1, px, py) <==> Border(f, t, px, py) || Ring(f, t, px, py)
  {}

  method DrawRing(img: array2<RGBA>, f: Frame, t: nat, c: RGBA)
    modifies img
    ensures Painted(img, c, (px, py) => Ring(f, t, px, py))
  {
    HorizontalEdge(img, f.x, f.w, Wrap64(f.y + t), c);
    HorizontalEdge(img, f.x, f.w, Wrap64(f.y + f.h - 1 - t), c);
    VerticalEdge(img, f.y, f.h, Wrap64(f.x + t), c);
    VerticalEdge(img, f.y, f.h, Wrap64(f.x + f.w - 1 - t), c);
  }

  method DrawRect(img: array2<RGBA>, f: Frame, thickness: int64, c: RGBA)
    modifies img
    ensures Painted(img, c, (px, py) => Border(f, thickness, px, py))
  {
    var t := 0;
    while t < thickness
      invariant t == 0 || 0 <= t <= thickness
      invariant Painted(img, c, (px, py) => Border(f, t, px, py))
    {
      DrawRing(img, f, t, c);
      BorderGrows(f, t);
      t := t + 1;
    }
  }

  method FillRect(img: array2<RGBA>, f: Frame, c: RGBA)
    modifies img
    ensures Painted(img, c, (px, py) => Filled(f, px, py))
  {
    var py := f.y;
    while py < Wrap64(f.y + f.h)
      invariant py == f.y || (f.y <= py <= Wrap64(f.y + f.h))
      invariant Painted(img, c, (qx, qy) => Run(f.x, f.w, qx) && f.y <= qy < py)
    {
      HorizontalEdge(img, f.x, f.w, py, c);
      py := py + 1;
    }
  }

  // ---------------------------------------------------------------- the painter

  /** The label's background: a strip above the frame, or inside it when there is no room. */
  function LabelFrame(info: ElementInfo): Frame {
    var above := Wrap64(info.frame.y - 13);
    Frame(info.frame.x, if above < 0 then info.frame.y else above, Wrap64(|Decimal(info.id)| * 7 + 4), 13)
  }

  ghost predicate Marked(info: ElementInfo, px: int, py: int) {
    Border(info.frame, 2, px, py) || Filled(LabelFrame(info), px, py)
  }

  ghost predicate Annotated(infos: seq<ElementInfo>, px: int, py: int) {
    exists i :: 0 <= i < |infos| && Marked(infos[i], px, py)
  }

  /** dst is src with c on exactly the annotated pixels. */
  ghost predicate Overlay(src: array2<RGBA>, infos: seq<ElementInfo>, c: RGBA, dst: array2<RGBA>)
    reads src, dst
  {
    && dst.Length0 == src.Length0 && dst.Length1 == src.Length1
    && forall px, py | InImage(src, px, py) ::
         dst[px, py] == if Annotated(infos, px, py) then c else src[px, py]
  }

  method DrawElement(img: array2<RGBA>, info: ElementInfo, c: RGBA)
    modifies img
    ensures Painted(img, c, (px, py) => Marked(info, px, py))
  {
    DrawRect(img, info.frame, 2, c);
    var text := Decimal(info.id);
    var labelW := Wrap64(|text| * 7 + 4);
    var labelH := 13;
    var labelX := info.frame.x;
    var labelY := Wrap64(info.frame.y - labelH);
    if labelY < 0 {
      labelY := info.frame.y;
    }
    FillRect(img, Frame(labelX, labelY, labelW, labelH), c);
  }

  lemma AnnotatedGrows(infos: seq<ElementInfo>, i: nat)
    requires i < |infos|
    ensures forall px, py ::
              Annotated(infos[..i + 1], px, py) <==> Annotated(infos[..i], px, py) || Marked(infos[i], px, py)
  {
    forall px, py
      ensures Annotated(infos[..i + 1], px, py) <==> Annotated(infos[..i], px, py) || Marked(infos[i], px, py)
    {
      assert infos[..i + 1][i] == infos[i];
      if Annotated(infos[..i], px, py) {
        var k :| 0 <= k < i && Marked(infos[..i][k], px, py);
        assert Marked(infos[..i + 1][k], px, py);
      }
      if Annotated(infos[..i + 1], px, py) {
        var k :| 0 <= k < i + 1 && Marked(infos[..i + 1][k], px, py);
        assert k < i ==> Marked(infos[..i][k], px, py);
      }
    }
  }

  method DrawAnnotations(src: array2<RGBA>, infos: seq<ElementInfo>, boxColor: string) returns (dst: array2<RGBA>)
    ensures fresh(dst) && Overlay(src, infos, ParseHexColor(boxColor), dst)
  {
    var c := ParseHexColor(boxColor);
    dst := new RGBA[src.Length0, src.Length1](
      (px, py) requires InImage(src, px, py) reads src => src[px, py]);
    for i := 0 to |infos|
      invariant Overlay(src, infos[..i], c, dst)
    {
      DrawElement(dst, infos[i], c);
      AnnotatedGrows(infos, i);
    }
    assert infos[..|infos|] == infos;
  }

  /** Which pixels are annotated does not depend on the order of the elements. */
  lemma AnnotatedIgnoresOrder(a: seq<ElementInfo>, b: seq<ElementInfo>, px: int, py: int)
    requires multiset(a) == multiset(b)
    ensures Annotated(a, px, py) <==> Annotated(b, px, py)
  {
    if Annotated(a, px, py) {
      var i :| 0 <= i < |a| && Marked(a[i], px, py);
      assert a[i] in multiset(b);
      var k :| 0 <= k < |b| && b[k] == a[i];
      assert Marked(b[k], px, py);
    }
    if Annotated(b, px, py) {
      var i :| 0 <= i < |b| && Marked(b[i], px, py);
      assert b[i] in multiset(a);
      var k :| 0 <= k < |a| && a[k] == b[i];
      assert Marked(a[k], px, py);
    }
  }

  /** Painting the painted image again, in any order of the elements, changes no pixel. */
  method PaintTwice(src: array2<RGBA>, infos: seq<ElementInfo>, shuffled: seq<ElementInfo>, boxColor: string)
    returns (once: array2<RGBA>, twice: array2<RGBA>)
    requires multiset(infos) == multiset(shuffled)
    ensures once.Length0 == twice.Length0 == src.Length0 && once.Length1 == twice.Length1 == src.Length1
    ensures forall px, py | InImage(src, px, py) :: twice[px, py] == once[px, py]
  {
    once := DrawAnnotations(src, infos, boxColor);
    twice := DrawAnnotations(once, shuffled, boxColor);
    forall px, py | InImage(src, px, py)
      ensures twice[px, py] == once[px, py]
    {
      AnnotatedIgnoresOrder(infos, shuffled, px, py);
    }
  }

  // ---------------------------------------------------------------- closed forms

  ghost predicate InFrame(f: Frame, px: int, py: int) {
    f.x <= px < f.x + f.w && f.y <= py < f.y + f.h
  }

  ghost predicate InInset(f: Frame, d: int, px: int, py: int) {
    f.x + d <= px < f.x + f.w - d && f.y + d <= py < f.y + f.h - d
  }

  /** A Go loop from lo up to lo+length visits the int64s of [lo, lo+length) iff that end is an int64. */
  lemma RunExact(lo: int64, length: int64)
    ensures (forall p: int64 :: Run(lo, length, p) <==> lo <= p < lo + length) <==> IsInt64(lo + length)
  {
    if lo + length >= TWO63 {
      Wrap64Unique(lo + length, lo + length - TWO64, 1);
      assert !Run(lo, length, lo);
    } else if lo + length < -TWO63 {
      Wrap64Unique(lo + length, lo + length + TWO64, -1);
      assert Run(lo, length, lo);
    }
  }

  lemma AmongExact(lo: int, count: nat, p: int)
    requires IsInt64(lo) && lo + count <= TWO63
    ensures Among(lo, count, p) <==> lo <= p < lo + count
  {
    if lo <= p < lo + count {
      assert IsAt(lo, p - lo, p);
    }
  }

  lemma AmongLastExact(hi: int, count: nat, p: int)
    requires hi <= TWO63 && hi - count >= -TWO63
    ensures AmongLast(hi, count, p) <==> hi - count <= p < hi
  {
    if hi - count <= p < hi {
      assert IsBackFrom(hi, hi - 1 - p, p);
    }
  }

  /** No edge of the frame, nor a band along it, passes the ends of int64. */
  predicate Representable(f: Frame, thickness: nat) {
    && IsInt64(f.x + f.w) && IsInt64(f.y + f.h)
    && f.x + thickness <= TWO63 && f.y + thickness <= TWO63
    && f.x + f.w - thickness >= -TWO63 && f.y + f.h - thickness >= -TWO63
  }

  /** The exact painted set: two horizontal and two vertical bands, whatever the size of the frame. */
  lemma BorderBands(f: Frame, thickness: nat, px: int, py: int)
    requires Representable(f, thickness)
    ensures Border(f, thickness, px, py) <==>
              || (f.x <= px < f.x + f.w
                  && (f.y <= py < f.y + thickness || f.y + f.h - thickness <= py < f.y + f.h))
              || (f.y <= py < f.y + f.h
                  && (f.x <= px < f.x + thickness || f.x + f.w - thickness <= px < f.x + f.w))
  {
    AmongExact(f.y, thickness, py);
    AmongExact(f.x, thickness, px);
    AmongLastExact(f.y + f.h, thickness, py);
    AmongLastExact(f.x + f.w, thickness, px);
  }

  /** A frame at least as wide and high as the border gets exactly its rim, on screen or off. */
  lemma BorderIsRim(f: Frame, thickness: nat, px: int, py: int)
    requires IsInt64(f.x + f.w) && IsInt64(f.y + f.h) && f.w >= thickness && f.h >= thickness
    ensures Border(f, thickness, px, py) <==> InFrame(f, px, py) && !InInset(f, thickness, px, py)
  {
    BorderBands(f, thickness, px, py);
  }

  /** The border leaves the frame exactly when it is drawn and the frame is thinner than it. */
  lemma BorderLeavesFrame(f: Frame, thickness: nat)
    requires Representable(f, thickness) && thickness > 0
    ensures (exists px, py :: Border(f, thickness, px, py) && !InFrame(f, px, py)) <==>
              (f.w > 0 && f.h < thickness) || (f.h > 0 && f.w < thickness)
  {
    forall px, py
      ensures Border(f, thickness, px, py) && !InFrame(f, px, py) ==>
                (f.w > 0 && f.h < thickness) || (f.h > 0 && f.w < thickness)
    {
      BorderBands(f, thickness, px, py);
    }
    if f.w > 0 && f.h < thickness {
      var py := if f.h <= 0 then f.y else f.y + f.h - thickness;
      BorderBands(f, thickness, f.x, py);
      assert Border(f, thickness, f.x, py) && !InFrame(f, f.x, py);
    } else if f.h > 0 && f.w < thickness {
      var px := if f.w <= 0 then f.x else f.x + f.w - thickness;
      BorderBands(f, thickness, px, f.y);
      assert Border(f, thickness, px, f.y) && !InFrame(f, px, f.y);
    }
  }

  const SCREEN := 0x8000_0000

  /** A pixel that an image can have. */
  predicate OnScreen(px: int, py: int) {
    0 <= px < SCREEN && 0 <= py < SCREEN
  }

  lemma {:induction false} FewDigits(n: nat, k: nat)
    requires k > 0 && n < Power10(k)
    ensures |DecimalNat(n)| <= k
  {
    if n >= 10 {
      assert k > 1 by {
        assert Power10(1) == 10 * Power10(0);
      }
      FewDigits(n / 10, k - 1);
    }
  }

  lemma LabelWidth(id: nat)
    requires IsInt64(id)
    ensures 1 <= |Decimal(id)| <= 19
  {
    ThreeMoreZeros(0);
    ThreeMoreZeros(3);
    ThreeMoreZeros(6);
    ThreeMoreZeros(9);
    ThreeMoreZeros(12);
    ThreeMoreZeros(15);
    assert Power10(19) == 10 * Power10(18) == 10_000_000_000_000_000_000;
    FewDigits(id, 19);
  }

  lemma ThreeMoreZeros(k: nat)
    ensures Power10(k + 3) == 1000 * Power10(k)
  {
    assert Power10(k + 3) == 10 * Power10(k + 2) && Power10(k + 2) == 10 * Power10(k + 1);
  }

  /**
   For every frame, the label's strip on the screen: 13 rows that end where the frame begins if
   they fit above it, else begin there; 7 columns for each digit and 4 more.
   */
  lemma LabelLies(info: ElementInfo, px: int, py: int)
    requires IsInt64(info.id) && OnScreen(px, py)
    ensures Filled(LabelFrame(info), px, py) <==>
              && info.frame.x <= px < info.frame.x + 7 * |Decimal(info.id)| + 4
              && if info.frame.y >= 13 then info.frame.y - 13 <= py < info.frame.y
                 else info.frame.y <= py < info.frame.y + 13
  {
    LabelWidth(info.id);
    RunOnScreen(info.frame.x, 7 * |Decimal(info.id)| + 4, px);
    var y: int := info.frame.y;
    if y < -TWO63 + 13 {
      Wrap64Unique(y - 13, y - 13 + TWO64, -1);
    }
    RunOnScreen(LabelFrame(info).y, 13, py);
  }

  lemma RunOnScreen(lo: int64, length: int64, p: int)
    requires 0 <= p < SCREEN && 0 <= length <= 200
    ensures Run(lo, length, p) <==> lo <= p < lo + length
  {
    if lo + length >= TWO63 {
      Wrap64Unique(lo + length, lo + length - TWO64, 1);
    }
  }

  /** What one element marks on the screen: the frame's rim, two pixels thick, and the strip. */
  lemma MarkedExactly(info: ElementInfo, px: int, py: int)
    requires IsInt64(info.id) && OnScreen(px, py)
    requires var f := info.frame; IsInt64(f.x + f.w) && IsInt64(f.y + f.h) && f.w >= 2 && f.h >= 2
    ensures var f := info.frame;
            Marked(info, px, py) <==>
              || (InFrame(f, px, py) && !(f.x + 2 <= px < f.x + f.w - 2 && f.y + 2 <= py < f.y + f.h - 2))
              || (f.x <= px < f.x + 7 * |Decimal(info.id)| + 4
                  && if f.y >= 13 then f.y - 13 <= py < f.y else f.y <= py < f.y + 13)
  {
    BorderIsRim(info.frame, 2, px, py);
    LabelLies(info, px, py);
  }

  // ---------------------------------------------------------------- colours

  const RED := RGBA(255, 0, 0, 255)

  predicate IsHex(c: char) {
    '0' <= c <= '9' || 'a' <= c <= 'f' || 'A' <= c <= 'F'
  }

  function HexValue(c: char): (v: nat)
    requires IsHex(c)
    ensures v < 16
  {
    if '0' <= c <= '9' then c as int - '0' as int
    else if 'a' <= c <= 'f' then c as int - 'a' as int + 10
    else c as int - 'A' as int + 10
  }

  function Stripped(hex: string): string {
    if hex != "" && hex[0] == '#' then hex[1..] else hex
  }

  predicate WellFormedHex(hex: string) {
    var h := Stripped(hex);
    |h| == 6 && forall i | 0 <= i < 6 :: IsHex(h[i])
  }

  function HexByte(hi: char, lo: char): byte
    requires IsHex(hi) && IsHex(lo)
  {
    16 * HexValue(hi) + HexValue(lo)
  }

  function ParseHexColor(hex: string): RGBA {
    var h := Stripped(hex);
    if WellFormedHex(hex) then RGBA(HexByte(h[0], h[1]), HexByte(h[2], h[3]), HexByte(h[4], h[5]), 255) else RED
  }

  function HexDigit(v: nat): (c: char)
    requires v < 16
    ensures IsHex(c) && HexValue(c) == v
  {
    "0123456789abcdef"[v]
  }

  function PrintByte(b: byte): string {
    [HexDigit(b / 16), HexDigit(b % 16)]
  }

  function PrintColor(c: RGBA): string {
    "#" + PrintByte(c.r) + PrintByte(c.g) + PrintByte(c.b)
  }

  lemma PrintThenParseColor(c: RGBA)
    requires c.a == 255
    ensures ParseHexColor(PrintColor(c)) == c
  {
    var h := Stripped(PrintColor(c));
    assert h == PrintByte(c.r) + PrintByte(c.g) + PrintByte(c.b);
  }

  lemma PrintOfHexByte(hi: char, lo: char)
    requires IsHex(hi) && IsHex(lo)
    ensures PrintByte(HexByte(hi, lo)) == [LowerChar(hi), LowerChar(lo)]
  {
    assert HexByte(hi, lo) / 16 == HexValue(hi) && HexByte(hi, lo) % 16 == HexValue(lo);
    PrintOfHexValue(hi);
    PrintOfHexValue(lo);
  }

  lemma PrintOfHexValue(c: char)
    requires IsHex(c)
    ensures HexDigit(HexValue(c)) == LowerChar(c)
  {
    assert LowerChar(c) as int == if HexValue(c) < 10 then '0' as int + HexValue(c) else 'a' as int + HexValue(c) - 10;
  }

  /** Parsing loses nothing but letter case and the optional '#'; anything malformed is red. */
  lemma ParseThenPrintColor(hex: string)
    ensures WellFormedHex(hex) ==> PrintColor(ParseHexColor(hex)) == "#" + ToLower(Stripped(hex))
    ensures !WellFormedHex(hex) ==> ParseHexColor(hex) == RED
  {
    if WellFormedHex(hex) {
      var h := Stripped(hex);
      PrintOfHexByte(h[0], h[1]);
      PrintOfHexByte(h[2], h[3]);
      PrintOfHexByte(h[4], h[5]);
      assert PrintColor(ParseHexColor(hex)) == "#" + ToLower(h);
    }
  }
}
