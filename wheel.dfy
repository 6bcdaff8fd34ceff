/** The numeric parts of the wheel component (components/Wheel.tsx): the
    colour shading helper, label truncation, the equal-slice layout and the
    size rules. Canvas drawing itself is not modelled. */
module Wheel {
  import opened Types

  // ---------------------------------------------------------------------
  // Hexadecimal digits and numbers

  predicate IsHexDigit(c: char) {
    '0' <= c <= '9' || 'a' <= c <= 'f' || 'A' <= c <= 'F'
  }

  predicate IsLowerHexDigit(c: char) {
    '0' <= c <= '9' || 'a' <= c <= 'f'
  }

  predicate AllHex(s: string) {
    forall k :: 0 <= k < |s| ==> IsHexDigit(s[k])
  }

  predicate AllLowerHex(s: string) {
    forall k :: 0 <= k < |s| ==> IsLowerHexDigit(s[k])
  }

  function DigitValue(c: char): (v: nat)
    requires IsHexDigit(c)
    ensures v < 16
  {
    if '0' <= c <= '9' then (c - '0') as nat
    else if 'a' <= c <= 'f' then (c - 'a') as nat + 10
    else (c - 'A') as nat + 10
  }

  /** The digit `Number.prototype.toString(16)` writes for `v`. */
  function LowerDigit(v: nat): (c: char)
    requires v < 16
    ensures IsLowerHexDigit(c) && DigitValue(c) == v
  {
    if v < 10 then '0' + v as char else 'a' + (v - 10) as char
  }

  lemma LowerDigitOfValue(c: char)
    requires IsLowerHexDigit(c)
    ensures LowerDigit(DigitValue(c)) == c
  {
  }

  function Pow16(k: nat): (p: nat)
    ensures p >= 1
  {
    if k == 0 then 1 else 16 * Pow16(k - 1)
  }

  /** `parseInt(s, 16)` on a string made only of hex digits. */
  function ParseHex(s: string): (n: nat)
    requires AllHex(s)
    ensures n < Pow16(|s|)
  {
    if s == [] then 0 else ParseHex(s[..|s| - 1]) * 16 + DigitValue(s[|s| - 1])
  }

  /** `n.toString(16)`: lower-case hex digits, no leading zeros. */
  function ToHexString(n: nat): (s: string)
    ensures s != [] && AllLowerHex(s)
  {
    if n < 16 then [LowerDigit(n)] else ToHexString(n / 16) + [LowerDigit(n % 16)]
  }

  /** The last `k` hex digits of `v`, zero-padded. */
  function FixedHex(v: nat, k: nat): (s: string)
    ensures |s| == k && AllLowerHex(s)
  {
    if k == 0 then [] else FixedHex(v / 16, k - 1) + [LowerDigit(v % 16)]
  }

  /** Dividing `16 q + d` by 16, for a digit `d`, gives `q` and remainder `d`. */
  lemma DivMod16(q: int, d: int)
    requires 0 <= d < 16
    ensures (16 * q + d) / 16 == q && (16 * q + d) % 16 == d
  {
  }

  /** Shifting `16 a + v` down one hex digit gives `a + v / 16` and keeps
      the last digit of `v`. */
  lemma ShiftDown(a: nat, v: nat)
    ensures (16 * a + v) / 16 == a + v / 16 && (16 * a + v) % 16 == v % 16
  {
    assert 16 * a + v == 16 * (a + v / 16) + v % 16;
    DivMod16(a + v / 16, v % 16);
  }

  /** Reading back `k` padded digits gives the value they were written from. */
  lemma {:induction false} ParseFixedHex(v: nat, k: nat)
    requires v < Pow16(k)
    ensures ParseHex(FixedHex(v, k)) == v
  {
    if k > 0 {
      var s := FixedHex(v, k);
      assert s[..|s| - 1] == FixedHex(v / 16, k - 1);
      assert s[|s| - 1] == LowerDigit(v % 16);
      assert v / 16 < Pow16(k - 1);
      ParseFixedHex(v / 16, k - 1);
      assert ParseHex(s) == (v / 16) * 16 + v % 16;
    }
  }

  /** Writing back a lower-case digit string gives the string itself. */
  lemma {:induction false} FixedHexOfParse(s: string)
    requires AllLowerHex(s)
    ensures FixedHex(ParseHex(s), |s|) == s
  {
    if s != [] {
      var init, last := s[..|s| - 1], s[|s| - 1];
      assert AllLowerHex(init) by {
        forall k | 0 <= k < |init| ensures IsLowerHexDigit(init[k]) {
          assert init[k] == s[k];
        }
      }
      FixedHexOfParse(init);
      var n, p, d := ParseHex(s), ParseHex(init), DigitValue(last);
      assert n == p * 16 + d;
      DivMod16(p, d);
      assert n / 16 == p && n % 16 == d;
      LowerDigitOfValue(last);
      calc {
        FixedHex(n, |s|);
        FixedHex(n / 16, |s| - 1) + [LowerDigit(n % 16)];
        FixedHex(p, |init|) + [last];
        init + [last];
        s;
      }
    }
  }

  /** A number with k+1 hex digits whose leading digit is 1 prints as "1"
      followed by the padded low digits. */
  lemma {:induction false} ToHexStringLeadingOne(v: nat, k: nat)
    requires v < Pow16(k)
    ensures ToHexString(Pow16(k) + v) == "1" + FixedHex(v, k)
  {
    if k > 0 {
      var n := Pow16(k) + v;
      ShiftDown(Pow16(k - 1), v);
      assert n / 16 == Pow16(k - 1) + v / 16 && n % 16 == v % 16;
      assert v / 16 < Pow16(k - 1);
      ToHexStringLeadingOne(v / 16, k - 1);
      assert ToHexString(n) == ToHexString(n / 16) + [LowerDigit(n % 16)];
    }
  }

  // ---------------------------------------------------------------------
  // adjustColor

  /** A colour as the participant palette holds it: '#' and six hex digits. */
  predicate IsHexColor(s: string) {
    |s| == 7 && s[0] == '#' && AllHex(s[1..])
  }

  /** The shape adjustColor always returns: '#' and six lower-case hex digits. */
  predicate IsLowerHexColor(s: string) {
    |s| == 7 && s[0] == '#' && AllLowerHex(s[1..])
  }

  /** The 24-bit number a colour string denotes. */
  function ColorValue(hex: string): (n: nat)
    requires IsHexColor(hex)
    ensures n < 0x100_0000
  {
    assert Pow16(6) == 0x100_0000;
    ParseHex(hex[1..])
  }

  /** `num >> 16`, `num >> 8 & 0xFF` and `num & 0xFF` on a 24-bit value. */
  function Red(num: nat): (r: nat)
    ensures num < 0x100_0000 ==> r < 0x100
    ensures r * 0x1_0000 <= num < r * 0x1_0000 + 0x1_0000
  {
    num / 0x1_0000
  }

  function Green(num: nat): (g: nat)
    ensures g < 0x100
  {
    num / 0x100 % 0x100
  }

  function Blue(num: nat): (b: nat)
    ensures b < 0x100
  {
    num % 0x100
  }

  /** The nested conditional `v < 255 ? (v < 0 ? 0 : v) : 255`. */
  function ClampChannel(v: int): (c: nat)
    ensures c <= 255
    ensures 0 <= v <= 255 ==> c == v
    ensures v < 0 ==> c == 0
    ensures v > 255 ==> c == 255
  {
    if v < 255 then (if v < 0 then 0 else v) else 255
  }

  /** The three shifted and clamped channels packed back into one number:
      `(R << 16) + (G << 8) + B` after the clamp. */
  function Shade(num: nat, amt: int): (rgb: nat)
    ensures rgb < 0x100_0000
  {
    ClampChannel(Red(num) + amt) * 0x1_0000 + ClampChannel(Green(num) + amt) * 0x100
      + ClampChannel(Blue(num) + amt)
  }

  /** Shift every channel of `hex` by `amt` (the caller's rounded
      `2.55 * percent`), clamping to [0, 255], and print the result as
      '#rrggbb' in lower case. */
  function AdjustColor(hex: string, amt: int): (r: string)
    requires IsHexColor(hex)
    ensures IsLowerHexColor(r)
  {
    var rgb := Shade(ColorValue(hex), amt);
    assert Pow16(6) == 0x100_0000;
    ToHexStringLeadingOne(rgb, 6);
    "#" + ToHexString(0x100_0000 + rgb)[1..]
  }

  /** The colour printed by AdjustColor reads back as the packed shade. */
  lemma AdjustColorValue(hex: string, amt: int)
    requires IsHexColor(hex)
    ensures ColorValue(AdjustColor(hex, amt)) == Shade(ColorValue(hex), amt)
  {
    var rgb := Shade(ColorValue(hex), amt);
    assert Pow16(6) == 0x100_0000;
    ToHexStringLeadingOne(rgb, 6);
    assert AdjustColor(hex, amt)[1..] == FixedHex(rgb, 6);
    ParseFixedHex(rgb, 6);
  }

  /** Each channel of the result is the matching input channel plus `amt`,
      clamped to [0, 255]. */
  lemma AdjustColorChannels(hex: string, amt: int)
    requires IsHexColor(hex)
    ensures var num, out := ColorValue(hex), ColorValue(AdjustColor(hex, amt));
      Red(out) == ClampChannel(Red(num) + amt)
      && Green(out) == ClampChannel(Green(num) + amt)
      && Blue(out) == ClampChannel(Blue(num) + amt)
  {
    AdjustColorValue(hex, amt);
    ShadeChannels(ColorValue(hex), amt);
  }

  /** The channels of the packed shade are the clamped shifted channels. */
  lemma ShadeChannels(num: nat, amt: int)
    ensures var rgb := Shade(num, amt);
      Red(rgb) == ClampChannel(Red(num) + amt)
      && Green(rgb) == ClampChannel(Green(num) + amt)
      && Blue(rgb) == ClampChannel(Blue(num) + amt)
  {
    ChannelsOfRgb(ClampChannel(Red(num) + amt), ClampChannel(Green(num) + amt), ClampChannel(Blue(num) + amt));
  }

  /** Division by 0x100 and by 0x1_0000 from a quotient and a remainder. */
  lemma DivMod256(n: int, q: int, r: int)
    requires 0 <= r < 0x100 && n == 0x100 * q + r
    ensures n / 0x100 == q && n % 0x100 == r
  {
  }

  lemma DivMod65536(n: int, q: int, r: int)
    requires 0 <= r < 0x1_0000 && n == 0x1_0000 * q + r
    ensures n / 0x1_0000 == q && n % 0x1_0000 == r
  {
  }

  /** Packing three bytes and reading the channels back gives the bytes. */
  lemma ChannelsOfRgb(r: nat, g: nat, b: nat)
    requires r <= 255 && g <= 255 && b <= 255
    ensures var n := r * 0x1_0000 + g * 0x100 + b;
      Red(n) == r && Green(n) == g && Blue(n) == b
  {
    var n := r * 0x1_0000 + g * 0x100 + b;
    DivMod65536(n, r, g * 0x100 + b);
    DivMod256(n, r * 0x100 + g, b);
    DivMod256(r * 0x100 + g, r, g);
  }

  /** ... and every 24-bit number is such a packing of its channels. */
  lemma RgbOfNum(num: nat)
    requires num < 0x100_0000
    ensures Red(num) <= 255 && Green(num) <= 255 && Blue(num) <= 255
    ensures num == Red(num) * 0x1_0000 + Green(num) * 0x100 + Blue(num)
  {
    var q, b := num / 0x100, num % 0x100;
    var r, g := q / 0x100, q % 0x100;
    assert num == 0x100 * q + b;
    assert q == 0x100 * r + g;
    assert num == 0x1_0000 * r + (0x100 * g + b);
    DivMod65536(num, r, 0x100 * g + b);
  }

  /** Shading by zero returns a lower-case colour unchanged. */
  lemma AdjustColorZero(hex: string)
    requires IsLowerHexColor(hex)
    ensures AdjustColor(hex, 0) == hex
  {
    var num := ColorValue(hex);
    RgbOfNum(num);
    assert Shade(num, 0) == num;
    assert Pow16(6) == 0x100_0000;
    ToHexStringLeadingOne(num, 6);
    assert AdjustColor(hex, 0) == "#" + FixedHex(num, 6);
    FixedHexOfParse(hex[1..]);
    assert hex == "#" + hex[1..];
  }

  /** Darkening never raises a channel and lightening never lowers one. */
  lemma AdjustColorMonotone(hex: string, amt: int)
    requires IsHexColor(hex)
    ensures var num, out := ColorValue(hex), ColorValue(AdjustColor(hex, amt));
      (amt <= 0 ==> Red(out) <= Red(num) && Green(out) <= Green(num) && Blue(out) <= Blue(num))
      && (amt >= 0 ==> Red(out) >= Red(num) && Green(out) >= Green(num) && Blue(out) >= Blue(num))
  {
    var num := ColorValue(hex);
    AdjustColorChannels(hex, amt);
    assert Red(num) <= 255;
  }

  /** `Math.round(2.55 * -25)`: the shift the slice gradient's outer stop uses. */
  const GradientShade: int := -64

  /** The outer gradient stop of a slice: its colour darkened by 64 per
      channel, never below zero. */
  function GradientEnd(color: string): (r: string)
    requires IsHexColor(color)
    ensures IsLowerHexColor(r)
    ensures var num, out := ColorValue(color), ColorValue(r);
      Red(out) == ClampChannel(Red(num) - 64) && Green(out) == ClampChannel(Green(num) - 64)
      && Blue(out) == ClampChannel(Blue(num) - 64)
  {
    AdjustColorChannels(color, GradientShade);
    AdjustColor(color, GradientShade)
  }

  // ---------------------------------------------------------------------
  // Labels and sizes

  /** The label drawn on a slice: names longer than eight characters are cut
      to their first six and marked with "..". */
  function DisplayName(name: string): (r: string)
    ensures |r| <= 8
    ensures |name| <= 8 ==> r == name
    ensures |name| > 8 ==> |r| == 8 && r[..6] == name[..6] && r[6..] == ".."
  {
    if |name| > 8 then name[..6] + ".." else name
  }

  function Min(a: real, b: real): real {
    if a <= b then a else b
  }

  /** The wheel's side length for a window of `w` by `h` pixels:
      `min(0.60 w, 0.28 h)` held to [170, 210]. */
  function WheelSize(w: real, h: real): (s: real)
    ensures 170.0 <= s <= 210.0
    ensures 170.0 <= Min(w * 0.60, h * 0.28) <= 210.0 ==> s == Min(w * 0.60, h * 0.28)
  {
    var s := Min(w * 0.60, h * 0.28);
    var s := if s > 210.0 then 210.0 else s;
    if s < 170.0 then 170.0 else s
  }

  /** A larger window never gives a smaller wheel. */
  lemma WheelSizeMonotone(w1: real, h1: real, w2: real, h2: real)
    requires w1 <= w2 && h1 <= h2
    ensures WheelSize(w1, h1) <= WheelSize(w2, h2)
  {
  }

  /** Label font size: size/18, or size/22 once there are more than ten slices. */
  function FontSize(size: real, count: nat): (f: real)
    requires size > 0.0
    ensures f > 0.0
    ensures count <= 10 ==> f * 18.0 == size
    ensures count > 10 ==> f * 22.0 == size
  {
    if count > 10 then size / 22.0 else size / 18.0
  }

  /** More participants never enlarge the labels. */
  lemma FontSizeNonIncreasing(size: real, m: nat, n: nat)
    requires size > 0.0 && m <= n
    ensures FontSize(size, n) <= FontSize(size, m)
  {
  }

  // ---------------------------------------------------------------------
  // Slice layout. Angles are in whatever unit `turn` (one full turn) is
  // measured in: 2*PI radians on the canvas, 360 degrees for the rotation.

  function SliceWidth(n: nat, turn: real): (w: real)
    requires n > 0 && turn > 0.0
    ensures w > 0.0 && w * n as real == turn
  {
    turn / n as real
  }

  /** Start angle of slice `i` of `n`: `i` slice widths into the turn. */
  function SliceStart(i: nat, n: nat, turn: real): (a: real)
    requires n > 0 && turn > 0.0
    ensures 0.0 <= a
    ensures i <= n ==> a <= turn
  {
    var w := SliceWidth(n, turn);
    ScaleCompare(i as real, n as real, w);
    i as real * w
  }

  /** End angle of slice `i`: one slice width after its start. */
  function SliceEnd(i: nat, n: nat, turn: real): (a: real)
    requires n > 0 && turn > 0.0
    ensures SliceStart(i, n, turn) < a
    ensures i < n ==> a <= turn
  {
    var w := SliceWidth(n, turn);
    ScaleCompare(i as real + 1.0, n as real, w);
    assert (i as real + 1.0) * w == i as real * w + w;
    SliceStart(i, n, turn) + w
  }

  /** Label angle of slice `i`: halfway between its start and end. */
  function SliceMid(i: nat, n: nat, turn: real): (a: real)
    requires n > 0 && turn > 0.0
    ensures SliceStart(i, n, turn) < a < SliceEnd(i, n, turn)
    ensures a - SliceStart(i, n, turn) == SliceEnd(i, n, turn) - a
  {
    SliceStart(i, n, turn) + SliceWidth(n, turn) / 2.0
  }

  /** The slices tile the disc in list order: the first starts at 0, each
      ends where the next starts, the last ends at a full turn, and the label
      angle is strictly inside its slice, halfway through. */
  lemma SliceLayout(i: nat, n: nat, turn: real)
    requires i < n && turn > 0.0
    ensures SliceStart(0, n, turn) == 0.0
    ensures SliceEnd(i, n, turn) == SliceStart(i + 1, n, turn)
    ensures SliceEnd(n - 1, n, turn) == turn
    ensures SliceStart(i, n, turn) < SliceMid(i, n, turn) < SliceEnd(i, n, turn)
    ensures SliceMid(i, n, turn) - SliceStart(i, n, turn) == SliceEnd(i, n, turn) - SliceMid(i, n, turn)
    ensures 0.0 <= SliceStart(i, n, turn) && SliceEnd(i, n, turn) <= turn
  {
    var w := SliceWidth(n, turn);
    assert SliceEnd(n - 1, n, turn) == (n - 1) as real * w + w == n as real * w;
    assert (i + 1) as real * w <= n as real * w;
  }

  /** Every angle of one turn lies in a slice: the one numbered
      floor(angle / width). */
  lemma SliceContaining(a: real, n: nat, turn: real)
    requires n > 0 && turn > 0.0 && 0.0 <= a < turn
    ensures var i := (a / SliceWidth(n, turn)).Floor;
      0 <= i < n && SliceStart(i, n, turn) <= a < SliceEnd(i, n, turn)
  {
    var w := SliceWidth(n, turn);
    var q := a / w;
    assert a == q * w;
    assert q >= 0.0;
    var i: nat := q.Floor;
    assert i as real <= q < i as real + 1.0;
    ScaleCompare(i as real, q, w);
    ScaleCompare(q, i as real + 1.0, w);
    ScaleCompare(q, n as real, w);
    assert (i as real) < (n as real);
    assert q * w < (i as real + 1.0) * w;
    calc {
      SliceStart(i, n, turn);
      i as real * w;
    <=
      q * w;
      a;
    }
    calc {
      SliceEnd(i, n, turn);
      i as real * w + w;
      (i as real + 1.0) * w;
    >
      q * w;
      a;
    }
  }

  /** ... and in no other: slices do not overlap. */
  lemma SliceUnique(a: real, n: nat, turn: real, j: nat)
    requires n > 0 && turn > 0.0 && j < n
    requires SliceStart(j, n, turn) <= a < SliceEnd(j, n, turn)
    ensures j == (a / SliceWidth(n, turn)).Floor
  {
    var w := SliceWidth(n, turn);
    var q := a / w;
    assert a == q * w;
    calc {
      j as real * w;
      SliceStart(j, n, turn);
    <=
      a;
      q * w;
    }
    calc {
      q * w;
      a;
    <
      SliceEnd(j, n, turn);
      j as real * w + w;
      (j as real + 1.0) * w;
    }
    ScaleCompare(j as real, q, w);
    ScaleCompare(q, j as real + 1.0, w);
  }

  /** Multiplying both sides by a positive width keeps the order. */
  lemma ScaleCompare(x: real, y: real, w: real)
    requires w > 0.0
    ensures x * w <= y * w <==> x <= y
    ensures x * w < y * w <==> x < y
  {
    assert y * w - x * w == (y - x) * w;
  }

  // ---------------------------------------------------------------------
  // The per-slice numbers `drawWheel` uses

  /** What the drawing loop computes for one participant. */
  datatype SliceDraw = SliceDraw(start: real, end: real, mid: real, text: string,
                                 fontSize: real, innerColor: string, outerColor: string)

  /** What the loop body computes for participant `i`. */
  function DrawSlice(ps: seq<Participant>, i: nat, size: real, turn: real): (d: SliceDraw)
    requires i < |ps| && size > 0.0 && turn > 0.0 && IsHexColor(ps[i].color)
    ensures d.start == SliceStart(i, |ps|, turn) && d.end == SliceEnd(i, |ps|, turn)
    ensures 0.0 <= d.start < d.mid < d.end <= turn
    ensures |d.text| <= 8 && d.fontSize > 0.0
    ensures d.innerColor == ps[i].color && IsLowerHexColor(d.outerColor)
    ensures d.outerColor == GradientEnd(ps[i].color) && d.text == DisplayName(ps[i].name)
    ensures d.fontSize == FontSize(size, |ps|) && d.mid == SliceMid(i, |ps|, turn)
  {
    SliceLayout(i, |ps|, turn);
    SliceDraw(SliceStart(i, |ps|, turn), SliceEnd(i, |ps|, turn), SliceMid(i, |ps|, turn),
              DisplayName(ps[i].name), FontSize(size, |ps|), ps[i].color, GradientEnd(ps[i].color))
  }

  /** The `participants.forEach((p, i) => ...)` loop of `drawWheel`, as the
      list of per-slice values it draws with; `turn` is the full turn. */
  function DrawPlan(ps: seq<Participant>, size: real, turn: real): (plan: seq<SliceDraw>)
    requires size > 0.0 && turn > 0.0
    requires forall k :: 0 <= k < |ps| ==> IsHexColor(ps[k].color)
    ensures |plan| == |ps|
    ensures forall i :: 0 <= i < |plan| ==> plan[i] == DrawSlice(ps, i, size, turn)
  {
    seq(|ps|, i requires 0 <= i < |ps| => DrawSlice(ps, i, size, turn))
  }

  /** Drawn slices follow each other without gap or overlap and close the
      disc. */
  lemma DrawPlanTiles(ps: seq<Participant>, size: real, turn: real, i: nat)
    requires size > 0.0 && turn > 0.0
    requires forall k :: 0 <= k < |ps| ==> IsHexColor(ps[k].color)
    requires i < |ps|
    ensures var plan := DrawPlan(ps, size, turn);
      plan[0].start == 0.0 && plan[|ps| - 1].end == turn
      && (i + 1 < |ps| ==> plan[i].end == plan[i + 1].start)
  {
    var plan, n := DrawPlan(ps, size, turn), |ps|;
    SliceLayout(i, n, turn);
    var first, last := DrawSlice(ps, 0, size, turn), DrawSlice(ps, n - 1, size, turn);
    assert plan[0] == first && plan[n - 1] == last;
    if i + 1 < n {
      var here, next := DrawSlice(ps, i, size, turn), DrawSlice(ps, i + 1, size, turn);
      assert plan[i] == here && plan[i + 1] == next;
    }
  }
}
