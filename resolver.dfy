/** The spin arithmetic of App.tsx: the new cumulative rotation and the
    participant the fixed pointer selects. Rotation is in degrees. */
module Resolver {
  import Js
  import Wheel

  /** Full turns every spin adds before its random remainder. */
  const FullTurns: int := 14

  /** Angle of the pointer in the wheel's own, unrotated frame (straight up). */
  const PointerAngle: real := 270.0

  /** `rotation + 14 * 360 + u * 360` for a draw `u` in [0, 1). */
  function SpinTarget(rotation: real, u: real): (target: real)
    requires 0.0 <= u < 1.0
    ensures 5040.0 <= target - rotation < 5400.0
  {
    rotation + (FullTurns * 360) as real + u * 360.0
  }

  /** Euclidean remainder modulo one turn. */
  function Mod360(x: real): (r: real)
    ensures 0.0 <= r < 360.0
  {
    x - 360.0 * (x / 360.0).Floor as real
  }

  /** `(270 - (rot % 360) + 360) % 360`: the wheel-local angle under the pointer. */
  function WinnerAngle(rot: real): (a: real)
    ensures 0.0 <= a < 360.0
  {
    Js.Rem360(PointerAngle - Js.Rem360(rot) + 360.0)
  }

  /** `Math.floor(angle / (360 / n)) % n`. */
  function WinnerIndex(rot: real, n: nat): (i: nat)
    requires n > 0
    ensures i < n
  {
    var k := (WinnerAngle(rot) / (360.0 / n as real)).Floor;
    assert k >= 0;
    k % n
  }

  /** Two angles of the same turn that differ by `k` whole turns are equal. */
  lemma SameTurn(x: real, y: real, k: int)
    requires 0.0 <= x < 360.0 && 0.0 <= y < 360.0
    requires x - y == 360.0 * k as real
    ensures x == y
  {
    assert -1 < k < 1;
  }

  /** The double remainder of the source is the mathematical pointer angle
      `(270 - rot) mod 360`, whatever the sign of `rot`. */
  lemma WinnerAngleIsPointerAngle(rot: real)
    ensures WinnerAngle(rot) == Mod360(PointerAngle - rot)
  {
    var t1 := Js.Truncate(rot / 360.0);
    var y := PointerAngle - Js.Rem360(rot) + 360.0;
    var t2 := Js.Truncate(y / 360.0);
    var t3 := ((PointerAngle - rot) / 360.0).Floor;
    assert Js.Rem360(rot) == rot - 360.0 * t1 as real;
    assert WinnerAngle(rot) == y - 360.0 * t2 as real;
    assert Mod360(PointerAngle - rot) == PointerAngle - rot - 360.0 * t3 as real;
    SameTurn(WinnerAngle(rot), Mod360(PointerAngle - rot), t1 + 1 - t2 + t3);
  }

  /** Adding whole turns to the rotation does not change the winner. */
  lemma WinnerIndexPeriodic(rot: real, k: int, n: nat)
    requires n > 0
    ensures WinnerIndex(rot + 360.0 * k as real, n) == WinnerIndex(rot, n)
  {
    var rot' := rot + 360.0 * k as real;
    WinnerAngleIsPointerAngle(rot);
    WinnerAngleIsPointerAngle(rot');
    var x, x' := PointerAngle - rot, PointerAngle - rot';
    var f, f' := (x / 360.0).Floor, (x' / 360.0).Floor;
    assert Mod360(x) == x - 360.0 * f as real;
    assert Mod360(x') == x' - 360.0 * f' as real;
    SameTurn(Mod360(x'), Mod360(x), f - f' - k);
  }

  /** With the wheel at rotation 270 the pointer sits at the start of slice
      0, so four players give index 0. */
  lemma WinnerAt270With4()
    ensures WinnerIndex(270.0, 4) == 0
  {
    assert Js.Rem360(270.0) == 270.0;
    assert Js.Rem360(360.0) == 0.0;
  }

  /** A remainder of a number already below the modulus is the number. */
  lemma ModSmall(k: int, n: int)
    requires 0 <= k < n
    ensures k % n == k
  {
  }

  /** The index formula divides by the width of one slice of the layout. */
  lemma WinnerIndexIsSliceFloor(rot: real, n: nat)
    requires n > 0
    ensures var k := (WinnerAngle(rot) / Wheel.SliceWidth(n, 360.0)).Floor;
      0 <= k < n && WinnerIndex(rot, n) == k
  {
    var a := WinnerAngle(rot);
    assert Wheel.SliceWidth(n, 360.0) == 360.0 / n as real;
    Wheel.SliceContaining(a, n, 360.0);
    var k := (a / Wheel.SliceWidth(n, 360.0)).Floor;
    ModSmall(k, n);
  }

  /** Cross-check with the wheel drawing: the resolved index is the slice
      whose [start, end) arc, in degrees, holds the angle under the pointer. */
  lemma WinnerIsSliceUnderPointer(rot: real, n: nat)
    requires n > 0
    ensures var i, a := WinnerIndex(rot, n), Mod360(PointerAngle - rot);
      Wheel.SliceStart(i, n, 360.0) <= a < Wheel.SliceEnd(i, n, 360.0)
  {
    WinnerAngleIsPointerAngle(rot);
    Wheel.SliceContaining(WinnerAngle(rot), n, 360.0);
    WinnerIndexIsSliceFloor(rot, n);
  }
}
