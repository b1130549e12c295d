/** The placement tool's snapping arithmetic and its grid and rotation state
    (MapEdTransformTool). */
module TransformTool {

  import opened Vectors
  import opened Options
  import IconCamera

  // ---------------------------------------------------------------------------
  // The engine's float helpers, over the reals

  function Abs(x: real): real { if x < 0.0 then -x else x }

  /** Mathf.Sign: 1 for zero and positive numbers, -1 for negative ones. */
  function Sign(x: real): real { if x >= 0.0 then 1.0 else -1.0 }

  /** k copies of s. */
  function Times(k: int, s: real): real { (k as real) * s }

  /** x is a whole multiple of s. */
  ghost predicate IsMultiple(x: real, s: real)
  {
    exists k: int :: Times(k, s) == x
  }

  /** Mathf.Round: the nearest integer, and the even one of the two nearest
      when x is exactly halfway between them. */
  function Round(x: real): (n: int)
    ensures -0.5 <= x - (n as real) <= 0.5
    ensures (x - (n as real) == 0.5 || x - (n as real) == -0.5) ==> n % 2 == 0
  {
    var f := x.Floor;
    var frac := x - (f as real);
    if frac < 0.5 then f
    else if frac > 0.5 then f + 1
    else if f % 2 == 0 then f
    else f + 1
  }

  /** Rounding is determined by its two properties: any integer nearer than
      one half, or exactly one half away and even, is the rounded value. */
  lemma RoundUnique(x: real, m: int)
    requires -0.5 <= x - (m as real) <= 0.5
    requires (x - (m as real) == 0.5 || x - (m as real) == -0.5) ==> m % 2 == 0
    ensures m == Round(x)
  {
    // two integers within one half of x differ by at most one, and by one
    // only when x is midway between them, where both would have to be even
    var n := Round(x);
    ParityStep(n);
    ParityStep(m);
  }

  lemma ParityStep(n: int)
    ensures (n + 1) % 2 != n % 2
  {
  }

  /** The nearest whole multiple of cell to x (Mathf.Round(x / cell) * cell). */
  function SnapToCell(x: real, cell: real): (r: real)
    requires cell != 0.0
    ensures IsMultiple(r, cell)
    ensures Abs(r - x) <= Abs(cell) / 2.0
  {
    var k := Round(x / cell);
    var r := Times(k, cell);
    NearestMultiple(x, cell, k);
    r
  }

  lemma NearestMultiple(x: real, cell: real, k: int)
    requires cell != 0.0
    requires -0.5 <= x / cell - (k as real) <= 0.5
    ensures Abs(Times(k, cell) - x) <= Abs(cell) / 2.0
  {
    var q := x / cell;
    var d := q - (k as real);
    assert q * cell == x;
    assert Times(k, cell) - x == -(d * cell) by {
      assert Times(k, cell) - x == (k as real) * cell - q * cell;
    }
    HalfBound(d, cell);
  }

  lemma HalfBound(d: real, c: real)
    requires -0.5 <= d <= 0.5 && c != 0.0
    ensures Abs(-(d * c)) <= Abs(c) / 2.0
  {
    if c > 0.0 {
      if d >= 0.0 {
        assert d * c <= 0.5 * c;
      } else {
        assert -(d * c) <= 0.5 * c;
      }
    } else {
      if d >= 0.0 {
        assert -(d * c) <= 0.5 * -c;
      } else {
        assert d * c <= 0.5 * -c;
      }
    }
  }

  // ---------------------------------------------------------------------------
  // CalculateSnappedValue

  /** A drag amount cut down to whole snap steps, and the part cut off. */
  function CalculateSnappedValue(value: real, snapValue: real): (r: (real, real))
    ensures snapValue <= 0.0 ==> r == (value, 0.0)
    ensures snapValue > 0.0 && Abs(value) <= snapValue ==> r == (0.0, 0.0)
    ensures snapValue > 0.0 && Abs(value) > snapValue ==>
      && IsMultiple(r.0, snapValue) && r.0 != 0.0
      && (value > 0.0 <==> r.0 > 0.0)
      && Abs(r.0) <= Abs(value)
      && Abs(r.0) + r.1 == Abs(value)
      && 0.0 <= r.1 < snapValue
  {
    if snapValue <= 0.0 then (value, 0.0)
    else
      var currentAmountAbs := Abs(value);
      if currentAmountAbs > snapValue then
        var steps := (currentAmountAbs / snapValue).Floor;
        var remainder := currentAmountAbs - snapValue * (steps as real);
        var snapped := snapValue * (Sign(value) * (steps as real));
        SnapSteps(currentAmountAbs, snapValue);
        SnappedMultiple(value, snapValue, steps);
        (snapped, remainder)
      else
        (0.0, 0.0)
  }

  /** With a positive step and an amount of more than one step, the whole
      number of steps is at least one and leaves less than a step over. */
  lemma SnapSteps(a: real, s: real)
    requires s > 0.0 && a > s
    ensures (a / s).Floor >= 1
    ensures 0.0 <= a - s * ((a / s).Floor as real) < s
  {
    var q := a / s;
    var n := q.Floor;
    assert q * s == a;
    assert (q - 1.0) * s == a - s;
    NonPositiveFactor(q - 1.0, s);
    MulLe(n as real, q, s);
    var next := (n as real) + 1.0;
    MulLt(q, next, s);
    assert a < next * s by {
      calc {
        a;
      ==
        q * s;
      <
        next * s;
      }
    }
    assert a < (n as real) * s + s;
    assert next * s == (n as real) * s + s;
    assert s * (n as real) == (n as real) * s;
  }

  lemma NonPositiveFactor(d: real, s: real)
    requires s > 0.0
    ensures d <= 0.0 ==> d * s <= 0.0
  {
    if d <= 0.0 {
      MulLe(d, 0.0, s);
    }
  }

  lemma MulLe(a: real, b: real, k: real)
    requires a <= b && k > 0.0
    ensures a * k <= b * k
  {
    assert b * k - a * k == (b - a) * k;
  }

  lemma MulLt(a: real, b: real, k: real)
    requires a < b && k > 0.0
    ensures a * k < b * k
  {
    assert b * k - a * k == (b - a) * k;
  }

  lemma SnappedMultiple(value: real, s: real, n: int)
    requires s > 0.0 && n >= 1 && value != 0.0
    ensures var r := s * (Sign(value) * (n as real));
      && IsMultiple(r, s) && r != 0.0
      && (value > 0.0 <==> r > 0.0)
      && Abs(r) == s * (n as real)
  {
    var r := s * (Sign(value) * (n as real));
    PositiveMul(s, n as real);
    if value >= 0.0 {
      assert r == s * (n as real);
      assert Times(n, s) == r;
    } else {
      assert r == -(s * (n as real));
      assert Times(-n, s) == r;
    }
  }

  lemma PositiveMul(a: real, b: real)
    requires a > 0.0 && b > 0.0
    ensures a * b > 0.0
  {
  }

  // ---------------------------------------------------------------------------
  // Modifier keys and the snap fraction

  datatype Modifiers = Modifiers(shift: bool, control: bool, alt: bool)

  /** A quarter step with shift, control and alt all held, a half step with
      control, otherwise a whole step. */
  function SnapFraction(keys: Modifiers): (frac: real)
    ensures frac == 0.25 <==> keys.shift && keys.control && keys.alt
    ensures frac == 0.5 <==> keys.control && !(keys.shift && keys.alt)
    ensures frac == 1.0 <==> !keys.control
  {
    if keys.shift && keys.control && keys.alt then 0.25
    else if keys.control then 0.5
    else 1.0
  }

  /** The drag of the selection is cut down to whole (fractional) steps on
      each axis. */
  function SnappedDelta(delta: Vec3, snapValue: real): (r: Vec3)
    ensures snapValue > 0.0 ==>
      IsMultiple(r.x, snapValue) && IsMultiple(r.y, snapValue) && IsMultiple(r.z, snapValue)
    ensures snapValue > 0.0 ==>
      Abs(r.x) <= Abs(delta.x) && Abs(r.y) <= Abs(delta.y) && Abs(r.z) <= Abs(delta.z)
    ensures snapValue <= 0.0 ==> r == delta
  {
    var x := CalculateSnappedValue(delta.x, snapValue).0;
    var y := CalculateSnappedValue(delta.y, snapValue).0;
    var z := CalculateSnappedValue(delta.z, snapValue).0;
    assert snapValue > 0.0 ==> IsMultiple(0.0, snapValue) by {
      if snapValue > 0.0 { assert Times(0, snapValue) == 0.0; }
    }
    Vec3(x, y, z)
  }

  /** Where the preview object goes for a hit on the grid plane: x and z on
      the nearest (fractional) grid step, y on the grid level. */
  function PreviewPosition(hit: Vec3, moveSnap: real, keys: Modifiers, gridLevel: real): (p: Vec3)
    requires moveSnap != 0.0
    ensures p.y == gridLevel
    ensures IsMultiple(p.x, moveSnap * SnapFraction(keys)) && IsMultiple(p.z, moveSnap * SnapFraction(keys))
    ensures Abs(p.x - hit.x) <= Abs(moveSnap * SnapFraction(keys)) / 2.0
    ensures Abs(p.z - hit.z) <= Abs(moveSnap * SnapFraction(keys)) / 2.0
  {
    var snapValue := moveSnap * SnapFraction(keys);
    Vec3(SnapToCell(hit.x, snapValue), gridLevel, SnapToCell(hit.z, snapValue))
  }

  /** Where the grid goes under the mouse: the ray origin snapped to whole
      cells in x and z, at the grid level. */
  function GridPosition(rayOrigin: Vec3, snapping: real, gridLevel: real): (p: Vec3)
    requires snapping != 0.0
    ensures p.y == gridLevel && IsMultiple(p.x, snapping) && IsMultiple(p.z, snapping)
  {
    Vec3(SnapToCell(rayOrigin.x, snapping), gridLevel, SnapToCell(rayOrigin.z, snapping))
  }

  // ---------------------------------------------------------------------------
  // Grid level stepping

  /** The grid level after one step in direction dir: to the nearest whole
      cell (mode 0), by half a cell (1), by a quarter cell (2), or unchanged. */
  function NextGridLevel(level: real, dir: real, snapping: int, cell: real): (r: real)
    requires snapping == 0 ==> cell != 0.0
    ensures snapping == 0 ==> IsMultiple(r, cell)
  {
    if snapping == 0 then SnapToCell(level + dir * cell, cell)
    else if snapping == 1 then level + (dir * cell) * 0.5
    else if snapping == 2 then level + (dir * cell) * 0.25
    else level
  }

  lemma NextGridLevelModes(level: real, dir: real, snapping: int, cell: real)
    requires snapping == 0 ==> cell != 0.0
    ensures snapping == 0 ==> IsMultiple(NextGridLevel(level, dir, snapping, cell), cell)
    ensures snapping == 0 ==>
      Abs(NextGridLevel(level, dir, snapping, cell) - (level + dir * cell)) <= Abs(cell) / 2.0
    ensures snapping == 1 ==> NextGridLevel(level, dir, snapping, cell) == level + dir * cell / 2.0
    ensures snapping == 2 ==> NextGridLevel(level, dir, snapping, cell) == level + dir * cell / 4.0
    ensures snapping !in {0, 1, 2} ==> NextGridLevel(level, dir, snapping, cell) == level
  {
  }

  /** Stepping the level up by a whole cell from a whole-cell level and back
      down again returns to the same level. */
  lemma WholeStepsReturn(k: int, cell: real)
    requires cell != 0.0
    ensures NextGridLevel(NextGridLevel(Times(k, cell), 1.0, 0, cell), -1.0, 0, cell) == Times(k, cell)
  {
    SnapOnMultiple(k + 1, cell);
    assert Times(k, cell) + 1.0 * cell == Times(k + 1, cell);
    SnapOnMultiple(k, cell);
    assert Times(k + 1, cell) + -1.0 * cell == Times(k, cell);
  }

  /** A value already on a cell boundary snaps to itself. */
  lemma SnapOnMultiple(k: int, cell: real)
    requires cell != 0.0
    ensures SnapToCell(Times(k, cell), cell) == Times(k, cell)
  {
    assert Times(k, cell) / cell == k as real;
    RoundUnique(k as real, k);
  }

  /** The horizontal plane the preview objects are placed on, at height y. */
  function GridPlane(y: real): IconCamera.Plane
  {
    IconCamera.Plane(Up, -y)
  }

  const Up := Vec3(0.0, 1.0, 0.0)

  /** A point's signed distance to the grid plane is its height above the
      grid level. */
  lemma GridPlaneHeight(y: real, p: Vec3)
    ensures GridPlane(y).normal == Up
    ensures IconCamera.SignedDistance(GridPlane(y), p) == p.y - y
  {
  }

  // ---------------------------------------------------------------------------
  // The tool's state

  /** The grid level, the rotation accumulator, the placement plane, the
      grid object's position (None while no grid is shown), the preview
      object's position, and the positions and yaw angles of the selected
      objects. */
  class Tool {
    var gridLevel: real
    var rotation: real
    var plane: IconCamera.Plane
    var grid: Option<Vec3>
    var previewPosition: Vec3

    /** A fresh tool: level 0, no rotation, no grid. The plane is the one
        ShowGrid sets at level 0; the source leaves the field at
        default(Plane) until OnToolGUI first calls ShowGrid, which it does
        before any placement reads the plane. */
    constructor ()
      ensures gridLevel == 0.0 && rotation == 0.0 && grid == None
      ensures plane == GridPlane(0.0)
    {
      gridLevel := 0.0;
      rotation := 0.0;
      plane := GridPlane(0.0);
      grid := None;
      previewPosition := Zero;
    }

    /** The placement plane is always the horizontal plane at the grid level,
        and a shown grid sits at that level. */
    predicate Valid()
      reads this
    {
      plane == GridPlane(gridLevel) && (grid.Some? ==> grid.value.y == gridLevel)
    }

    /** The accumulator is updated before the tool checks that it is active
        and that something is selected; only then are the selected objects
        turned about the vertical axis. */
    method RotateObjects(frac: real, rotateSnap: real, active: bool, yaw: array<real>)
      modifies this, yaw
      ensures rotation == old(rotation) + rotateSnap * frac
      ensures gridLevel == old(gridLevel) && plane == old(plane) && grid == old(grid)
      ensures previewPosition == old(previewPosition)
      ensures forall i :: 0 <= i < yaw.Length ==>
        yaw[i] == if active then old(yaw[i]) + rotateSnap * frac else old(yaw[i])
    {
      var delta := rotateSnap * frac;
      rotation := rotation + delta;
      if !active || yaw.Length == 0 {
        return;
      }
      for i := 0 to yaw.Length
        modifies yaw
        invariant forall j :: 0 <= j < i ==> yaw[j] == old(yaw[j]) + delta
        invariant forall j :: i <= j < yaw.Length ==> yaw[j] == old(yaw[j])
      {
        yaw[i] := yaw[i] + delta;
      }
    }

    /** Clears the accumulator first, then, when the tool is active, the
        rotation of every selected object. */
    method ResetRotation(active: bool, yaw: array<real>)
      modifies this, yaw
      ensures rotation == 0.0
      ensures gridLevel == old(gridLevel) && plane == old(plane) && grid == old(grid)
      ensures previewPosition == old(previewPosition)
      ensures forall i :: 0 <= i < yaw.Length ==> yaw[i] == if active then 0.0 else old(yaw[i])
    {
      rotation := 0.0;
      if !active || yaw.Length == 0 {
        return;
      }
      for i := 0 to yaw.Length
        modifies yaw
        invariant forall j :: 0 <= j < i ==> yaw[j] == 0.0
        invariant forall j :: i <= j < yaw.Length ==> yaw[j] == old(yaw[j])
      {
        yaw[i] := 0.0;
      }
    }

    method ResetGridLevel()
      modifies this
      ensures gridLevel == 0.0 && plane == GridPlane(0.0)
      ensures grid == if old(grid).Some? then Some(old(grid).value.(y := 0.0)) else None
      ensures rotation == old(rotation) && previewPosition == old(previewPosition)
      ensures Valid()
    {
      gridLevel := 0.0;
      plane := GridPlane(0.0);
      if grid.Some? {
        var pos := grid.value;
        pos := pos.(y := gridLevel);
        grid := Some(pos);
      }
    }

    /** Steps the grid level; the plane and the grid follow it, and the
        grid keeps its x and z. */
    method ChangeGridLevel(dir: real, snapping: int, gridCellSize: real)
      requires snapping == 0 ==> gridCellSize != 0.0
      modifies this
      ensures gridLevel == NextGridLevel(old(gridLevel), dir, snapping, gridCellSize)
      ensures plane == GridPlane(gridLevel)
      ensures grid == if old(grid).Some? then Some(old(grid).value.(y := gridLevel)) else None
      ensures rotation == old(rotation) && previewPosition == old(previewPosition)
      ensures Valid()
    {
      if snapping == 0 {
        var level := gridLevel;
        level := level + dir * gridCellSize;
        gridLevel := SnapToCell(level, gridCellSize);
      } else if snapping == 1 {
        var offs := (dir * gridCellSize) * 0.5;
        gridLevel := gridLevel + offs;
      } else if snapping == 2 {
        var offs := (dir * gridCellSize) * 0.25;
        gridLevel := gridLevel + offs;
      }
      plane := GridPlane(gridLevel);
      if grid.Some? {
        var pos := grid.value;
        pos := pos.(y := gridLevel);
        grid := Some(pos);
      }
    }

    /** Drags the selection by the handle's movement snapped to (fractional)
        steps when it changed, then, on a repaint with a positive step, moves
        the grid under the mouse. */
    method MoveSelectedObjects(selection: array<Vec3>, handleDelta: Vec3, changed: bool,
                               repaint: bool, rayOrigin: Vec3, moveSnap: real, keys: Modifiers)
      modifies this, selection
      ensures forall i :: 0 <= i < selection.Length ==>
        selection[i] == if changed then Add(old(selection[i]), SnappedDelta(handleDelta, moveSnap * SnapFraction(keys)))
                        else old(selection[i])
      ensures grid == if old(grid).Some? && repaint && moveSnap > 0.0
                      then Some(GridPosition(rayOrigin, moveSnap, gridLevel)) else old(grid)
      ensures gridLevel == old(gridLevel) && rotation == old(rotation) && plane == old(plane)
      ensures previewPosition == old(previewPosition)
      ensures old(Valid()) ==> Valid()
    {
      if changed {
        var snapValue := moveSnap;
        if keys.shift && keys.control && keys.alt {
          snapValue := snapValue * 0.25;
        } else if keys.control {
          snapValue := snapValue * 0.5;
        }
        var delta := SnappedDelta(handleDelta, snapValue);
        MoveAll(selection, delta);
      }
      if grid.Some? && repaint {
        var snapping := moveSnap;
        if snapping > 0.0 {
          grid := Some(GridPosition(rayOrigin, snapping, gridLevel));
        }
      }
    }

    /** Moves the preview object to the snapped hit point of the mouse ray
        on the grid plane, if the ray hits it, and on a repaint moves the
        grid under the mouse. Neither snap is guarded against a zero step. */
    method MovePreviewObject(hit: Option<Vec3>, repaint: bool, rayOrigin: Vec3, moveSnap: real, keys: Modifiers)
      requires moveSnap != 0.0
      modifies this
      ensures previewPosition == if hit.Some? then PreviewPosition(hit.value, moveSnap, keys, gridLevel)
                                  else old(previewPosition)
      ensures grid == if old(grid).Some? && repaint
                      then Some(GridPosition(rayOrigin, moveSnap, gridLevel)) else old(grid)
      ensures gridLevel == old(gridLevel) && rotation == old(rotation) && plane == old(plane)
      ensures old(Valid()) ==> Valid()
    {
      var snapping := moveSnap;
      if hit.Some? {
        var snapValue := snapping;
        if keys.shift && keys.control && keys.alt {
          snapValue := snapValue * 0.25;
        } else if keys.control {
          snapValue := snapValue * 0.5;
        }
        var worldPos := hit.value;
        worldPos := worldPos.(x := SnapToCell(worldPos.x, snapValue));
        worldPos := worldPos.(z := SnapToCell(worldPos.z, snapValue));
        worldPos := worldPos.(y := gridLevel);
        previewPosition := worldPos;
      }
      if grid.Some? && repaint {
        grid := Some(GridPosition(rayOrigin, snapping, gridLevel));
      }
    }
  }

  /** Adds delta to every selected object's position. */
  method MoveAll(selection: array<Vec3>, delta: Vec3)
    modifies selection
    ensures forall i :: 0 <= i < selection.Length ==> selection[i] == Add(old(selection[i]), delta)
  {
    for i := 0 to selection.Length
      invariant forall j :: 0 <= j < i ==> selection[j] == Add(old(selection[j]), delta)
      invariant forall j :: i <= j < selection.Length ==> selection[j] == old(selection[j])
    {
      selection[i] := Add(selection[i], delta);
    }
  }
}
