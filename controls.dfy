/**
 * The keyboard controls of main.py: the focal length the `=` and `-` keys change
 * within fixed bounds, and the fixed translation and rotation matrices the movement
 * keys apply to every model.
 */
module Controls {
  import opened Geometry
  import opened Transforms

  /** `focal_length = 500`: the focal length at start-up. */
  const INIT_FOCAL: int := 500
  /** `FOCAL_LENGTH_MIN` and `FOCAL_LENGTH_MAX`: the bounds `change_focal_and_draw` keeps. */
  const FOCAL_MIN: int := 100
  const FOCAL_MAX: int := 1000
  /** `FOCAL_STEP`: how much one press of `=` or `-` changes the focal length. */
  const FOCAL_STEP: int := 10
  /** `TRANSLATION_STEP`: how far one movement key moves the scene. */
  const TRANSLATION_STEP: real := 50.0

  /** The focal lengths `change_focal_and_draw` accepts. */
  predicate InFocalRange(f: int)
  {
    FOCAL_MIN <= f <= FOCAL_MAX
  }

  /**
   * The focal length after `change_focal_and_draw(delta)`: moved by `delta` when that
   * lands within the bounds, left as it was otherwise.
   */
  function NextFocal(f: int, delta: int): (r: int)
    ensures r == f || r == f + delta
    ensures InFocalRange(f) ==> InFocalRange(r)
    ensures InFocalRange(f + delta) ==> r == f + delta
  {
    if FOCAL_MIN <= f + delta <= FOCAL_MAX then f + delta else f
  }

  /** The bounds hold: a step past either bound is refused, and a refused step changes nothing. */
  lemma FocalClamps()
    ensures NextFocal(FOCAL_MAX, FOCAL_STEP) == FOCAL_MAX
    ensures NextFocal(FOCAL_MIN, -FOCAL_STEP) == FOCAL_MIN
    ensures NextFocal(FOCAL_MAX - FOCAL_STEP, FOCAL_STEP) == FOCAL_MAX
    ensures NextFocal(FOCAL_MIN + FOCAL_STEP, -FOCAL_STEP) == FOCAL_MIN
  {
  }

  /** An accepted step is undone by the opposite step. */
  lemma FocalUndo(f: int, delta: int)
    requires InFocalRange(f) && NextFocal(f, delta) != f
    ensures NextFocal(NextFocal(f, delta), -delta) == f
  {
  }

  /** The keys bound in main.py, besides `<Escape>`. */
  datatype Key =
    | ZoomIn            // '='
    | ZoomOut           // '-'
    | Forward           // 'w'
    | Backward          // 's'
    | Left              // 'a'
    | Right             // 'd'
    | Up                // '<space>'
    | Down              // '<Shift_L>'
    | CounterClockwise  // 'z'
    | Clockwise         // 'x'
    | PitchUp           // 'r'
    | PitchDown         // 'f'
    | TurnLeft          // 'e'
    | TurnRight         // 'q'

  /** What a key does: change the focal length, or transform every model by a matrix. */
  datatype Action = Zoom(delta: int) | Move(matrix: Mat4)

  /** The node array after an action: transformed by a movement, untouched by a zoom. */
  function Moved(action: Action, nodes: seq<Vec4>): seq<Vec4>
  {
    match action
    case Move(m) => MulRows(nodes, m)
    case Zoom(_) => nodes
  }

  /** The focal change of a key: one step up or down for the zoom keys, none for the others. */
  function ZoomDelta(key: Key): int
  {
    match key
    case ZoomIn => FOCAL_STEP
    case ZoomOut => -FOCAL_STEP
    case _ => 0
  }

  /**
   * The binding of each key: the zoom keys change the focal length by one step up or
   * down, every other key moves the scene by its fixed matrix. `sin` and `cos` are
   * those of `ROTATION_STEP`, five degrees: the counter-clockwise, pitch-up and left
   * rotations use the angle, the others its negation, whose sine is `-sin` and whose
   * cosine is `cos`.
   */
  function Binding(key: Key, sin: real, cos: real): Action
  {
    match key
    case ZoomIn => Zoom(ZoomDelta(key))
    case ZoomOut => Zoom(ZoomDelta(key))
    case Forward => Move(Translation(0.0, 0.0, -TRANSLATION_STEP))
    case Backward => Move(Translation(0.0, 0.0, TRANSLATION_STEP))
    case Left => Move(Translation(TRANSLATION_STEP, 0.0, 0.0))
    case Right => Move(Translation(-TRANSLATION_STEP, 0.0, 0.0))
    case Up => Move(Translation(0.0, -TRANSLATION_STEP, 0.0))
    case Down => Move(Translation(0.0, TRANSLATION_STEP, 0.0))
    case CounterClockwise => Move(Rotation(sin, cos, Z))
    case Clockwise => Move(Rotation(-sin, cos, Z))
    case PitchUp => Move(Rotation(sin, cos, X))
    case PitchDown => Move(Rotation(-sin, cos, X))
    case TurnLeft => Move(Rotation(sin, cos, Y))
    case TurnRight => Move(Rotation(-sin, cos, Y))
  }

  /** Exactly the zoom keys change the focal length, by one step; the movement keys leave it. */
  lemma ZoomKeys(key: Key, sin: real, cos: real)
    ensures Binding(key, sin, cos).Zoom? <==> key in {ZoomIn, ZoomOut}
    ensures Binding(key, sin, cos).Zoom? ==> Binding(key, sin, cos).delta == ZoomDelta(key)
    ensures Binding(key, sin, cos).Zoom? ==> Binding(key, sin, cos).delta in {FOCAL_STEP, -FOCAL_STEP}
    ensures Binding(key, sin, cos).Move? ==> ZoomDelta(key) == 0
  {
  }

  /** The key bound to the reverse action. */
  function Opposite(key: Key): (o: Key)
    ensures o != key
  {
    match key
    case ZoomIn => ZoomOut
    case ZoomOut => ZoomIn
    case Forward => Backward
    case Backward => Forward
    case Left => Right
    case Right => Left
    case Up => Down
    case Down => Up
    case CounterClockwise => Clockwise
    case Clockwise => CounterClockwise
    case PitchUp => PitchDown
    case PitchDown => PitchUp
    case TurnLeft => TurnRight
    case TurnRight => TurnLeft
  }

  /** Opposition is symmetric, and the opposite key changes the same thing. */
  lemma OppositePairs(key: Key, sin: real, cos: real)
    ensures Opposite(Opposite(key)) == key
    ensures Binding(key, sin, cos).Zoom? <==> Binding(Opposite(key), sin, cos).Zoom?
    ensures ZoomDelta(Opposite(key)) == -ZoomDelta(key)
  {
  }

  /**
   * A movement key followed by its opposite puts every point back where it was; for the
   * rotation keys this needs `sin` and `cos` to be those of one angle.
   */
  lemma OppositeUndoes(key: Key, sin: real, cos: real, p: Vec4)
    requires sin * sin + cos * cos == 1.0
    requires Binding(key, sin, cos).Move?
    ensures Binding(Opposite(key), sin, cos).Move?
    ensures Mul(Mul(p, Binding(key, sin, cos).matrix), Binding(Opposite(key), sin, cos).matrix) == p
  {
    if key in {Forward, Backward, Left, Right, Up, Down} {
      TranslationKeyUndone(key, sin, cos, p);
    } else {
      RotationKeyUndone(key, sin, cos, p);
    }
  }

  /** The translation keys: the opposite key translates by the negated offset. */
  lemma TranslationKeyUndone(key: Key, sin: real, cos: real, p: Vec4)
    requires key in {Forward, Backward, Left, Right, Up, Down}
    ensures Binding(Opposite(key), sin, cos).Move?
    ensures Mul(Mul(p, Binding(key, sin, cos).matrix), Binding(Opposite(key), sin, cos).matrix) == p
  {
    var s := TRANSLATION_STEP;
    match key {
      case Forward => TranslationUndo(0.0, 0.0, -s, p);
      case Backward => TranslationUndo(0.0, 0.0, s, p);
      case Left => TranslationUndo(s, 0.0, 0.0, p);
      case Right => TranslationUndo(-s, 0.0, 0.0, p);
      case Up => TranslationUndo(0.0, -s, 0.0, p);
      case Down => TranslationUndo(0.0, s, 0.0, p);
    }
  }

  /** The rotation keys: the opposite key rotates about the same axis by the negated angle. */
  lemma RotationKeyUndone(key: Key, sin: real, cos: real, p: Vec4)
    requires sin * sin + cos * cos == 1.0
    requires key in {CounterClockwise, Clockwise, PitchUp, PitchDown, TurnLeft, TurnRight}
    ensures Binding(Opposite(key), sin, cos).Move?
    ensures Mul(Mul(p, Binding(key, sin, cos).matrix), Binding(Opposite(key), sin, cos).matrix) == p
  {
    var (s, axis) := match key
      case CounterClockwise => (sin, Z)
      case Clockwise => (-sin, Z)
      case PitchUp => (sin, X)
      case PitchDown => (-sin, X)
      case TurnLeft => (sin, Y)
      case _ => (-sin, Y);
    assert s * s == sin * sin;
    assert Binding(key, sin, cos).matrix == Rotation(s, cos, axis);
    assert Binding(Opposite(key), sin, cos).matrix == Rotation(-s, cos, axis);
    RotationUndo(s, cos, axis, p);
  }

  /** The same for a whole node array. */
  lemma OppositeUndoesRows(key: Key, sin: real, cos: real, nodes: seq<Vec4>)
    requires sin * sin + cos * cos == 1.0
    requires Binding(key, sin, cos).Move?
    ensures Binding(Opposite(key), sin, cos).Move?
    ensures MulRows(MulRows(nodes, Binding(key, sin, cos).matrix), Binding(Opposite(key), sin, cos).matrix) == nodes
  {
    OppositePairs(key, sin, cos);
    var m1, m2 := Binding(key, sin, cos).matrix, Binding(Opposite(key), sin, cos).matrix;
    var back := MulRows(MulRows(nodes, m1), m2);
    forall k | 0 <= k < |nodes|
      ensures back[k] == nodes[k]
    {
      OppositeUndoes(key, sin, cos, nodes[k]);
    }
    assert back == nodes;
  }

  /**
   * The translation keys move a point (x, y, z, 1) by one step along one axis: `w`
   * brings the scene closer, `a` moves it right (the camera left), `<space>` moves it down.
   */
  lemma TranslationKeysMove(p: Vec4, sin: real, cos: real)
    requires p.w == 1.0
    ensures Mul(p, Binding(Forward, sin, cos).matrix) == p.(z := p.z - TRANSLATION_STEP)
    ensures Mul(p, Binding(Backward, sin, cos).matrix) == p.(z := p.z + TRANSLATION_STEP)
    ensures Mul(p, Binding(Left, sin, cos).matrix) == p.(x := p.x + TRANSLATION_STEP)
    ensures Mul(p, Binding(Right, sin, cos).matrix) == p.(x := p.x - TRANSLATION_STEP)
    ensures Mul(p, Binding(Up, sin, cos).matrix) == p.(y := p.y - TRANSLATION_STEP)
    ensures Mul(p, Binding(Down, sin, cos).matrix) == p.(y := p.y + TRANSLATION_STEP)
  {
    var s := TRANSLATION_STEP;
    TranslationMoves(0.0, 0.0, -s, p);
    TranslationMoves(0.0, 0.0, s, p);
    TranslationMoves(s, 0.0, 0.0, p);
    TranslationMoves(-s, 0.0, 0.0, p);
    TranslationMoves(0.0, -s, 0.0, p);
    TranslationMoves(0.0, s, 0.0, p);
  }

  /**
   * The rotation keys keep a point's distance from the camera and its `w`, and the
   * coordinate along their axis: z for `z`/`x`, x for `r`/`f`, y for `e`/`q`.
   */
  lemma RotationKeysTurn(key: Key, sin: real, cos: real, p: Vec4)
    requires sin * sin + cos * cos == 1.0
    requires key in {CounterClockwise, Clockwise, PitchUp, PitchDown, TurnLeft, TurnRight}
    ensures var q := Mul(p, Binding(key, sin, cos).matrix);
      && SquaredLength(q) == SquaredLength(p) && q.w == p.w
      && (key in {CounterClockwise, Clockwise} ==> q.z == p.z)
      && (key in {PitchUp, PitchDown} ==> q.x == p.x)
      && (key in {TurnLeft, TurnRight} ==> q.y == p.y)
  {
    var (s, axis) := match key
      case CounterClockwise => (sin, Z)
      case Clockwise => (-sin, Z)
      case PitchUp => (sin, X)
      case PitchDown => (-sin, X)
      case TurnLeft => (sin, Y)
      case _ => (-sin, Y);
    assert Binding(key, sin, cos).matrix == Rotation(s, cos, axis);
    RotationKeepsLength(s, cos, axis, p);
    RotationKeeps(s, cos, axis, p);
  }

  /** The focal length after pressing `keys` in turn from start-up. */
  function FocalAfter(keys: seq<Key>): int
  {
    if keys == [] then INIT_FOCAL
    else NextFocal(FocalAfter(keys[..|keys| - 1]), ZoomDelta(keys[|keys| - 1]))
  }

  /** One more key press applies that key's focal change to the focal length so far. */
  lemma FocalAfterSnoc(keys: seq<Key>, key: Key)
    ensures FocalAfter(keys + [key]) == NextFocal(FocalAfter(keys), ZoomDelta(key))
  {
    assert (keys + [key])[..|keys|] == keys;
  }

  /** Whatever keys are pressed, the focal length stays within the bounds and on the step grid. */
  lemma {:induction false} FocalOnGrid(keys: seq<Key>)
    ensures InFocalRange(FocalAfter(keys))
    ensures FocalAfter(keys) % FOCAL_STEP == 0
  {
    if keys != [] {
      FocalOnGrid(keys[..|keys| - 1]);
    }
  }

  /** `n` presses of one key. */
  function Presses(key: Key, n: nat): (keys: seq<Key>)
    ensures |keys| == n && forall i :: 0 <= i < n ==> keys[i] == key
  {
    seq(n, _ => key)
  }

  /** Pressing `=` n times lengthens the focal length by n steps, up to the upper bound. */
  lemma {:induction false} ZoomInPresses(n: nat)
    requires INIT_FOCAL + n * FOCAL_STEP <= FOCAL_MAX
    ensures FocalAfter(Presses(ZoomIn, n)) == INIT_FOCAL + n * FOCAL_STEP
  {
    if n > 0 {
      assert Presses(ZoomIn, n)[..n - 1] == Presses(ZoomIn, n - 1);
      ZoomInPresses(n - 1);
    }
  }

  /** Pressing `-` n times shortens the focal length by n steps, down to the lower bound. */
  lemma {:induction false} ZoomOutPresses(n: nat)
    requires INIT_FOCAL - n * FOCAL_STEP >= FOCAL_MIN
    ensures FocalAfter(Presses(ZoomOut, n)) == INIT_FOCAL - n * FOCAL_STEP
  {
    if n > 0 {
      assert Presses(ZoomOut, n)[..n - 1] == Presses(ZoomOut, n - 1);
      ZoomOutPresses(n - 1);
    }
  }

  /** Every focal length within the bounds and on the step grid can be reached. */
  lemma FocalReachable(f: int)
    requires InFocalRange(f) && f % FOCAL_STEP == 0
    ensures exists keys :: FocalAfter(keys) == f
  {
    if f >= INIT_FOCAL {
      var n := (f - INIT_FOCAL) / FOCAL_STEP;
      ZoomInPresses(n);
      assert FocalAfter(Presses(ZoomIn, n)) == f;
    } else {
      var n := (INIT_FOCAL - f) / FOCAL_STEP;
      ZoomOutPresses(n);
      assert FocalAfter(Presses(ZoomOut, n)) == f;
    }
  }
}
