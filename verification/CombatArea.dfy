/** Areas of effect: a matrix of squares around a centre, turned to the direction of the attack. */
module CombatAreas {
  import opened Arithmetic

  const UINT16: int := 0x1_0000
  const MAP_MAX_LAYERS: nat := 16

  /** Columns grow to the east, rows to the south. */
  datatype Offset = Offset(dx: int, dy: int)

  datatype MatrixOperation = CopyOp | Mirror | Flip | Rotate90 | Rotate180 | Rotate270

  predicate Rotation(op: MatrixOperation) {
    op.Rotate90? || op.Rotate180? || op.Rotate270?
  }

  /** Where the operation is meant to move a square, seen from the centre. */
  function Turn(op: MatrixOperation, o: Offset): Offset {
    match op
    case CopyOp => o
    case Mirror => Offset(-o.dx, o.dy)
    case Flip => Offset(o.dx, -o.dy)
    case Rotate90 => Offset(-o.dy, o.dx)
    case Rotate180 => Offset(-o.dx, -o.dy)
    case Rotate270 => Offset(o.dy, -o.dx)
  }

  function Back(op: MatrixOperation): MatrixOperation {
    match op
    case Rotate90 => Rotate270
    case Rotate270 => Rotate90
    case _ => op
  }

  class MatrixArea {
    var centerX: nat
    var centerY: nat
    const rows: nat
    const cols: nat
    const data: array2<bool>

    ghost predicate Valid()
      reads this
    {
      Shaped() && centerX < UINT16 && centerY < UINT16
    }

    ghost predicate Shaped() {
      data.Length0 == rows && data.Length1 == cols
    }

    constructor (rows: nat, cols: nat)
      ensures Valid() && this.rows == rows && this.cols == cols && fresh(data) && centerX == centerY == 0
      ensures forall y, x :: 0 <= y < rows && 0 <= x < cols ==> !data[y, x]
    {
      this.rows, this.cols, centerX, centerY := rows, cols, 0, 0;
      data := new bool[rows, cols]((y, x) => false);
    }

    predicate Inside(y: int, x: int) {
      0 <= y < rows && 0 <= x < cols
    }

    predicate Value(y: int, x: int)
      requires Valid()
      reads this, data
    {
      Inside(y, x) && data[y, x]
    }

    /** The square at this offset from the centre is hit. */
    ghost predicate Hits(o: Offset)
      requires Valid()
      reads this, data
    {
      Value(centerY + o.dy, centerX + o.dx)
    }

    ghost predicate CenterInside()
      reads this
    {
      Inside(centerY, centerX)
    }

    ghost predicate Empty()
      requires Valid()
      reads this, data
    {
      forall y, x :: !Value(y, x)
    }

    method SetValue(y: nat, x: nat, value: bool)
      requires Valid() && Inside(y, x)
      modifies data
      ensures forall i, j :: Inside(i, j) ==> data[i, j] == if (i, j) == (y, x) then value else old(data[i, j])
    {
      data[y, x] := value;
    }

    /** setCenter takes uint16 arguments. */
    method SetCenter(y: int, x: int)
      modifies `centerX, `centerY
      ensures centerY == y % UINT16 && centerX == x % UINT16
    {
      centerY, centerX := y % UINT16, x % UINT16;
    }
  }

  function Plus(a: Offset, b: Offset): Offset {
    Offset(a.dx + b.dx, a.dy + b.dy)
  }

  /** The output is the turned input, moved by k. */
  ghost predicate Images(input: MatrixArea, output: MatrixArea, op: MatrixOperation, k: Offset)
    requires input.Valid() && output.Valid()
    reads input, input.data, output, output.data
  {
    forall o: Offset :: output.Hits(Plus(Turn(op, o), k)) <==> input.Hits(o)
  }

  // ----- copyArea ---------------------------------------------------------------------------------------

  /** The columns in reverse; the new centre column is computed from the number of rows. */
  method Mirrored(input: MatrixArea, output: MatrixArea)
    requires input.Valid() && output.Valid() && input != output && input.data != output.data
    requires output.rows >= input.rows && output.cols >= input.cols
    modifies output`centerX, output`centerY, output.data
    ensures output.Valid()
    ensures forall y, x :: input.Inside(y, x) ==> output.data[y, input.cols - 1 - x] == input.data[y, x]
    ensures forall y, x :: output.Inside(y, x) && !input.Inside(y, x) ==> output.data[y, x] == old(output.data[y, x])
    ensures output.centerY == input.centerY && output.centerX == (input.rows - 1 - input.centerX) % UINT16
  {
    for y := 0 to input.rows
      invariant output.Valid()
      invariant forall i, j :: 0 <= i < y && 0 <= j < input.cols ==> output.data[i, input.cols - 1 - j] == input.data[i, j]
      invariant forall i, j :: output.Inside(i, j) && !(0 <= i < y && j < input.cols) ==> output.data[i, j] == old(output.data[i, j])
    {
      var rx, x := 0, input.cols - 1;
      while x >= 0
        invariant output.Valid() && -1 <= x < input.cols && rx == input.cols - 1 - x
        invariant forall i, j :: 0 <= i < y && 0 <= j < input.cols ==> output.data[i, input.cols - 1 - j] == input.data[i, j]
        invariant forall j :: x < j < input.cols ==> output.data[y, input.cols - 1 - j] == input.data[y, j]
        invariant forall i, j :: output.Inside(i, j) && !((0 <= i < y && j < input.cols) || (i == y && j < rx)) ==>
                  output.data[i, j] == old(output.data[i, j])
      {
        output.data[y, rx] := input.data[y, x];
        rx, x := rx + 1, x - 1;
      }
    }
    output.SetCenter(input.centerY, input.rows - 1 - input.centerX);
  }

  /** The rows in reverse; the new centre row is computed from the number of columns. */
  method Flipped(input: MatrixArea, output: MatrixArea)
    requires input.Valid() && output.Valid() && input != output && input.data != output.data
    requires output.rows >= input.rows && output.cols >= input.cols
    modifies output`centerX, output`centerY, output.data
    ensures output.Valid()
    ensures forall y, x :: input.Inside(y, x) ==> output.data[input.rows - 1 - y, x] == input.data[y, x]
    ensures forall y, x :: output.Inside(y, x) && !input.Inside(y, x) ==> output.data[y, x] == old(output.data[y, x])
    ensures output.centerX == input.centerX && output.centerY == (input.cols - 1 - input.centerY) % UINT16
  {
    for x := 0 to input.cols
      invariant output.Valid()
      invariant forall i, j :: 0 <= i < input.rows && 0 <= j < x ==> output.data[input.rows - 1 - i, j] == input.data[i, j]
      invariant forall i, j :: output.Inside(i, j) && !(i < input.rows && 0 <= j < x) ==> output.data[i, j] == old(output.data[i, j])
    {
      var ry, y := 0, input.rows - 1;
      while y >= 0
        invariant output.Valid() && -1 <= y < input.rows && ry == input.rows - 1 - y
        invariant forall i, j :: 0 <= i < input.rows && 0 <= j < x ==> output.data[input.rows - 1 - i, j] == input.data[i, j]
        invariant forall i :: y < i < input.rows ==> output.data[input.rows - 1 - i, x] == input.data[i, x]
        invariant forall i, j :: output.Inside(i, j) && !((i < input.rows && 0 <= j < x) || (j == x && i < ry)) ==>
                  output.data[i, j] == old(output.data[i, j])
      {
        output.data[ry, x] := input.data[y, x];
        ry, y := ry + 1, y - 1;
      }
    }
    output.SetCenter(input.cols - 1 - input.centerY, input.centerX);
  }

  method Copied(input: MatrixArea, output: MatrixArea)
    requires input.Valid() && output.Valid() && input != output && input.data != output.data
    requires output.rows >= input.rows && output.cols >= input.cols
    modifies output`centerX, output`centerY, output.data
    ensures output.Valid()
    ensures forall y, x :: input.Inside(y, x) ==> output.data[y, x] == input.data[y, x]
    ensures forall y, x :: output.Inside(y, x) && !input.Inside(y, x) ==> output.data[y, x] == old(output.data[y, x])
    ensures output.centerX == input.centerX && output.centerY == input.centerY
  {
    for y := 0 to input.rows
      invariant output.Valid()
      invariant forall i, j :: 0 <= i < y && 0 <= j < input.cols ==> output.data[i, j] == input.data[i, j]
      invariant forall i, j :: output.Inside(i, j) && !(0 <= i < y && j < input.cols) ==> output.data[i, j] == old(output.data[i, j])
    {
      for x := 0 to input.cols
        invariant output.Valid()
        invariant forall i, j :: 0 <= i < y && 0 <= j < input.cols ==> output.data[i, j] == input.data[i, j]
        invariant forall j :: 0 <= j < x ==> output.data[y, j] == input.data[y, j]
        invariant forall i, j :: output.Inside(i, j) && !((0 <= i < y && j < input.cols) || (i == y && j < x)) ==>
                  output.data[i, j] == old(output.data[i, j])
      {
        output.data[y, x] := input.data[y, x];
      }
    }
    output.SetCenter(input.centerY, input.centerX);
  }

  /** The square of the input that a rotation about the output's middle takes to (y, x). */
  function Source(op: MatrixOperation, centerX: int, centerY: int, middle: int, y: int, x: int): Offset {
    var o := Turn(Back(op), Offset(x - middle, y - middle));
    Offset(centerX + o.dx, centerY + o.dy)
  }

  /** The output holds what the squares up to column x, and of column x up to row y, turn into. */
  ghost predicate TurnedUpTo(input: MatrixArea, output: MatrixArea, op: MatrixOperation, middle: int, x: int, y: int)
    requires input.Valid() && output.Valid()
    reads input, input.data, output, output.data
  {
    forall i, j :: output.Inside(i, j) ==>
                     var s := Source(op, input.centerX, input.centerY, middle, i, j);
                     output.data[i, j] == (input.Value(s.dy, s.dx) && (s.dx < x || (s.dx == x && s.dy < y)))
  }

  /** Squares turn into different squares. */
  lemma TurnsApart(op: MatrixOperation, o: Offset, cx: int, cy: int, middle: int, i: int, j: int)
    ensures var t := Turn(op, o);
            (i == t.dy + middle && j == t.dx + middle) <==> Source(op, cx, cy, middle, i, j) == Offset(cx + o.dx, cy + o.dy)
  {
  }

  /** One square written with its turned coordinates. */
  method RotateSquare(input: MatrixArea, output: MatrixArea, op: MatrixOperation, middle: int, x: nat, y: nat)
    requires input.Valid() && output.Valid() && input != output && input.data != output.data && input.Inside(y, x)
    requires Rotation(op) && input.CenterInside() && middle == Max(input.rows, input.cols) - 1
    requires output.rows == output.cols == 2 * Max(input.rows, input.cols)
    requires TurnedUpTo(input, output, op, middle, x, y)
    modifies output.data
    ensures TurnedUpTo(input, output, op, middle, x, y + 1)
  {
    hide Source, Turn;
    var o := Offset(x - input.centerX, y - input.centerY);
    var t := Turn(op, o);
    TurnStaysInside(op, o, middle);
    output.data[t.dy + middle, t.dx + middle] := input.data[y, x];
    forall i, j | output.Inside(i, j)
      ensures var s := Source(op, input.centerX, input.centerY, middle, i, j);
              output.data[i, j] == (input.Value(s.dy, s.dx) && (s.dx < x || (s.dx == x && s.dy < y + 1)))
    {
      TurnsApart(op, o, input.centerX, input.centerY, middle, i, j);
      assert Offset(input.centerX + o.dx, input.centerY + o.dy) == Offset(x, y);
    }
  }

  lemma TurnStaysInside(op: MatrixOperation, o: Offset, bound: int)
    requires -bound <= o.dx <= bound && -bound <= o.dy <= bound
    ensures -bound <= Turn(op, o).dx <= bound && -bound <= Turn(op, o).dy <= bound
  {
  }

  lemma NextColumn(input: MatrixArea, output: MatrixArea, op: MatrixOperation, middle: int, x: int)
    requires input.Valid() && output.Valid() && TurnedUpTo(input, output, op, middle, x, input.rows)
    ensures TurnedUpTo(input, output, op, middle, x + 1, 0)
  {
    hide Source;
  }

  lemma TurnedAt(input: MatrixArea, output: MatrixArea, op: MatrixOperation, middle: int, o: Offset)
    requires input.Valid() && output.Valid() && input.data != output.data && Rotation(op)
    requires input.rows == 0 || input.cols == 0 || input.CenterInside()
    requires output.rows == output.cols == 2 * Max(input.rows, input.cols) > 0
    requires middle == output.centerX == output.centerY == Max(input.rows, input.cols) - 1
    requires TurnedUpTo(input, output, op, middle, input.cols, 0)
    ensures output.Hits(Turn(op, o)) <==> input.Hits(o)
  {
    hide Source, Turn;
    var t := Turn(op, o);
    var (i, j) := (middle + t.dy, middle + t.dx);
    TurnsApart(op, o, input.centerX, input.centerY, middle, i, j);
    if input.Hits(o) {
      TurnStaysInside(op, o, middle);
      assert output.Inside(i, j);
    }
  }

  lemma TurnedAll(input: MatrixArea, output: MatrixArea, op: MatrixOperation, middle: int)
    requires input.Valid() && output.Valid() && input.data != output.data && Rotation(op)
    requires input.rows == 0 || input.cols == 0 || input.CenterInside()
    requires output.rows == output.cols == 2 * Max(input.rows, input.cols) > 0
    requires middle == output.centerX == output.centerY == Max(input.rows, input.cols) - 1
    requires TurnedUpTo(input, output, op, middle, input.cols, 0)
    ensures Images(input, output, op, Offset(0, 0))
  {
    hide TurnedUpTo, MatrixArea.Hits;
    forall o: Offset ensures output.Hits(Plus(Turn(op, o), Offset(0, 0))) <==> input.Hits(o) {
      TurnedAt(input, output, op, middle, o);
      assert Plus(Turn(op, o), Offset(0, 0)) == Turn(op, o);
    }
  }

  /** A rotation about the centre: nothing is written outside the output, which must be twice as
      wide as the longer side of the input. */
  method Rotated(input: MatrixArea, output: MatrixArea, op: MatrixOperation)
    requires input.Valid() && output.Valid() && input != output && input.data != output.data
    requires Rotation(op) && (input.rows == 0 || input.cols == 0 || input.CenterInside())
    requires output.rows == output.cols == 2 * Max(input.rows, input.cols) && 0 < output.rows < UINT16 && output.Empty()
    modifies output`centerX, output`centerY, output.data
    ensures output.Valid() && output.centerX == output.centerY == output.rows / 2 - 1
    ensures Images(input, output, op, Offset(0, 0)) && TurnedPlainly(input, output, op)
  {
    hide Images, TurnedPlainly;
    var middle := output.cols / 2 - 1;
    assert TurnedUpTo(input, output, op, middle, 0, 0) by {
      forall i, j | output.Inside(i, j) ensures !output.data[i, j] { assert !output.Value(i, j); }
    }
    hide TurnedUpTo;
    for x := 0 to input.cols
      invariant output.Valid() && TurnedUpTo(input, output, op, middle, x, 0)
    {
      for y := 0 to input.rows
        invariant output.Valid() && TurnedUpTo(input, output, op, middle, x, y)
      {
        RotateSquare(input, output, op, middle, x, y);
      }
      NextColumn(input, output, op, middle, x);
    }
    output.SetCenter(middle, middle);
    TurnedAll(input, output, op, middle);
    ImagesPlainly(input, output, op);
  }

  /** A quarter turn takes north to east, a half turn to south, three quarters to west. */
  function TurnedPlace(op: MatrixOperation, dx: int, dy: int): Offset {
    if op == Rotate90 then Offset(-dy, dx) else if op == Rotate180 then Offset(-dx, -dy) else Offset(dy, -dx)
  }

  ghost predicate TurnedPlainly(input: MatrixArea, output: MatrixArea, op: MatrixOperation)
    requires input.Valid() && output.Valid()
    reads input, input.data, output, output.data
  {
    forall dx, dy :: input.Hits(Offset(dx, dy)) <==> output.Hits(TurnedPlace(op, dx, dy))
  }

  lemma TurnIs(op: MatrixOperation, dx: int, dy: int)
    requires Rotation(op)
    ensures Plus(Turn(op, Offset(dx, dy)), Offset(0, 0)) == TurnedPlace(op, dx, dy)
  {
  }

  lemma ImagesPlainly(input: MatrixArea, output: MatrixArea, op: MatrixOperation)
    requires input.Valid() && output.Valid() && Rotation(op)
    ensures Images(input, output, op, Offset(0, 0)) ==> TurnedPlainly(input, output, op)
  {
    hide MatrixArea.Hits, Images, Turn, Plus, TurnedPlace;
    if Images(input, output, op, Offset(0, 0)) {
      forall dx, dy ensures input.Hits(Offset(dx, dy)) <==> output.Hits(TurnedPlace(op, dx, dy)) {
        ImageOf(input, output, op, Offset(0, 0), Offset(dx, dy));
        TurnIs(op, dx, dy);
      }
    }
  }

  // ----- The whole of copyArea --------------------------------------------------------------------------

  /** By how much a mirrored or flipped area is off: its new centre is computed with rows for columns
      and columns for rows. */
  function Shift(op: MatrixOperation, rows: int, cols: int, centerY: int, centerX: int): Offset {
    match op
    case Mirror => Offset(cols - 1 - centerX - (rows - 1 - centerX) % UINT16, 0)
    case Flip => Offset(0, rows - 1 - centerY - (cols - 1 - centerY) % UINT16)
    case _ => Offset(0, 0)
  }

  function ShiftOf(op: MatrixOperation, input: MatrixArea): Offset
    reads input
  {
    Shift(op, input.rows, input.cols, input.centerY, input.centerX)
  }

  /** Mirroring and flipping are about the centre exactly for square areas. */
  lemma ShiftZero(op: MatrixOperation, rows: int, cols: int, centerY: int, centerX: int)
    requires 0 <= centerY < rows < UINT16 && 0 <= centerX < cols < UINT16
    ensures (op.Mirror? || op.Flip?) ==> (Shift(op, rows, cols, centerY, centerX) == Offset(0, 0) <==> rows == cols)
  {
  }

  /** CombatArea::copyArea into an empty area. */
  method CopyArea(input: MatrixArea, output: MatrixArea, op: MatrixOperation)
    requires input.Valid() && output.Valid() && input != output && input.data != output.data && output.Empty()
    requires output.rows >= input.rows && output.cols >= input.cols
    requires Rotation(op) ==> input.rows == 0 || input.cols == 0 || input.CenterInside()
    requires Rotation(op) ==> output.rows == output.cols == 2 * Max(input.rows, input.cols) && 0 < output.rows < UINT16
    modifies output`centerX, output`centerY, output.data
    ensures output.Valid()
    ensures Images(input, output, op, ShiftOf(op, input))
    ensures op.Mirror? ==> output.centerY == input.centerY && output.centerX == (input.rows - 1 - input.centerX) % UINT16
    ensures op.Flip? ==> output.centerX == input.centerX && output.centerY == (input.cols - 1 - input.centerY) % UINT16
    ensures Rotation(op) ==> output.CenterInside()
  {
    hide TurnedUpTo, Source, Images, Turn, MatrixArea.Empty;
    EmptyData(output);
    match op {
      case CopyOp =>
        Copied(input, output);
        CopiedHits(input, output);
      case Mirror =>
        Mirrored(input, output);
        MirroredHits(input, output);
      case Flip =>
        Flipped(input, output);
        FlippedHits(input, output);
      case _ =>
        Rotated(input, output, op);
    }
  }

  lemma EmptyData(area: MatrixArea)
    requires area.Valid() && area.Empty()
    ensures forall y, x :: area.Inside(y, x) ==> !area.data[y, x]
  {
    forall y, x | area.Inside(y, x) ensures !area.data[y, x] { assert !area.Value(y, x); }
  }

  lemma CopiedHits(input: MatrixArea, output: MatrixArea)
    requires input.Valid() && output.Valid() && output.rows >= input.rows && output.cols >= input.cols
    requires forall y, x :: input.Inside(y, x) ==> output.data[y, x] == input.data[y, x]
    requires forall y, x :: output.Inside(y, x) && !input.Inside(y, x) ==> !output.data[y, x]
    requires output.centerY == input.centerY && output.centerX == input.centerX
    ensures Images(input, output, CopyOp, Offset(0, 0))
  {
  }

  lemma MirroredHits(input: MatrixArea, output: MatrixArea)
    requires input.Valid() && output.Valid() && output.rows >= input.rows && output.cols >= input.cols
    requires forall y, x :: input.Inside(y, x) ==> output.data[y, input.cols - 1 - x] == input.data[y, x]
    requires forall y, x :: output.Inside(y, x) && !input.Inside(y, x) ==> !output.data[y, x]
    requires output.centerY == input.centerY && output.centerX == (input.rows - 1 - input.centerX) % UINT16
    ensures Images(input, output, Mirror, ShiftOf(Mirror, input))
  {
    forall o: Offset ensures output.Hits(Plus(Turn(Mirror, o), ShiftOf(Mirror, input))) <==> input.Hits(o) {
      var (y, x) := (input.centerY + o.dy, input.centerX + o.dx);
      var p := Plus(Turn(Mirror, o), ShiftOf(Mirror, input));
      assert output.centerX + p.dx == input.cols - 1 - x && output.centerY + p.dy == y;
      assert input.Inside(y, x) <==> input.Inside(y, input.cols - 1 - x);
    }
  }

  lemma FlippedHits(input: MatrixArea, output: MatrixArea)
    requires input.Valid() && output.Valid() && output.rows >= input.rows && output.cols >= input.cols
    requires forall y, x :: input.Inside(y, x) ==> output.data[input.rows - 1 - y, x] == input.data[y, x]
    requires forall y, x :: output.Inside(y, x) && !input.Inside(y, x) ==> !output.data[y, x]
    requires output.centerX == input.centerX && output.centerY == (input.cols - 1 - input.centerY) % UINT16
    ensures Images(input, output, Flip, ShiftOf(Flip, input))
  {
    forall o: Offset ensures output.Hits(Plus(Turn(Flip, o), ShiftOf(Flip, input))) <==> input.Hits(o) {
      var (y, x) := (input.centerY + o.dy, input.centerX + o.dx);
      var p := Plus(Turn(Flip, o), ShiftOf(Flip, input));
      assert output.centerY + p.dy == input.rows - 1 - y && output.centerX + p.dx == x;
      assert input.Inside(y, x) <==> input.Inside(input.rows - 1 - y, x);
    }
  }

  /** A mirror image that is off by k is not the mirror image, unless nothing is hit at all. */
  lemma ShiftedIsWrong(input: MatrixArea, output: MatrixArea, op: MatrixOperation, k: Offset, o: Offset)
    requires input.Valid() && output.Valid() && input.Hits(o) && k != Offset(0, 0)
    requires (op.Mirror? && k.dy == 0) || (op.Flip? && k.dx == 0) || op.Rotate180?
    requires Images(input, output, op, k)
    ensures !Images(input, output, op, Offset(0, 0))
  {
    hide Images;
    if Images(input, output, op, Offset(0, 0)) {
      var p := Marches(input, output, op, k, o, input.rows + input.cols);
    }
  }

  /** If it were both, every square hit would have another one k further on, without end. */
  lemma {:induction false} Marches(input: MatrixArea, output: MatrixArea, op: MatrixOperation, k: Offset, o: Offset, n: nat)
    returns (p: Offset)
    requires input.Valid() && output.Valid() && input.Hits(o)
    requires (op.Mirror? && k.dy == 0) || (op.Flip? && k.dx == 0) || op.Rotate180?
    requires Images(input, output, op, k) && Images(input, output, op, Offset(0, 0))
    ensures input.Hits(p)
    ensures (k.dx > 0 ==> p.dx >= o.dx + n) && (k.dx < 0 ==> p.dx <= o.dx - n)
    ensures (k.dy > 0 ==> p.dy >= o.dy + n) && (k.dy < 0 ==> p.dy <= o.dy - n)
    decreases n
  {
    hide Images, MatrixArea.Hits;
    p := o;
    if n > 0 {
      var q := Marches(input, output, op, k, o, n - 1);
      p := Plus(q, k);
      OneFurther(input, output, op, k, q);
    }
  }

  lemma OneFurther(input: MatrixArea, output: MatrixArea, op: MatrixOperation, k: Offset, p: Offset)
    requires input.Valid() && output.Valid() && input.Hits(p)
    requires (op.Mirror? && k.dy == 0) || (op.Flip? && k.dx == 0) || op.Rotate180?
    requires Images(input, output, op, k) && Images(input, output, op, Offset(0, 0))
    ensures input.Hits(Plus(p, k))
  {
    hide MatrixArea.Hits;
    assert Plus(Turn(op, Plus(p, k)), k) == Plus(Turn(op, p), Offset(0, 0));
  }

  /** So the diagonal areas are right exactly when the matrix is square, or nothing is hit. */
  lemma RightIffSquare(input: MatrixArea, output: MatrixArea, op: MatrixOperation, made: MatrixOperation)
    requires input.Valid() && output.Valid() && input.CenterInside() && input.rows < UINT16 && input.cols < UINT16
    requires (op.Mirror? && made.Mirror?) || (op.Flip? && (made.Flip? || made.Rotate180?))
    requires Images(input, output, made, ShiftOf(op, input))
    ensures Images(input, output, made, Offset(0, 0)) <==> input.rows == input.cols || forall o: Offset :: !input.Hits(o)
  {
    hide MatrixArea.Hits;
    var k := ShiftOf(op, input);
    ShiftZero(op, input.rows, input.cols, input.centerY, input.centerX);
    if o: Offset :| input.Hits(o) {
      if k != Offset(0, 0) { ShiftedIsWrong(input, output, made, k, o); }
    } else {
      NothingHit(input, output, made, k);
    }
  }

  lemma NothingHit(input: MatrixArea, output: MatrixArea, op: MatrixOperation, k: Offset)
    requires input.Valid() && output.Valid() && Images(input, output, op, k) && forall o: Offset :: !input.Hits(o)
    requires op.Mirror? || op.Flip? || op.Rotate180?
    ensures Images(input, output, op, Offset(0, 0))
  {
    hide MatrixArea.Hits;
    forall o: Offset ensures !output.Hits(Plus(Turn(op, o), Offset(0, 0))) {
      var p := Turn(op, Offset(Turn(op, o).dx - k.dx, Turn(op, o).dy - k.dy));
      assert Plus(Turn(op, p), k) == Plus(Turn(op, o), Offset(0, 0));
    }
  }

  /** again is a copy of input, centre and all. */
  ghost predicate Same(input: MatrixArea, again: MatrixArea)
    requires input.Valid() && again.Valid()
    reads input, input.data, again, again.data
  {
    && again.rows == input.rows && again.cols == input.cols
    && again.centerY == input.centerY && again.centerX == input.centerX
    && forall y, x :: input.Inside(y, x) ==> again.data[y, x] == input.data[y, x]
  }

  ghost predicate SameSize(a: MatrixArea, b: MatrixArea) {
    a.Shaped() && b.Shaped() && a.rows == b.rows && a.cols == b.cols
  }

  ghost predicate ColumnsReversed(input: MatrixArea, output: MatrixArea)
    requires SameSize(input, output)
    reads input.data, output.data
  {
    forall y, x :: input.Inside(y, x) ==> output.data[y, input.cols - 1 - x] == input.data[y, x]
  }

  ghost predicate RowsReversed(input: MatrixArea, output: MatrixArea)
    requires SameSize(input, output)
    reads input.data, output.data
  {
    forall y, x :: input.Inside(y, x) ==> output.data[input.rows - 1 - y, x] == input.data[y, x]
  }

  lemma ReversedBack(input: MatrixArea, once: MatrixArea, again: MatrixArea)
    requires SameSize(input, once) && SameSize(once, again)
    requires (ColumnsReversed(input, once) && ColumnsReversed(once, again)) || (RowsReversed(input, once) && RowsReversed(once, again))
    ensures forall y, x :: input.Inside(y, x) ==> again.data[y, x] == input.data[y, x]
  {
    forall y, x | input.Inside(y, x) ensures again.data[y, x] == input.data[y, x] {
      var (rx, ry) := (input.cols - 1 - x, input.rows - 1 - y);
      assert once.Inside(y, rx) && once.Inside(ry, x);
      assert input.cols - 1 - rx == x && input.rows - 1 - ry == y;
    }
  }

  method MirroredCopy(input: MatrixArea) returns (once: MatrixArea)
    requires input.Valid()
    ensures fresh(once) && fresh(once.data) && once.Valid() && SameSize(input, once) && ColumnsReversed(input, once)
    ensures once.centerY == input.centerY && once.centerX == (input.rows - 1 - input.centerX) % UINT16
  {
    once := new MatrixArea(input.rows, input.cols);
    Mirrored(input, once);
  }

  method FlippedCopy(input: MatrixArea) returns (once: MatrixArea)
    requires input.Valid()
    ensures fresh(once) && fresh(once.data) && once.Valid() && SameSize(input, once) && RowsReversed(input, once)
    ensures once.centerX == input.centerX && once.centerY == (input.cols - 1 - input.centerY) % UINT16
  {
    once := new MatrixArea(input.rows, input.cols);
    Flipped(input, once);
  }

  lemma CenterBack(last: int, c: nat)
    requires c < UINT16
    ensures (last - (last - c) % UINT16) % UINT16 == c
  {
  }

  /** Mirroring into a matrix of the same size, and back again, gives the matrix back. */
  method MirrorTwice(input: MatrixArea) returns (again: MatrixArea)
    requires input.Valid()
    ensures fresh(again) && again.Valid() && Same(input, again)
  {
    hide ColumnsReversed, RowsReversed;
    var once := MirroredCopy(input);
    again := MirroredCopy(once);
    CenterBack(input.rows - 1, input.centerX);
    ReversedBack(input, once, again);
  }

  /** And so does flipping. */
  method FlipTwice(input: MatrixArea) returns (again: MatrixArea)
    requires input.Valid()
    ensures fresh(again) && again.Valid() && Same(input, again)
  {
    hide ColumnsReversed, RowsReversed;
    var once := FlippedCopy(input);
    again := FlippedCopy(once);
    CenterBack(input.cols - 1, input.centerY);
    ReversedBack(input, once, again);
  }

  // ----- Setting up ---------------------------------------------------------------------------------------

  predicate Marks(v: nat) {
    v == 1 || v == 3
  }

  predicate IsCenter(v: nat) {
    v == 2 || v == 3
  }

  function Index(cols: int, y: int, x: int): int {
    y * cols + x
  }

  /** The entry of a list read row by row. */
  function At(list: seq<nat>, cols: nat, y: int, x: int): nat {
    if 0 <= Index(cols, y, x) < |list| then list[Index(cols, y, x)] else 0
  }

  /** The entries before (y, x) in reading order are in the area. */
  ghost predicate EntriesTo(area: MatrixArea, list: seq<nat>, y: int, x: int)
    requires area.Shaped()
    reads area.data
  {
    forall r, c :: area.Inside(r, c) ==> area.data[r, c] == (Marks(At(list, area.cols, r, c)) && (r < y || (r == y && c < x)))
  }

  method PutEntry(area: MatrixArea, list: seq<nat>, y: nat, x: nat, v: nat)
    requires area.Valid() && area.Inside(y, x) && EntriesTo(area, list, y, x) && At(list, area.cols, y, x) == v
    modifies area.data
    ensures EntriesTo(area, list, y, x + 1)
  {
    hide At;
    if Marks(v) { area.SetValue(y, x, true); }
  }

  lemma EntriesRow(area: MatrixArea, list: seq<nat>, y: int)
    requires area.Valid() && EntriesTo(area, list, y, area.cols)
    ensures EntriesTo(area, list, y + 1, 0)
  {
    hide At;
  }

  /** The centre is the last entry that says so among the first n, or the corner if there is none. */
  ghost predicate CenterOf(list: seq<nat>, n: int, at: int)
    requires 0 <= n <= |list|
  {
    if exists k :: 0 <= k < n && IsCenter(list[k])
    then 0 <= at < n && IsCenter(list[at]) && forall k :: at < k < n ==> !IsCenter(list[k])
    else at == 0
  }

  lemma CenterStep(list: seq<nat>, n: int, at: int)
    requires 0 <= n < |list| && CenterOf(list, n, at)
    ensures CenterOf(list, n + 1, if IsCenter(list[n]) then n else at)
  {
  }

  lemma NoCenterYet(list: seq<nat>)
    ensures CenterOf(list, 0, 0)
  {
  }

  /** The loop of createArea, over an empty area of as many squares as the list has entries. */
  method FillArea(area: MatrixArea, list: seq<nat>)
    requires area.Valid() && |list| == Index(area.cols, area.rows, 0) && area.rows < UINT16 && area.cols < UINT16
    requires (forall y, x :: area.Inside(y, x) ==> !area.data[y, x]) && area.centerY == area.centerX == 0
    requires list != [] ==> area.rows > 0 && area.cols > 0
    modifies area`centerX, area`centerY, area.data
    ensures area.Valid()
    ensures forall y, x :: area.Inside(y, x) ==> area.data[y, x] == Marks(At(list, area.cols, y, x))
    ensures list != [] ==> area.CenterInside()
    ensures CenterOf(list, |list|, Index(area.cols, area.centerY, area.centerX))
  {
    hide EntriesTo, At, CenterOf, Index;
    EntriesStart(area, list);
    NoCenterYet(list);
    var x, y := 0, 0;
    ReadingOrder(area.rows, area.cols, 0, 0);
    for i := 0 to |list|
      invariant area.Valid() && (list != [] ==> area.CenterInside())
      invariant i == Index(area.cols, y, x) && 0 <= y <= area.rows && 0 <= x && (i < |list| ==> y < area.rows && x < area.cols)
      invariant list != [] && i == |list| ==> y == area.rows && x == 0
      invariant EntriesTo(area, list, y, x) && CenterOf(list, i, Index(area.cols, area.centerY, area.centerX))
    {
      AtIndex(list, area.cols, y, x);
      PutEntry(area, list, y, x, list[i]);
      CenterStep(list, i, Index(area.cols, area.centerY, area.centerX));
      if IsCenter(list[i]) { area.SetCenter(y, x); }
      ReadingOrder(area.rows, area.cols, y, x);
      x := x + 1;
      if area.cols == x {
        EntriesRow(area, list, y);
        x, y := 0, y + 1;
      }
    }
    EntriesEnd(area, list, y, x);
  }

  /** createArea: ones and threes are squares to hit; the last two or three is the centre. */
  method CreateArea(list: seq<nat>, rows: nat) returns (area: MatrixArea)
    requires 0 < rows && |list| % rows == 0 && rows < UINT16 && |list| / rows < UINT16
    ensures fresh(area) && fresh(area.data) && area.Valid() && area.rows == rows && area.cols == |list| / rows
    ensures forall y, x :: area.Inside(y, x) ==> area.data[y, x] == Marks(At(list, area.cols, y, x))
    ensures list != [] ==> area.CenterInside()
    ensures CenterOf(list, |list|, Index(area.cols, area.centerY, area.centerX))
  {
    hide At, CenterOf;
    area := new MatrixArea(rows, |list| / rows);
    assert Index(area.cols, rows, 0) == |list|;
    FillArea(area, list);
  }

  lemma EntriesStart(area: MatrixArea, list: seq<nat>)
    requires area.Valid() && forall y, x :: area.Inside(y, x) ==> !area.data[y, x]
    ensures EntriesTo(area, list, 0, 0)
  {
  }

  lemma EntriesEnd(area: MatrixArea, list: seq<nat>, y: int, x: int)
    requires area.Valid() && EntriesTo(area, list, y, x) && (area.cols > 0 ==> y >= area.rows)
    ensures forall r, c :: area.Inside(r, c) ==> area.data[r, c] == Marks(At(list, area.cols, r, c))
  {
  }

  lemma AtIndex(list: seq<nat>, cols: nat, y: int, x: int)
    requires 0 <= Index(cols, y, x) < |list|
    ensures At(list, cols, y, x) == list[Index(cols, y, x)]
  {
  }

  /** The square after (y, x) in reading order. */
  lemma ReadingOrder(rows: nat, cols: nat, y: nat, x: nat)
    ensures Index(cols, 0, 0) == 0
    ensures Index(cols, y, x + 1) == Index(cols, y, x) + 1
    ensures x + 1 == cols ==> Index(cols, y + 1, 0) == Index(cols, y, x) + 1
    ensures y < rows && x < cols ==> Index(cols, y, x) < Index(cols, rows, 0)
    ensures y < rows && x < cols ==> (Index(cols, y, x) + 1 == Index(cols, rows, 0) <==> x + 1 == cols && y + 1 == rows)
  {
    assert (y + 1) * cols == y * cols + cols;
    if y + 1 < rows && x < cols { MulGap(rows, y + 1, cols); }
  }

  // ----- Directions ----------------------------------------------------------------------------------------

  datatype Direction = NORTH | EAST | SOUTH | WEST | SOUTHWEST | SOUTHEAST | NORTHWEST | NORTHEAST

  datatype Position = Position(x: nat, y: nat, z: nat)

  /** The way from one position to another; without diagonals, east and west go first. */
  function DirectionTo(dx: int, dy: int, diagonal: bool): Direction {
    if diagonal && dx != 0 && dy != 0 then
      if dx < 0 then if dy < 0 then NORTHWEST else SOUTHWEST else if dy < 0 then NORTHEAST else SOUTHEAST
    else if dx < 0 then WEST
    else if dx > 0 then EAST
    else if dy < 0 then NORTH
    else SOUTH
  }

  /** How the area for a direction comes from the one for NORTH, or from the one for NORTHWEST. */
  function OperationFor(d: Direction): MatrixOperation {
    match d
    case NORTH => CopyOp
    case EAST => Rotate90
    case SOUTH => Rotate180
    case WEST => Rotate270
    case NORTHWEST => CopyOp
    case NORTHEAST => Mirror
    case SOUTHWEST => Flip
    case SOUTHEAST => Rotate180
  }

  /** The positions are uint16 numbers: the squares wrap round at the edge of the map. */
  function Moved(target: Position, o: Offset): Position {
    Position(Wrapped(target.x + o.dx), Wrapped(target.y + o.dy), target.z)
  }

  /** Reading order. */
  predicate Before(a: Offset, b: Offset) {
    a.dy < b.dy || (a.dy == b.dy && a.dx < b.dx)
  }

  /** The area has the marks of the list, and its last centre. */
  ghost predicate FromList(area: MatrixArea, list: seq<nat>, rows: nat)
    requires area.Valid() && rows > 0
    reads area, area.data
  {
    && area.rows == rows && area.cols == |list| / rows
    && (forall y, x :: area.Inside(y, x) ==> area.data[y, x] == Marks(At(list, area.cols, y, x)))
    && CenterOf(list, |list|, Index(area.cols, area.centerY, area.centerX))
  }

  lemma NothingSet(area: MatrixArea)
    requires area.Valid() && forall y, x :: area.Inside(y, x) ==> !area.data[y, x]
    ensures area.Empty()
  {
  }

  /** A fresh area, twice as wide as the longer side, with the turned squares. */
  method TurnedArea(input: MatrixArea, op: MatrixOperation) returns (output: MatrixArea)
    requires input.Valid() && 0 < input.rows && 2 * input.rows < UINT16 && 2 * input.cols < UINT16
    requires input.cols == 0 || input.CenterInside()
    ensures fresh(output) && fresh(output.data) && output.Valid() && Images(input, output, op, ShiftOf(op, input))
    ensures output.rows == output.cols == 2 * Max(input.rows, input.cols)
    ensures op.Flip? && input.CenterInside() ==> output.centerX == input.centerX < output.cols
  {
    hide Images;
    var maxOutput := 2 * Max(input.rows, input.cols);
    output := new MatrixArea(maxOutput, maxOutput);
    NothingSet(output);
    CopyArea(input, output, op);
  }

  /** Mirroring the flipped area turns it about the centre, with the same shift as the flip. */
  lemma SouthEast(nw: MatrixArea, sw: MatrixArea, se: MatrixArea)
    requires nw.Valid() && sw.Valid() && se.Valid() && sw.rows == sw.cols < UINT16 && sw.centerX < sw.cols
    requires Images(nw, sw, Flip, ShiftOf(Flip, nw)) && Images(sw, se, Mirror, ShiftOf(Mirror, sw))
    ensures Images(nw, se, Rotate180, ShiftOf(Flip, nw))
  {
    hide MatrixArea.Hits;
    var k := ShiftOf(Flip, nw);
    assert ShiftOf(Mirror, sw) == Offset(0, 0);
    forall o: Offset ensures se.Hits(Plus(Turn(Rotate180, o), k)) <==> nw.Hits(o) {
      var p := Plus(Turn(Flip, o), k);
      assert sw.Hits(p) <==> nw.Hits(o);
      assert Plus(Turn(Mirror, p), Offset(0, 0)) == Plus(Turn(Rotate180, o), k);
    }
  }

  /** The three areas that are made from the one for NORTH. */
  ghost predicate RotationImages(north: MatrixArea, east: MatrixArea, south: MatrixArea, west: MatrixArea)
    requires north.Valid() && east.Valid() && south.Valid() && west.Valid()
    reads north, east, south, west, north.data, east.data, south.data, west.data
  {
    && Images(north, east, Rotate90, Offset(0, 0))
    && Images(north, south, Rotate180, Offset(0, 0))
    && Images(north, west, Rotate270, Offset(0, 0))
  }

  /** The same in plain coordinates. */
  ghost predicate PlainRotations(north: MatrixArea, east: MatrixArea, south: MatrixArea, west: MatrixArea)
    requires north.Valid() && east.Valid() && south.Valid() && west.Valid()
    reads north, east, south, west, north.data, east.data, south.data, west.data
  {
    TurnedPlainly(north, east, Rotate90) && TurnedPlainly(north, south, Rotate180) && TurnedPlainly(north, west, Rotate270)
  }

  method Rotations(list: seq<nat>, rows: nat) returns (north: MatrixArea, south: MatrixArea, east: MatrixArea, west: MatrixArea)
    requires 0 < rows && |list| % rows == 0 && 2 * rows < UINT16 && 2 * (|list| / rows) < UINT16
    ensures fresh({north, south, east, west}) && fresh({north.data, south.data, east.data, west.data})
    ensures north.Valid() && south.Valid() && east.Valid() && west.Valid() && FromList(north, list, rows)
    ensures RotationImages(north, east, south, west) && PlainRotations(north, east, south, west)
    ensures list != [] ==> north.CenterInside()
  {
    hide Images, TurnedPlainly, At, CenterOf, Index;
    north := CreateArea(list, rows);
    south := TurnedArea(north, Rotate180);
    east := TurnedArea(north, Rotate90);
    west := TurnedArea(north, Rotate270);
    ImagesPlainly(north, east, Rotate90);
    ImagesPlainly(north, south, Rotate180);
    ImagesPlainly(north, west, Rotate270);
  }

  /** The three areas that are made from the one for NORTHWEST, each off by the shift of its operation. */
  ghost predicate DiagonalImages(nw: MatrixArea, ne: MatrixArea, sw: MatrixArea, se: MatrixArea)
    requires nw.Valid() && ne.Valid() && sw.Valid() && se.Valid()
    reads nw, ne, sw, se, nw.data, ne.data, sw.data, se.data
  {
    && Images(nw, ne, Mirror, ShiftOf(Mirror, nw))
    && Images(nw, sw, Flip, ShiftOf(Flip, nw))
    && Images(nw, se, Rotate180, ShiftOf(Flip, nw))
  }

  method Diagonals(list: seq<nat>, rows: nat) returns (nw: MatrixArea, ne: MatrixArea, sw: MatrixArea, se: MatrixArea)
    requires list != [] && 0 < rows && |list| % rows == 0 && 2 * rows < UINT16 && 2 * (|list| / rows) < UINT16
    ensures fresh({nw, ne, sw, se}) && nw.Valid() && ne.Valid() && sw.Valid() && se.Valid()
    ensures FromList(nw, list, rows) && nw.CenterInside() && DiagonalImages(nw, ne, sw, se)
  {
    hide Images, At, CenterOf, Index, ShiftOf;
    nw := CreateArea(list, rows);
    ne := TurnedArea(nw, Mirror);
    sw := TurnedArea(nw, Flip);
    se := new MatrixArea(sw.rows, sw.cols);
    NothingSet(se);
    CopyArea(sw, se, Mirror);
    SouthEast(nw, sw, se);
  }

  class CombatArea {
    var areas: map<Direction, MatrixArea>
    var hasExtArea: bool

    constructor ()
      ensures areas == map[] && !hasExtArea
    {
      areas, hasExtArea := map[], false;
    }

    ghost predicate Valid()
      reads this, areas.Values
    {
      forall d :: d in areas ==> areas[d].Valid()
    }

    /** setupArea(list, rows): the list is the area for NORTH, and the other three are rotations. */
    method SetupArea(list: seq<nat>, rows: nat)
      requires Valid() && 0 < rows && |list| % rows == 0 && 2 * rows < UINT16 && 2 * (|list| / rows) < UINT16
      modifies this
      ensures Valid() && hasExtArea == old(hasExtArea)
      ensures areas.Keys == old(areas.Keys) + {NORTH, EAST, SOUTH, WEST}
      ensures forall d :: d in old(areas) && d !in {NORTH, EAST, SOUTH, WEST} ==> areas[d] == old(areas[d])
      ensures FromList(areas[NORTH], list, rows) && (list != [] ==> areas[NORTH].CenterInside())
      ensures RotationImages(areas[NORTH], areas[EAST], areas[SOUTH], areas[WEST])
      ensures PlainRotations(areas[NORTH], areas[EAST], areas[SOUTH], areas[WEST])
    {
      hide RotationImages, PlainRotations, FromList, MatrixArea.Valid, MatrixArea.Shaped, MatrixArea.CenterInside;
      var north, south, east, west := Rotations(list, rows);
      areas := areas[NORTH := north][SOUTH := south][EAST := east][WEST := west];
    }

    /** setupExtArea: the list is the area for NORTHWEST; NORTHEAST mirrors it, SOUTHWEST flips it, and
        SOUTHEAST mirrors the padded SOUTHWEST area. Each is off by the shift of its operation. */
    method SetupExtArea(list: seq<nat>, rows: nat)
      requires Valid() && 0 < rows && |list| % rows == 0 && 2 * rows < UINT16 && 2 * (|list| / rows) < UINT16
      modifies this
      ensures Valid()
      ensures list == [] ==> areas == old(areas) && hasExtArea == old(hasExtArea)
      ensures list != [] ==> hasExtArea && areas.Keys == old(areas.Keys) + {NORTHWEST, NORTHEAST, SOUTHWEST, SOUTHEAST}
      ensures forall d :: list != [] && d in old(areas) && d !in {NORTHWEST, NORTHEAST, SOUTHWEST, SOUTHEAST} ==> areas[d] == old(areas[d])
      ensures list != [] ==> FromList(areas[NORTHWEST], list, rows) && areas[NORTHWEST].CenterInside()
      ensures list != [] ==> DiagonalImages(areas[NORTHWEST], areas[NORTHEAST], areas[SOUTHWEST], areas[SOUTHEAST])
    {
      hide DiagonalImages, FromList, MatrixArea.CenterInside, MatrixArea.Valid, MatrixArea.Shaped;
      if list == [] { return; }
      var nw, ne, sw, se := Diagonals(list, rows);
      areas := areas[NORTHWEST := nw][NORTHEAST := ne][SOUTHWEST := sw][SOUTHEAST := se];
      hasExtArea := true;
    }

    method GetArea(center: Position, target: Position) returns (area: MatrixArea?)
      ensures var d := DirectionTo(target.x - center.x, target.y - center.y, hasExtArea);
              area == if d in areas then areas[d] else null
    {
      var dx, dy := target.x - center.x, target.y - center.y;
      var dir := NORTH;
      if dx < 0 {
        dir := WEST;
      } else if dx > 0 {
        dir := EAST;
      } else if dy < 0 {
        dir := NORTH;
      } else {
        dir := SOUTH;
      }
      if hasExtArea {
        if dx < 0 && dy < 0 {
          dir := NORTHWEST;
        } else if dx > 0 && dy < 0 {
          dir := NORTHEAST;
        } else if dx < 0 && dy > 0 {
          dir := SOUTHWEST;
        } else if dx > 0 && dy > 0 {
          dir := SOUTHEAST;
        }
      }
      area := if dir in areas then areas[dir] else null;
    }

    /** getList: the squares of the area around the target that can be seen from it, row by row. A
        square without a tile gets one. */
    method GetList(center: Position, target: Position, sight: (Position, Position) -> bool, tiles: set<Position>)
      returns (found: bool, list: seq<Position>, tilesAfter: set<Position>, ghost hits: seq<Offset>)
      requires Valid() && target.x < UINT16 && target.y < UINT16
      ensures var d := DirectionTo(target.x - center.x, target.y - center.y, hasExtArea);
              && found == (d in areas)
              && (!found ==> list == [] && tilesAfter == tiles)
              && (found ==> Listed(areas[d], target, sight, hits))
      ensures found ==> list == Squares(target, hits)
      ensures tilesAfter == tiles + SetOf(list)
    {
      hide ListedTo, Listed, Squares, SetOf, Seen, DirectionTo, Moved, Wrapped;
      NoSquares(target);
      list, tilesAfter, hits := [], tiles, [];
      var area := GetArea(center, target);
      if area == null { return false, [], tiles, []; }
      found := true;
      NothingListed(area, target, sight);
      var x0, y0 := target.x - area.centerX, target.y - area.centerY;
      var tmpX, tmpY := Wrapped(x0), Wrapped(y0);
      for y := 0 to area.rows
        invariant tmpX == Wrapped(x0) && tmpY == Wrapped(y0 + y)
        invariant ListedTo(area, target, sight, hits, y, 0) && list == Squares(target, hits)
        invariant tilesAfter == tiles + SetOf(list)
      {
        for x := 0 to area.cols
          invariant tmpX == Wrapped(x0 + x)
          invariant ListedTo(area, target, sight, hits, y, x) && list == Squares(target, hits)
          invariant tilesAfter == tiles + SetOf(list)
        {
          NextSquare(area, target, sight, hits, y, x);
          var p := Position(tmpX, tmpY, target.z);
          SquareAt(area, target, sight, y, x, p);
          if area.data[y, x] {
            if target.z < MAP_MAX_LAYERS && sight(target, p) {
              OneMoreSquare(target, hits, Offset(x - area.centerX, y - area.centerY), list, p);
              tilesAfter := tilesAfter + {p};
              list := list + [p];
              hits := hits + [Offset(x - area.centerX, y - area.centerY)];
            }
          }
          WrapStep(x0 + x, 1);
          tmpX := Wrapped(tmpX + 1);
        }
        NextRow(area, target, sight, hits, y);
        WrapStep(x0 + area.cols, 0 - area.cols);
        WrapStep(y0 + y, 1);
        tmpX := Wrapped(tmpX - area.cols);
        tmpY := Wrapped(tmpY + 1);
      }
      AllListed(area, target, sight, hits);
    }
  }

  /** uint16 arithmetic. */
  function Wrapped(v: int): nat {
    v % UINT16
  }

  lemma WrapStep(v: int, d: int)
    ensures Wrapped(Wrapped(v) + d) == Wrapped(v + d)
  {
  }

  function Squares(target: Position, hits: seq<Offset>): seq<Position> {
    seq(|hits|, k requires 0 <= k < |hits| => Moved(target, hits[k]))
  }

  ghost function SetOf(list: seq<Position>): set<Position> {
    set p | p in list
  }

  lemma NoSquares(target: Position)
    ensures Squares(target, []) == [] && SetOf([]) == {}
  {
  }

  lemma OneMoreSquare(target: Position, hits: seq<Offset>, o: Offset, list: seq<Position>, p: Position)
    requires list == Squares(target, hits) && p == Moved(target, o)
    ensures list + [p] == Squares(target, hits + [o])
    ensures SetOf(list + [p]) == SetOf(list) + {p}
  {
  }

  lemma SquareAt(area: MatrixArea, target: Position, sight: (Position, Position) -> bool, y: int, x: int, p: Position)
    requires p.x == Wrapped(target.x - area.centerX + x) && p.y == Wrapped(target.y - area.centerY + y) && p.z == target.z
    ensures var o := Offset(x - area.centerX, y - area.centerY);
            p == Moved(target, o) && Seen(target, sight, o) == (target.z < MAP_MAX_LAYERS && sight(target, p))
  {
    assert target.x - area.centerX + x == target.x + (x - area.centerX);
    assert target.y - area.centerY + y == target.y + (y - area.centerY);
  }

  predicate Seen(target: Position, sight: (Position, Position) -> bool, o: Offset) {
    target.z < MAP_MAX_LAYERS && sight(target, Moved(target, o))
  }

  /** Exactly the visible squares of the area, in reading order. */
  ghost predicate Listed(area: MatrixArea, target: Position, sight: (Position, Position) -> bool, hits: seq<Offset>)
    requires area.Valid()
    reads area, area.data
  {
    && (forall o: Offset :: o in hits <==> area.Hits(o) && Seen(target, sight, o))
    && (forall i, j :: 0 <= i < j < |hits| ==> Before(hits[i], hits[j]))
  }

  ghost predicate ListedTo(area: MatrixArea, target: Position, sight: (Position, Position) -> bool, hits: seq<Offset>, y: int, x: int)
    requires area.Valid()
    reads area, area.data
  {
    var next := Offset(x - area.centerX, y - area.centerY);
    && (forall o: Offset :: o in hits <==> area.Hits(o) && Seen(target, sight, o) && Before(o, next))
    && (forall i, j :: 0 <= i < j < |hits| ==> Before(hits[i], hits[j]))
  }

  lemma NothingListed(area: MatrixArea, target: Position, sight: (Position, Position) -> bool)
    requires area.Valid()
    ensures ListedTo(area, target, sight, [], 0, 0)
  {
  }

  lemma NextSquare(area: MatrixArea, target: Position, sight: (Position, Position) -> bool, hits: seq<Offset>, y: int, x: int)
    requires area.Valid() && area.Inside(y, x) && ListedTo(area, target, sight, hits, y, x)
    ensures var o := Offset(x - area.centerX, y - area.centerY);
            ListedTo(area, target, sight, if area.data[y, x] && Seen(target, sight, o) then hits + [o] else hits, y, x + 1)
  {
    hide Seen;
  }

  lemma NextRow(area: MatrixArea, target: Position, sight: (Position, Position) -> bool, hits: seq<Offset>, y: int)
    requires area.Valid() && ListedTo(area, target, sight, hits, y, area.cols)
    ensures ListedTo(area, target, sight, hits, y + 1, 0)
  {
    hide Seen;
  }

  lemma AllListed(area: MatrixArea, target: Position, sight: (Position, Position) -> bool, hits: seq<Offset>)
    requires area.Valid() && ListedTo(area, target, sight, hits, area.rows, 0)
    ensures Listed(area, target, sight, hits)
  {
    hide Seen;
  }

  /** The squares are those of the source area, each turned, shifted by k and laid out about the target. */
  ghost predicate Strikes(source: MatrixArea, op: MatrixOperation, k: Offset, target: Position, squares: seq<Position>)
    requires source.Valid()
    reads source, source.data
  {
    && (forall o: Offset :: source.Hits(o) ==> Moved(target, Plus(Turn(op, o), k)) in squares)
    && (forall p :: p in squares ==> exists o: Offset :: source.Hits(o) && p == Moved(target, Plus(Turn(op, o), k)))
  }

  /** To the east: what lies ahead of the centre lies to the east of the target, and what lies to its right to the south. */
  function EastPlace(target: Position, o: Offset): Position {
    Position((target.x - o.dy) % 65536, (target.y + o.dx) % 65536, target.z)
  }

  ghost predicate StruckEast(north: MatrixArea, target: Position, squares: seq<Position>)
    requires north.Valid()
    reads north, north.data
  {
    && (forall o: Offset :: north.Hits(o) ==> EastPlace(target, o) in squares)
    && (forall p :: p in squares ==> exists o: Offset :: north.Hits(o) && p == EastPlace(target, o))
  }

  /** To the south: both turn round. */
  function SouthPlace(target: Position, o: Offset): Position {
    Position((target.x - o.dx) % 65536, (target.y - o.dy) % 65536, target.z)
  }

  ghost predicate StruckSouth(north: MatrixArea, target: Position, squares: seq<Position>)
    requires north.Valid()
    reads north, north.data
  {
    && (forall o: Offset :: north.Hits(o) ==> SouthPlace(target, o) in squares)
    && (forall p :: p in squares ==> exists o: Offset :: north.Hits(o) && p == SouthPlace(target, o))
  }

  /** To the west: what lies ahead of the centre lies to the west of the target, and what lies to its right to the north. */
  function WestPlace(target: Position, o: Offset): Position {
    Position((target.x + o.dy) % 65536, (target.y - o.dx) % 65536, target.z)
  }

  ghost predicate StruckWest(north: MatrixArea, target: Position, squares: seq<Position>)
    requires north.Valid()
    reads north, north.data
  {
    && (forall o: Offset :: north.Hits(o) ==> WestPlace(target, o) in squares)
    && (forall p :: p in squares ==> exists o: Offset :: north.Hits(o) && p == WestPlace(target, o))
  }

  /** To the north: as the list has it. */
  function NorthPlace(target: Position, o: Offset): Position {
    Position((target.x + o.dx) % 65536, (target.y + o.dy) % 65536, target.z)
  }

  ghost predicate StruckNorth(north: MatrixArea, target: Position, squares: seq<Position>)
    requires north.Valid()
    reads north, north.data
  {
    && (forall o: Offset :: north.Hits(o) ==> NorthPlace(target, o) in squares)
    && (forall p :: p in squares ==> exists o: Offset :: north.Hits(o) && p == NorthPlace(target, o))
  }

  /** A strike to the north, east, south or west, everything in sight: the squares hit are those the list
      marks for NORTH, turned about the target. Marks that all lie ahead strike only squares to the east when
      the target lies to the east. */
  method Strike(list: seq<nat>, rows: nat, center: Position, target: Position) returns (squares: seq<Position>, north: MatrixArea)
    requires 0 < rows && |list| % rows == 0 && 2 * rows < UINT16 && 2 * (|list| / rows) < UINT16
    requires target.x < UINT16 && target.y < UINT16 && target.z < MAP_MAX_LAYERS
    ensures north.Valid() && FromList(north, list, rows) && (list != [] ==> north.CenterInside())
    ensures var op := OperationFor(DirectionTo(target.x - center.x, target.y - center.y, false));
            Strikes(north, op, Offset(0, 0), target, squares)
    ensures target.x > center.x ==> StruckEast(north, target, squares)
    ensures target.x < center.x ==> StruckWest(north, target, squares)
    ensures target.x == center.x && target.y < center.y ==> StruckNorth(north, target, squares)
    ensures target.x == center.x && target.y >= center.y ==> StruckSouth(north, target, squares)
    ensures target.x > center.x && target.x + rows <= 65536 && (forall o: Offset :: north.Hits(o) ==> o.dy < 0) ==>
              forall p :: p in squares ==> p.x > target.x
  {
    hide Strikes, FromList, StruckEast, StruckWest, StruckNorth, StruckSouth, DirectionTo, MatrixArea.Hits;
    squares, north := StrikeStraight(list, rows, center, target);
    StraightDirection(target.x - center.x, target.y - center.y);
    EastPlainly(north, target, squares);
    WestPlainly(north, target, squares);
    NorthPlainly(north, target, squares);
    SouthPlainly(north, target, squares);
    if target.x > center.x && target.x + rows <= 65536 && forall o: Offset :: north.Hits(o) ==> o.dy < 0 {
      AheadIsEast(north, list, rows, target, squares);
    }
  }

  method StrikeStraight(list: seq<nat>, rows: nat, center: Position, target: Position)
    returns (squares: seq<Position>, north: MatrixArea)
    requires 0 < rows && |list| % rows == 0 && 2 * rows < UINT16 && 2 * (|list| / rows) < UINT16
    requires target.x < UINT16 && target.y < UINT16 && target.z < MAP_MAX_LAYERS
    ensures north.Valid() && FromList(north, list, rows) && (list != [] ==> north.CenterInside())
    ensures var op := OperationFor(DirectionTo(target.x - center.x, target.y - center.y, false));
            Strikes(north, op, Offset(0, 0), target, squares)
  {
    hide Images, PlainRotations, FromList, DirectionTo, Strikes, MatrixArea.CenterInside;
    var area := new CombatArea();
    area.SetupArea(list, rows);
    north := area.areas[NORTH];
    DirectionIsStraight(target.x - center.x, target.y - center.y);
    var found, tiles;
    ghost var hits;
    found, squares, tiles, hits := area.GetList(center, target, (a, b) => true, {});
    var d := DirectionTo(target.x - center.x, target.y - center.y, false);
    CopyImages(north);
    StrikeHits(north, area.areas[d], OperationFor(d), Offset(0, 0), target, hits);
    StrikeSquares(north, OperationFor(d), Offset(0, 0), target, hits);
  }

  lemma StraightDirection(dx: int, dy: int)
    ensures OperationFor(DirectionTo(dx, dy, false)) ==
            if dx > 0 then Rotate90 else if dx < 0 then Rotate270 else if dy < 0 then CopyOp else Rotate180
  {
  }

  lemma EastOf(target: Position, o: Offset)
    ensures Moved(target, Plus(Turn(Rotate90, o), Offset(0, 0))) == EastPlace(target, o)
  {
  }

  lemma EastPlainly(north: MatrixArea, target: Position, squares: seq<Position>)
    requires north.Valid()
    ensures Strikes(north, Rotate90, Offset(0, 0), target, squares) ==> StruckEast(north, target, squares)
  {
    hide MatrixArea.Hits, MatrixArea.Valid, Moved, Plus, Turn, EastPlace;
    forall o: Offset ensures Moved(target, Plus(Turn(Rotate90, o), Offset(0, 0))) == EastPlace(target, o) {
      EastOf(target, o);
    }
  }

  lemma SouthOf(target: Position, o: Offset)
    ensures Moved(target, Plus(Turn(Rotate180, o), Offset(0, 0))) == SouthPlace(target, o)
  {
  }

  lemma SouthPlainly(north: MatrixArea, target: Position, squares: seq<Position>)
    requires north.Valid()
    ensures Strikes(north, Rotate180, Offset(0, 0), target, squares) ==> StruckSouth(north, target, squares)
  {
    hide MatrixArea.Hits, MatrixArea.Valid, Moved, Plus, Turn, SouthPlace;
    forall o: Offset ensures Moved(target, Plus(Turn(Rotate180, o), Offset(0, 0))) == SouthPlace(target, o) {
      SouthOf(target, o);
    }
  }

  lemma WestOf(target: Position, o: Offset)
    ensures Moved(target, Plus(Turn(Rotate270, o), Offset(0, 0))) == WestPlace(target, o)
  {
  }

  lemma WestPlainly(north: MatrixArea, target: Position, squares: seq<Position>)
    requires north.Valid()
    ensures Strikes(north, Rotate270, Offset(0, 0), target, squares) ==> StruckWest(north, target, squares)
  {
    hide MatrixArea.Hits, MatrixArea.Valid, Moved, Plus, Turn, WestPlace;
    forall o: Offset ensures Moved(target, Plus(Turn(Rotate270, o), Offset(0, 0))) == WestPlace(target, o) {
      WestOf(target, o);
    }
  }

  lemma NorthOf(target: Position, o: Offset)
    ensures Moved(target, Plus(Turn(CopyOp, o), Offset(0, 0))) == NorthPlace(target, o)
  {
  }

  lemma NorthPlainly(north: MatrixArea, target: Position, squares: seq<Position>)
    requires north.Valid()
    ensures Strikes(north, CopyOp, Offset(0, 0), target, squares) ==> StruckNorth(north, target, squares)
  {
    hide MatrixArea.Hits, MatrixArea.Valid, Moved, Plus, Turn, NorthPlace;
    forall o: Offset ensures Moved(target, Plus(Turn(CopyOp, o), Offset(0, 0))) == NorthPlace(target, o) {
      NorthOf(target, o);
    }
  }

  lemma AheadIsEast(north: MatrixArea, list: seq<nat>, rows: nat, target: Position, squares: seq<Position>)
    requires north.Valid() && rows > 0 && FromList(north, list, rows) && (list != [] ==> north.CenterInside())
    requires StruckEast(north, target, squares) && target.x + rows <= 65536 && forall o: Offset :: north.Hits(o) ==> o.dy < 0
    ensures forall p :: p in squares ==> p.x > target.x
  {
    NorthRows(north, list, rows);
    hide MatrixArea.Hits, EastPlace, FromList, MatrixArea.CenterInside;
    forall p | p in squares ensures p.x > target.x {
      var o: Offset :| north.Hits(o) && p == EastPlace(target, o);
      FurtherEast(target, o, rows);
    }
  }

  lemma FurtherEast(target: Position, o: Offset, rows: nat)
    requires o.dy < 0 && 0 - o.dy < rows && target.x + rows <= 65536
    ensures EastPlace(target, o).x > target.x
  {
  }

  /** A hit lies fewer rows ahead of the centre than there are rows. */
  lemma NorthRows(north: MatrixArea, list: seq<nat>, rows: nat)
    requires north.Valid() && rows > 0 && FromList(north, list, rows) && (list != [] ==> north.CenterInside())
    ensures forall o: Offset :: north.Hits(o) ==> 0 - o.dy < rows
  {
  }

  /** Two rows, one square ahead of the centre: whichever way the target lies, the square behind it is struck. */
  method StrikeAhead(center: Position, target: Position) returns (squares: seq<Position>)
    requires 0 < target.x < 65535 && 0 < target.y < 65535 && target.z < 16
    ensures forall p :: p in squares <==>
                        p == if target.x > center.x then Position(target.x + 1, target.y, target.z)
                             else if target.x < center.x then Position(target.x - 1, target.y, target.z)
                             else if target.y < center.y then Position(target.x, target.y - 1, target.z)
                             else Position(target.x, target.y + 1, target.z)
  {
    hide FromList, Strikes, MatrixArea.Hits, MatrixArea.CenterInside, DirectionTo, EastPlace, WestPlace, NorthPlace, SouthPlace;
    var north;
    var list: seq<nat> := [1, 2];
    squares, north := Strike(list, 2, center, target);
    OneAheadParts(north, list);
    OneAhead(north);
    PlacesAhead(target);
  }

  lemma PlacesAhead(target: Position)
    requires 0 < target.x < 65535 && 0 < target.y < 65535
    ensures EastPlace(target, Offset(0, -1)) == Position(target.x + 1, target.y, target.z)
    ensures WestPlace(target, Offset(0, -1)) == Position(target.x - 1, target.y, target.z)
    ensures NorthPlace(target, Offset(0, -1)) == Position(target.x, target.y - 1, target.z)
    ensures SouthPlace(target, Offset(0, -1)) == Position(target.x, target.y + 1, target.z)
  {
  }

  lemma OneAheadParts(north: MatrixArea, list: seq<nat>)
    requires list == [1, 2] && north.Valid() && FromList(north, list, 2) && north.CenterInside()
    ensures north.rows == 2 && north.cols == 1 && north.centerY == 1 && north.centerX == 0
    ensures north.data[0, 0] && !north.data[1, 0]
  {
    assert IsCenter(list[1]) && north.cols == 1;
    assert Index(1, north.centerY, north.centerX) == north.centerY;
    assert At(list, 1, 0, 0) == 1 && At(list, 1, 1, 0) == 2;
  }

  lemma OneAhead(north: MatrixArea)
    requires north.Valid() && north.rows == 2 && north.cols == 1 && north.centerY == 1 && north.centerX == 0
    requires north.data[0, 0] && !north.data[1, 0]
    ensures forall o: Offset :: north.Hits(o) <==> o == Offset(0, -1)
  {
  }

  /** The shift with which the area for a diagonal direction is made from the one for NORTHWEST. */
  ghost function ShiftTo(d: Direction, nw: MatrixArea): Offset
    reads nw
  {
    match d
    case NORTHEAST => ShiftOf(Mirror, nw)
    case SOUTHWEST => ShiftOf(Flip, nw)
    case SOUTHEAST => ShiftOf(Flip, nw)
    case _ => Offset(0, 0)
  }

  /** Where a NORTHWEST mark comes to lie: mirrored to the east, flipped to the south. */
  function SlantedPlace(target: Position, o: Offset, k: Offset, east: bool, south: bool): Position {
    var x := if east then target.x - o.dx else target.x + o.dx;
    var y := if south then target.y - o.dy else target.y + o.dy;
    Position((x + k.dx) % 65536, (y + k.dy) % 65536, target.z)
  }

  /** By how much it is off: rows are taken for columns in the mirrored area, columns for rows in a flipped one. */
  ghost function SlantedShift(nw: MatrixArea, east: bool, south: bool): Offset
    reads nw
  {
    if south then Offset(0, nw.rows - 1 - nw.centerY - (nw.cols - 1 - nw.centerY) % 65536)
    else if east then Offset(nw.cols - 1 - nw.centerX - (nw.rows - 1 - nw.centerX) % 65536, 0)
    else Offset(0, 0)
  }

  ghost predicate StruckSlanted(nw: MatrixArea, target: Position, squares: seq<Position>, east: bool, south: bool)
    requires nw.Valid()
    reads nw, nw.data
  {
    var k := SlantedShift(nw, east, south);
    && (forall o: Offset :: nw.Hits(o) ==> SlantedPlace(target, o, k, east, south) in squares)
    && (forall p :: p in squares ==> exists o: Offset :: nw.Hits(o) && p == SlantedPlace(target, o, k, east, south))
  }

  /** A strike in a diagonal direction, everything in sight: the squares hit are those the list marks for
      NORTHWEST, mirrored, flipped or both, and shifted; for a square list there is no shift. */
  method StrikeDiagonally(list: seq<nat>, rows: nat, center: Position, target: Position)
    returns (squares: seq<Position>, nw: MatrixArea)
    requires list != [] && 0 < rows && |list| % rows == 0 && 2 * rows < UINT16 && 2 * (|list| / rows) < UINT16
    requires target.x < UINT16 && target.y < UINT16 && target.z < MAP_MAX_LAYERS
    requires target.x != center.x && target.y != center.y
    ensures nw.Valid() && FromList(nw, list, rows)
    ensures var d := DirectionTo(target.x - center.x, target.y - center.y, true);
            && Strikes(nw, OperationFor(d), ShiftTo(d, nw), target, squares)
            && (|list| / rows == rows ==> ShiftTo(d, nw) == Offset(0, 0))
    ensures StruckSlanted(nw, target, squares, target.x > center.x, target.y > center.y)
  {
    hide Strikes, FromList, StruckSlanted, DirectionTo, OperationFor, ShiftTo;
    squares, nw := StrikeSlanted(list, rows, center, target);
    SlantedDirection(target.x - center.x, target.y - center.y, nw);
    SlantedPlainly(nw, target, squares, target.x > center.x, target.y > center.y);
  }

  lemma SlantedDirection(dx: int, dy: int, nw: MatrixArea)
    requires dx != 0 && dy != 0
    ensures var d := DirectionTo(dx, dy, true);
            OperationFor(d) == SlantedOp(dx > 0, dy > 0) && ShiftTo(d, nw) == SlantedShift(nw, dx > 0, dy > 0)
  {
  }

  function SlantedOp(east: bool, south: bool): MatrixOperation {
    if east then (if south then Rotate180 else Mirror) else if south then Flip else CopyOp
  }

  lemma SlantedOf(target: Position, o: Offset, k: Offset, east: bool, south: bool)
    ensures Moved(target, Plus(Turn(SlantedOp(east, south), o), k)) == SlantedPlace(target, o, k, east, south)
  {
  }

  lemma SlantedPlainly(nw: MatrixArea, target: Position, squares: seq<Position>, east: bool, south: bool)
    requires nw.Valid()
    ensures Strikes(nw, SlantedOp(east, south), SlantedShift(nw, east, south), target, squares) ==>
              StruckSlanted(nw, target, squares, east, south)
  {
    hide MatrixArea.Hits, MatrixArea.Valid, Moved, Plus, Turn, SlantedPlace, SlantedOp, SlantedShift;
    var k := SlantedShift(nw, east, south);
    forall o: Offset ensures Moved(target, Plus(Turn(SlantedOp(east, south), o), k)) == SlantedPlace(target, o, k, east, south) {
      SlantedOf(target, o, k, east, south);
    }
  }

  method StrikeSlanted(list: seq<nat>, rows: nat, center: Position, target: Position)
    returns (squares: seq<Position>, nw: MatrixArea)
    requires list != [] && 0 < rows && |list| % rows == 0 && 2 * rows < UINT16 && 2 * (|list| / rows) < UINT16
    requires target.x < UINT16 && target.y < UINT16 && target.z < MAP_MAX_LAYERS
    requires target.x != center.x && target.y != center.y
    ensures nw.Valid() && FromList(nw, list, rows)
    ensures var d := DirectionTo(target.x - center.x, target.y - center.y, true);
            && Strikes(nw, OperationFor(d), ShiftTo(d, nw), target, squares)
            && (|list| / rows == rows ==> ShiftTo(d, nw) == Offset(0, 0))
  {
    hide Images, FromList, DirectionTo, Strikes, ShiftOf;
    var area := new CombatArea();
    area.SetupExtArea(list, rows);
    nw := area.areas[NORTHWEST];
    DirectionIsDiagonal(target.x - center.x, target.y - center.y);
    var found, tiles;
    ghost var hits;
    found, squares, tiles, hits := area.GetList(center, target, (a, b) => true, {});
    var d := DirectionTo(target.x - center.x, target.y - center.y, true);
    CopyImages(nw);
    SquareUnshifted(nw, list, rows, d);
    StrikeHits(nw, area.areas[d], OperationFor(d), ShiftTo(d, nw), target, hits);
    StrikeSquares(nw, OperationFor(d), ShiftTo(d, nw), target, hits);
  }

  lemma SquareUnshifted(nw: MatrixArea, list: seq<nat>, rows: nat, d: Direction)
    requires nw.Valid() && rows > 0 && FromList(nw, list, rows) && nw.CenterInside() && rows < UINT16 && |list| / rows < UINT16
    ensures |list| / rows == rows ==> ShiftTo(d, nw) == Offset(0, 0)
  {
    ShiftZero(Mirror, nw.rows, nw.cols, nw.centerY, nw.centerX);
    ShiftZero(Flip, nw.rows, nw.cols, nw.centerY, nw.centerX);
  }

  lemma CopyImages(area: MatrixArea)
    requires area.Valid()
    ensures Images(area, area, CopyOp, Offset(0, 0))
  {
    hide MatrixArea.Hits;
    forall o: Offset ensures area.Hits(Plus(Turn(CopyOp, o), Offset(0, 0))) <==> area.Hits(o) {
      assert Plus(Turn(CopyOp, o), Offset(0, 0)) == o;
    }
  }

  lemma StrikeSquares(source: MatrixArea, op: MatrixOperation, k: Offset, target: Position, hits: seq<Offset>)
    requires source.Valid() && forall o: Offset :: Plus(Turn(op, o), k) in hits <==> source.Hits(o)
    ensures Strikes(source, op, k, target, Squares(target, hits))
  {
    hide MatrixArea.Hits, Moved;
    forall o: Offset | source.Hits(o) ensures Moved(target, Plus(Turn(op, o), k)) in Squares(target, hits) {
      var i :| 0 <= i < |hits| && hits[i] == Plus(Turn(op, o), k);
      assert Squares(target, hits)[i] == Moved(target, Plus(Turn(op, o), k));
    }
    forall p | p in Squares(target, hits)
      ensures exists o: Offset :: source.Hits(o) && p == Moved(target, Plus(Turn(op, o), k))
    {
      var i :| 0 <= i < |hits| && Moved(target, hits[i]) == p;
      var o := Turn(Back(op), Offset(hits[i].dx - k.dx, hits[i].dy - k.dy));
      assert Plus(Turn(op, o), k) == hits[i] && hits[i] in hits;
    }
  }

  lemma DirectionIsStraight(dx: int, dy: int)
    ensures DirectionTo(dx, dy, false) in {NORTH, EAST, SOUTH, WEST}
  {
  }

  lemma DirectionIsDiagonal(dx: int, dy: int)
    requires dx != 0 && dy != 0
    ensures DirectionTo(dx, dy, true) in {NORTHWEST, NORTHEAST, SOUTHWEST, SOUTHEAST}
  {
  }

  lemma StrikeHits(source: MatrixArea, area: MatrixArea, op: MatrixOperation, k: Offset, target: Position, hits: seq<Offset>)
    requires source.Valid() && area.Valid() && target.z < MAP_MAX_LAYERS && Listed(area, target, (a, b) => true, hits)
    requires Images(source, area, op, k)
    ensures forall o: Offset :: Plus(Turn(op, o), k) in hits <==> source.Hits(o)
  {
    hide MatrixArea.Hits;
  }

  /** One row of two squares with the centre on the left: the NORTHWEST area reaches one square to the
      east, and its mirror image reaches to the east as well. */
  method SkewedMirror() returns (area: CombatArea)
    ensures area.Valid() && NORTHWEST in area.areas && NORTHEAST in area.areas
    ensures area.areas[NORTHWEST].Hits(Offset(1, 0)) && !area.areas[NORTHEAST].Hits(Offset(-1, 0))
    ensures area.areas[NORTHEAST].Hits(Offset(1, 0))
  {
    hide Images, FromList, MatrixArea.Hits;
    area := new CombatArea();
    area.SetupExtArea([3, 1], 1);
    PairMirrored(area.areas[NORTHWEST], area.areas[NORTHEAST]);
  }

  lemma PairMirrored(nw: MatrixArea, ne: MatrixArea)
    requires nw.Valid() && ne.Valid() && FromList(nw, [3, 1], 1) && nw.CenterInside()
    requires Images(nw, ne, Mirror, ShiftOf(Mirror, nw))
    ensures nw.Hits(Offset(1, 0)) && ne.Hits(Offset(1, 0)) && !ne.Hits(Offset(-1, 0))
  {
    hide *;
    PairArea(nw);
    MirrorMoves(0, 1);
    MirrorMoves(2, 1);
    ImageOf(nw, ne, Mirror, Offset(1, 0), Offset(0, 0));
    ImageOf(nw, ne, Mirror, Offset(1, 0), Offset(2, 0));
  }

  lemma MirrorMoves(dx: int, k: int)
    ensures Plus(Turn(Mirror, Offset(dx, 0)), Offset(k, 0)) == Offset(k - dx, 0)
  {
  }

  lemma ImageOf(input: MatrixArea, output: MatrixArea, op: MatrixOperation, k: Offset, o: Offset)
    requires input.Valid() && output.Valid() && Images(input, output, op, k)
    ensures output.Hits(Plus(Turn(op, o), k)) <==> input.Hits(o)
  {
  }

  lemma PairArea(nw: MatrixArea)
    requires nw.Valid() && FromList(nw, [3, 1], 1) && nw.CenterInside()
    ensures ShiftOf(Mirror, nw) == Offset(1, 0)
    ensures nw.Hits(Offset(0, 0)) && nw.Hits(Offset(1, 0)) && !nw.Hits(Offset(2, 0))
  {
    var list: seq<nat> := [3, 1];
    assert nw.cols == 2;
    assert IsCenter(list[0]);
    assert Index(2, 0, nw.centerX) == nw.centerX;
    assert At(list, 2, 0, 0) == 3 && At(list, 2, 0, 1) == 1;
  }
}
