/** The falling-block game: a ROWS x COLS grid of settled cells, the active piece,
    the lookahead queue, the hold slot and the score, line and level counters.
    Cell value 0 is empty; any other value is a settled block. */
module Blockfall {

  const ROWS: nat := 20
  const COLS: nat := 10

  type Row = seq<int>
  type Matrix = seq<Row>

  /** The seven piece letters, the alphabet "ILJOTSZ" that new pieces are drawn from. */
  datatype Kind = I | L | J | O | T | S | Z

  /** The active piece: its offset in the grid and its (possibly rotated) shape. */
  datatype Piece = Piece(x: int, y: int, shape: Matrix)

  /** The hold slot. Empty is the source's null; Unknown is the undefined that the
      shape lookup leaves when the current shape matches no piece definition. */
  datatype Slot = Empty | Unknown | Holding(kind: Kind)

  /** The keys the game reacts to. */
  datatype Key = ArrowLeft | ArrowRight | ArrowDown | ArrowUp | Space | KeyC | KeyR | OtherKey

  // ---------------------------------------------------------------------------
  // Matrices, shapes and the grid
  // ---------------------------------------------------------------------------

  predicate Rectangular(m: Matrix) {
    |m| >= 1 && |m[0]| >= 1 && forall r :: 0 <= r < |m| ==> |m[r]| == |m[0]|
  }

  predicate HasBlock(m: Matrix) {
    exists r, c :: 0 <= r < |m| && 0 <= c < |m[r]| && m[r][c] != 0
  }

  /** What every shape a piece can take looks like: at most 4 x 4, with a block. */
  predicate WellShaped(m: Matrix) {
    Rectangular(m) && |m| <= 4 && |m[0]| <= 4 && HasBlock(m)
  }

  predicate IsGrid(g: Matrix) {
    |g| == ROWS && forall r :: 0 <= r < |g| ==> |g[r]| == COLS
  }

  function ZeroRow(): Row {
    seq(COLS, _ => 0)
  }

  function Zeros(n: nat): Matrix {
    seq(n, _ => ZeroRow())
  }

  /** The grid of a new game: ROWS rows of COLS zeros. */
  function EmptyGrid(): Matrix {
    Zeros(ROWS)
  }

  /** The PIECES table. */
  function Shape(k: Kind): (m: Matrix)
    ensures Rectangular(m) && |m| == 2 - (if k == I then 1 else 0)
    ensures |m[0]| == (match k case I => 4 case O => 2 case _ => 3)
  {
    match k
    case I => [[1, 1, 1, 1]]
    case O => [[1, 1],
               [1, 1]]
    case T => [[0, 1, 0],
               [1, 1, 1]]
    case S => [[0, 1, 1],
               [1, 1, 0]]
    case Z => [[1, 1, 0],
               [0, 1, 1]]
    case J => [[1, 0, 0],
               [1, 1, 1]]
    case L => [[0, 0, 1],
               [1, 1, 1]]
  }

  /** A column of the top row of Shape(k) that holds a block. */
  function TopBlock(k: Kind): nat {
    match k
    case I => 0
    case O => 0
    case T => 1
    case S => 1
    case Z => 0
    case J => 0
    case L => 2
  }

  lemma ShapeHasTopBlock(k: Kind)
    ensures TopBlock(k) < |Shape(k)[0]| && Shape(k)[0][TopBlock(k)] != 0
    ensures WellShaped(Shape(k))
  {
    var m := Shape(k);
    assert m[0][TopBlock(k)] != 0;
  }

  /** createPiece: the piece of kind k on the top row, centred at COLS / 2 - ceil(width / 2). */
  function Spawn(k: Kind): (p: Piece)
    ensures p.y == 0 && p.shape == Shape(k)
    ensures 0 <= p.x && p.x + |p.shape[0]| <= COLS
  {
    var w := |Shape(k)[0]|;
    Piece(COLS / 2 - (w + 1) / 2, 0, Shape(k))
  }

  // ---------------------------------------------------------------------------
  // Collision and merge
  // ---------------------------------------------------------------------------

  /** Grid cell (r, c) lies under a block of p's shape. */
  predicate Covers(p: Piece, r: int, c: int) {
    0 <= r - p.y < |p.shape| && 0 <= c - p.x < |p.shape[r - p.y]| && p.shape[r - p.y][c - p.x] != 0
  }

  predicate InGrid(g: Matrix, r: int, c: int) {
    0 <= r < |g| && 0 <= c < |g[r]|
  }

  /** A lookup the source treats as a hit: a missing row or column, or a nonzero cell. */
  predicate Blocked(g: Matrix, r: int, c: int) {
    !InGrid(g, r, c) || g[r][c] != 0
  }

  /** Some block of the piece lands outside the grid or on a settled cell. */
  ghost predicate Collides(g: Matrix, p: Piece) {
    exists r, c :: Covers(p, r, c) && Blocked(g, r, c)
  }

  /** Every block of the piece lands inside the grid. */
  ghost predicate Fits(g: Matrix, p: Piece) {
    forall r, c :: Covers(p, r, c) ==> InGrid(g, r, c)
  }

  /** collide: scans the shape row by row and stops at the first block that is blocked. */
  method Collide(g: Matrix, p: Piece) returns (hit: bool)
    ensures hit <==> Collides(g, p)
  {
    var y := 0;
    while y < |p.shape|
      invariant 0 <= y <= |p.shape|
      invariant forall r, c :: Covers(p, r, c) && r - p.y < y ==> !Blocked(g, r, c)
    {
      var x := 0;
      while x < |p.shape[y]|
        invariant 0 <= x <= |p.shape[y]|
        invariant forall r, c :: Covers(p, r, c) && (r - p.y < y || (r - p.y == y && c - p.x < x)) ==> !Blocked(g, r, c)
      {
        var row, col := y + p.y, x + p.x;
        if p.shape[y][x] != 0 && (!(0 <= row < |g| && 0 <= col < |g[row]|) || g[row][col] != 0) {
          assert Covers(p, row, col) && Blocked(g, row, col);
          return true;
        }
        x := x + 1;
      }
      y := y + 1;
    }
    return false;
  }

  /** The grid after writing each block of p's shape into the cell under it. */
  function Merged(g: Matrix, p: Piece): (m: Matrix)
    ensures |m| == |g| && forall r :: 0 <= r < |g| ==> |m[r]| == |g[r]|
    ensures forall r, c :: InGrid(g, r, c) && (Covers(p, r, c) || g[r][c] != 0) ==> m[r][c] != 0
  {
    seq(|g|, r requires 0 <= r < |g| =>
      seq(|g[r]|, c requires 0 <= c < |g[r]| =>
        if Covers(p, r, c) then p.shape[r - p.y][c - p.x] else g[r][c]))
  }

  /** A merged piece is part of the grid: at the same place it now collides. */
  lemma {:induction false} MergedPieceCollides(g: Matrix, p: Piece)
    requires Fits(g, p) && HasBlock(p.shape)
    ensures Collides(Merged(g, p), p)
  {
    var r, c :| 0 <= r < |p.shape| && 0 <= c < |p.shape[r]| && p.shape[r][c] != 0;
    assert Covers(p, p.y + r, p.x + c);
    assert Blocked(Merged(g, p), p.y + r, p.x + c);
  }

  // ---------------------------------------------------------------------------
  // Rotation
  // ---------------------------------------------------------------------------

  /** Column i of m becomes row i. */
  function Transpose(m: Matrix): (t: Matrix)
    requires Rectangular(m)
  {
    seq(|m[0]|, i requires 0 <= i < |m[0]| =>
      seq(|m|, j requires 0 <= j < |m| => m[j][i]))
  }

  function Reverse(s: Row): (r: Row)
    ensures |r| == |s|
  {
    if s == [] then [] else Reverse(s[1..]) + [s[0]]
  }

  lemma {:induction false} ReverseAt(s: Row, k: int)
    requires 0 <= k < |s|
    ensures Reverse(s)[k] == s[|s| - 1 - k]
  {
    if k < |s| - 1 {
      ReverseAt(s[1..], k);
    }
  }

  /** rotate: transpose, then reverse each row (a quarter turn clockwise). */
  function Rotate(m: Matrix): (r: Matrix)
    requires Rectangular(m)
    ensures Rectangular(r) && |r| == |m[0]| && |r[0]| == |m|
  {
    var t := Transpose(m);
    seq(|t|, i requires 0 <= i < |t| => Reverse(t[i]))
  }

  /** Entry (i, j) of the turned matrix is entry (R-1-j, i) of an R-row matrix. */
  lemma RotateAt(m: Matrix, i: int, j: int)
    requires Rectangular(m) && 0 <= i < |m[0]| && 0 <= j < |m|
    ensures Rotate(m)[i][j] == m[|m| - 1 - j][i]
  {
    ReverseAt(Transpose(m)[i], j);
  }

  /** Four quarter turns give back the original matrix. */
  lemma FourTurnsIdentity(m: Matrix)
    requires Rectangular(m)
    ensures Rotate(Rotate(Rotate(Rotate(m)))) == m
  {
    var r1 := Rotate(m);
    var r2 := Rotate(r1);
    var r3 := Rotate(r2);
    var r4 := Rotate(r3);
    var R, C := |m|, |m[0]|;
    forall i | 0 <= i < R
      ensures r4[i] == m[i]
    {
      forall j | 0 <= j < C
        ensures r4[i][j] == m[i][j]
      {
        RotateAt(r3, i, j);
        RotateAt(r2, C - 1 - j, i);
        RotateAt(r1, R - 1 - i, C - 1 - j);
        RotateAt(m, j, R - 1 - i);
      }
    }
  }

  /** The coordinates of the nonzero cells. */
  function Cells(m: Matrix): set<(int, int)> {
    set r, c | 0 <= r < |m| && 0 <= c < |m[r]| && m[r][c] != 0 :: (r, c)
  }

  /** Where a quarter turn of an R-row matrix sends cell p. */
  function Turned(p: (int, int), R: int): (int, int) {
    (p.1, R - 1 - p.0)
  }

  lemma {:induction false} TurnedImageSize(s: set<(int, int)>, R: int)
    ensures |set p | p in s :: Turned(p, R)| == |s|
    decreases |s|
  {
    if s != {} {
      var q :| q in s;
      var rest := s - {q};
      TurnedImageSize(rest, R);
      var image := set p | p in s :: Turned(p, R);
      var restImage := set p | p in rest :: Turned(p, R);
      assert image == restImage + {Turned(q, R)};
      assert Turned(q, R) !in restImage;
    }
  }

  /** A quarter turn keeps the number of blocks. */
  lemma RotatePreservesBlocks(m: Matrix)
    requires Rectangular(m)
    ensures |Cells(Rotate(m))| == |Cells(m)|
  {
    var R := |m|;
    var rm := Rotate(m);
    var image := set p | p in Cells(m) :: Turned(p, R);
    forall q | q in Cells(rm)
      ensures q in image
    {
      RotateAt(m, q.0, q.1);
      assert (R - 1 - q.1, q.0) in Cells(m);
    }
    forall q | q in image
      ensures q in Cells(rm)
    {
      var p :| p in Cells(m) && q == Turned(p, R);
      RotateAt(m, p.1, R - 1 - p.0);
    }
    assert Cells(rm) == image;
    TurnedImageSize(Cells(m), R);
  }

  lemma RotateWellShaped(m: Matrix)
    requires WellShaped(m)
    ensures WellShaped(Rotate(m))
  {
    var r, c :| 0 <= r < |m| && 0 <= c < |m[r]| && m[r][c] != 0;
    RotateAt(m, c, |m| - 1 - r);
  }

  // ---------------------------------------------------------------------------
  // Hard drop and wall kicks (specifications)
  // ---------------------------------------------------------------------------

  /** A piece with a block that does not collide lies above the bottom of the grid. */
  lemma FreeIsAboveBottom(g: Matrix, p: Piece)
    requires HasBlock(p.shape) && !Collides(g, p)
    ensures p.y < |g|
  {
    var r, c :| 0 <= r < |p.shape| && 0 <= c < |p.shape[r]| && p.shape[r][c] != 0;
    assert Covers(p, p.y + r, p.x + c);
  }

  /** Where a hard drop comes to rest: straight down from p, as long as the row below is free. */
  ghost function Dropped(g: Matrix, p: Piece): (d: Piece)
    requires HasBlock(p.shape) && !Collides(g, p)
    ensures d.x == p.x && d.shape == p.shape && d.y >= p.y
    ensures !Collides(g, d) && Collides(g, d.(y := d.y + 1))
    ensures forall k :: p.y <= k <= d.y ==> !Collides(g, p.(y := k))
    decreases |g| - p.y
  {
    FreeIsAboveBottom(g, p);
    var below := p.(y := p.y + 1);
    if Collides(g, below) then p else Dropped(g, below)
  }

  /** The horizontal displacement from the start after i kick steps: 0, 1, -1, 2, -2, ... */
  function KickShift(i: nat): int {
    if i % 2 == 1 then (i + 1) / 2 else -(i / 2)
  }

  /** How many displacements the kick search tests for a turned shape w cells wide: the
      search stops as soon as the next offset exceeds w, before testing the last shift. */
  function KickTries(w: nat): nat {
    w + w % 2
  }

  /** The offset playerRotate adds at kick step i: 1, -2, 3, -4, ... */
  function KickOffset(i: nat): int {
    if i % 2 == 0 then i + 1 else -(i + 1)
  }

  /** One kick step: the offset moves the piece from shift i to shift i + 1, the offset
      update of the source gives the next offset, and the search ends exactly when the next
      offset exceeds the width, after KickTries(w) steps. */
  lemma KickStep(i: nat, w: nat)
    requires i < KickTries(w)
    ensures KickShift(i) + KickOffset(i) == KickShift(i + 1)
    ensures -(KickOffset(i) + (if KickOffset(i) > 0 then 1 else -1)) == KickOffset(i + 1)
    ensures KickOffset(i + 1) > w <==> i + 1 == KickTries(w)
    ensures KickOffsetInRange(KickOffset(i), w)
  {
  }

  /** The first of the displacements i, i+1, ..., n-1 at which the turned shape is free,
      or the unturned piece p when there is none. */
  ghost function Kicked(g: Matrix, p: Piece, turned: Matrix, i: nat, n: nat): Piece
    decreases n - i
  {
    if i >= n then p
    else
      var candidate := Piece(p.x + KickShift(i), p.y, turned);
      if !Collides(g, candidate) then candidate else Kicked(g, p, turned, i + 1, n)
  }

  /** The offsets the source's kick loop may hold for a turned shape w cells wide: never
      zero, at most w when positive and at most w + 1 in size when negative. */
  predicate KickOffsetInRange(offset: int, w: int) {
    offset != 0 && (offset > 0 ==> offset <= w) && (offset < 0 ==> -offset <= w + 1)
  }

  /** playerRotate's loop, as written: the turned shape is tried at column x; when it is
      blocked, x moves by offset and the offset becomes -(offset + sign(offset)); the turn
      is undone (p is the result) once that new offset exceeds w. */
  ghost function KickSearch(g: Matrix, p: Piece, turned: Matrix, x: int, offset: int, w: int): Piece
    requires KickOffsetInRange(offset, w)
    decreases w + 2 - (if offset > 0 then offset else -offset)
  {
    var candidate := Piece(x, p.y, turned);
    if !Collides(g, candidate) then candidate
    else
      var next := -(offset + (if offset > 0 then 1 else -1));
      if next > w then p else KickSearch(g, p, turned, x + offset, next, w)
  }

  /** The outcome of playerRotate. */
  ghost function RotateOutcome(g: Matrix, p: Piece): Piece
    requires Rectangular(p.shape)
  {
    KickSearch(g, p, Rotate(p.shape), p.x, 1, |p.shape|)
  }

  /** The loop as written tries exactly the displacements KickShift(0), ..., KickShift(n - 1)
      for n = KickTries(w), in that order. */
  lemma {:induction false} KickSearchKicked(g: Matrix, p: Piece, turned: Matrix, i: nat, w: nat)
    requires i < KickTries(w)
    ensures KickOffsetInRange(KickOffset(i), w)
    ensures KickSearch(g, p, turned, p.x + KickShift(i), KickOffset(i), w) == Kicked(g, p, turned, i, KickTries(w))
    decreases KickTries(w) - i
  {
    KickStep(i, w);
    var candidate := Piece(p.x + KickShift(i), p.y, turned);
    if Collides(g, candidate) && i + 1 < KickTries(w) {
      KickSearchKicked(g, p, turned, i + 1, w);
    }
  }

  lemma {:induction false} KickedCases(g: Matrix, p: Piece, turned: Matrix, i: nat, n: nat)
    requires !Collides(g, p)
    ensures var r := Kicked(g, p, turned, i, n);
      && r.y == p.y && !Collides(g, r)
      && (r == p || (r.shape == turned && exists k :: i <= k < n && r.x == p.x + KickShift(k)))
    decreases n - i
  {
    if i < n {
      var candidate := Piece(p.x + KickShift(i), p.y, turned);
      if Collides(g, candidate) {
        KickedCases(g, p, turned, i + 1, n);
      } else {
        assert i <= i < n && candidate.x == p.x + KickShift(i);
      }
    }
  }

  /** A rotation either leaves the piece as it was, or turns it and shifts it to a tested
      free column; the row never changes and a free piece stays free. */
  lemma RotateOutcomeCases(g: Matrix, p: Piece)
    requires Rectangular(p.shape) && !Collides(g, p)
    ensures var r := RotateOutcome(g, p);
      && r.y == p.y && !Collides(g, r)
      && (r == p || (r.shape == Rotate(p.shape)
                     && exists k :: 0 <= k < KickTries(|p.shape|) && r.x == p.x + KickShift(k)))
  {
    var turned, n := Rotate(p.shape), KickTries(|p.shape|);
    assert KickShift(0) == 0 && KickOffset(0) == 1;
    KickSearchKicked(g, p, turned, 0, |p.shape|);
    assert RotateOutcome(g, p) == Kicked(g, p, turned, 0, n);
    KickedCases(g, p, turned, 0, n);
  }

  /** When every tested displacement collides, the rotation is undone. */
  lemma {:induction false} AllKicksBlockedReverts(g: Matrix, p: Piece, turned: Matrix, i: nat, n: nat)
    requires forall k :: i <= k < n ==> Collides(g, Piece(p.x + KickShift(k), p.y, turned))
    ensures Kicked(g, p, turned, i, n) == p
    decreases n - i
  {
    if i < n {
      AllKicksBlockedReverts(g, p, turned, i + 1, n);
    }
  }

  // ---------------------------------------------------------------------------
  // Sweep (specification)
  // ---------------------------------------------------------------------------

  /** A row without an empty cell. */
  predicate Full(row: Row) {
    forall c :: 0 <= c < |row| ==> row[c] != 0
  }

  predicate NoFullRow(g: Matrix) {
    forall r :: 0 <= r < |g| ==> !Full(g[r])
  }

  /** Some row other than the top one is full. */
  ghost predicate FullBelowTop(g: Matrix) {
    exists r :: 1 <= r < |g| && Full(g[r])
  }

  /** The rows that are not full, in their original order. */
  function Kept(rows: Matrix): (k: Matrix)
    ensures |k| <= |rows|
    ensures forall i :: 0 <= i < |k| ==> !Full(k[i])
  {
    if rows == [] then [] else (if Full(rows[0]) then [] else [rows[0]]) + Kept(rows[1..])
  }

  lemma {:induction false} KeptNone(rows: Matrix)
    requires NoFullRow(rows)
    ensures Kept(rows) == rows
  {
    if rows != [] {
      KeptNone(rows[1..]);
    }
  }

  lemma {:induction false} KeptAllMeansNoFull(rows: Matrix)
    requires |Kept(rows)| == |rows|
    ensures NoFullRow(rows)
  {
    if rows != [] {
      KeptAllMeansNoFull(rows[1..]);
      assert forall r :: 1 <= r < |rows| ==> rows[r] == rows[1..][r - 1];
    }
  }

  lemma {:induction false} KeptConcat(a: Matrix, b: Matrix)
    ensures Kept(a + b) == Kept(a) + Kept(b)
  {
    if a != [] {
      assert (a + b)[1..] == a[1..] + b;
      KeptConcat(a[1..], b);
    } else {
      assert a + b == b;
    }
  }

  /** The grid after sweep, as the loop leaves it: when a row below the top is full, every
      full row (the top one included) is removed and as many zero rows are put on top;
      otherwise nothing changes, even when the top row is full. */
  ghost function Swept(g: Matrix): (s: Matrix)
    ensures |s| == |g|
  {
    if FullBelowTop(g) then Zeros(|g| - |Kept(g)|) + Kept(g) else g
  }

  /** The number of rows sweep removes. */
  ghost function Cleared(g: Matrix): nat {
    if FullBelowTop(g) then |g| - |Kept(g)| else 0
  }

  /** Kept rows come from the input, so they keep its row width. */
  lemma {:induction false} KeptWidth(rows: Matrix, w: int)
    requires forall r :: 0 <= r < |rows| ==> |rows[r]| == w
    ensures forall i :: 0 <= i < |Kept(rows)| ==> |Kept(rows)[i]| == w
  {
    if rows != [] {
      KeptWidth(rows[1..], w);
    }
  }

  lemma SweptIsGrid(g: Matrix)
    requires IsGrid(g)
    ensures IsGrid(Swept(g))
  {
    KeptWidth(g, COLS);
  }

  /** A sweep that removes something leaves no full row, and one that removes nothing
      leaves a grid whose only possibly full row is the top one. */
  lemma SweptClearsAll(g: Matrix)
    requires IsGrid(g)
    ensures Cleared(g) > 0 <==> FullBelowTop(g)
    ensures FullBelowTop(g) ==> NoFullRow(Swept(g))
    ensures !FullBelowTop(g) ==> Swept(g) == g && forall r :: 1 <= r < |g| ==> !Full(g[r])
  {
    if FullBelowTop(g) {
      var r :| 1 <= r < |g| && Full(g[r]);
      if |Kept(g)| == |g| {
        KeptAllMeansNoFull(g);
      }
      var s := Swept(g);
      forall i | 0 <= i < |s|
        ensures !Full(s[i])
      {
        if i < |g| - |Kept(g)| {
          assert s[i] == ZeroRow() && s[i][0] == 0;
        }
      }
    }
  }

  lemma NoFullSlice(g: Matrix, lo: int, hi: int)
    requires 0 <= lo <= hi <= |g|
    requires forall r :: lo <= r < hi ==> !Full(g[r])
    ensures NoFullRow(g[lo..hi])
  {
    forall r | 0 <= r < hi - lo
      ensures !Full(g[lo..hi][r])
    {
      assert g[lo..hi][r] == g[lo + r];
    }
  }

  /** The only full row is the one left out. */
  lemma KeptOneFull(g: Matrix, k: int)
    requires 0 <= k < |g| && Full(g[k]) && NoFullRow(g[..k]) && NoFullRow(g[k + 1..])
    ensures Kept(g) == g[..k] + g[k + 1..]
  {
    assert g == g[..k] + g[k..];
    KeptConcat(g[..k], g[k..]);
    KeptNone(g[..k]);
    KeptSkipsFull(g, k);
    KeptNone(g[k + 1..]);
  }

  /** Exactly one full row k below the top: it is removed, the rows above it move down by
      one, a zero row appears on top and one row counts as cleared. */
  lemma SweepOneRow(g: Matrix, k: int)
    requires IsGrid(g) && 1 <= k < |g| && Full(g[k])
    requires forall r :: 0 <= r < |g| && r != k ==> !Full(g[r])
    ensures Swept(g) == [ZeroRow()] + g[..k] + g[k + 1..]
    ensures Cleared(g) == 1
  {
    NoFullSlice(g, 0, k);
    NoFullSlice(g, k + 1, |g|);
    assert g[0..k] == g[..k] && g[k + 1..|g|] == g[k + 1..];
    KeptOneFull(g, k);
    assert FullBelowTop(g);
    assert Zeros(1) == [ZeroRow()];
  }

  /** When every full row lies in rows lo .. hi-1, at most hi - lo rows are full. */
  lemma {:induction false} FullRowsInBand(rows: Matrix, lo: nat, hi: int)
    requires forall i :: 0 <= i < |rows| && Full(rows[i]) ==> lo <= i < hi
    ensures |rows| - |Kept(rows)| <= if hi > lo then hi - lo else 0
  {
    if rows != [] {
      var rest := rows[1..];
      var lo' := if lo > 0 then lo - 1 else 0;
      forall i | 0 <= i < |rest| && Full(rest[i])
        ensures lo' <= i < hi - 1
      {
        assert rest[i] == rows[i + 1];
      }
      FullRowsInBand(rest, lo', hi - 1);
    }
  }

  /** Merging a piece into a grid without full rows can fill only the rows the piece spans. */
  lemma MergeFillsOnlyPieceRows(g: Matrix, p: Piece)
    requires IsGrid(g) && NoFullRow(g) && Fits(g, p)
    ensures forall r :: 0 <= r < |g| && Full(Merged(g, p)[r]) ==> p.y <= r < p.y + |p.shape|
  {
    var m := Merged(g, p);
    forall r | 0 <= r < |g| && !(p.y <= r < p.y + |p.shape|)
      ensures !Full(m[r])
    {
      var c :| 0 <= c < |g[r]| && g[r][c] == 0;
      assert m[r][c] == 0;
    }
  }

  /** After a piece at most four rows tall settles on a grid without full rows, at most four
      rows are cleared, so the score table lookup is always in range. */
  lemma ClearedAtMostFour(g: Matrix, p: Piece)
    requires IsGrid(g) && NoFullRow(g) && Fits(g, p) && |p.shape| <= 4
    ensures Cleared(Merged(g, p)) <= 4
  {
    var m := Merged(g, p);
    MergeFillsOnlyPieceRows(g, p);
    FullRowsInBand(m, if p.y > 0 then p.y else 0, p.y + |p.shape|);
  }

  /** The score table [100, 300, 500, 800], indexed by the number of rows cleared minus one. */
  function LineScore(n: int): (points: nat)
    requires 1 <= n <= 4
    ensures 100 * n <= points <= 200 * n
  {
    [100, 300, 500, 800][n - 1]
  }

  /** Milliseconds between automatic drops: 1000 - 50 * level, but never below 50. */
  function DropInterval(level: int): (ms: int)
    requires level >= 0
    ensures 50 <= ms <= 1000
    ensures ms == 50 <==> level >= 19
  {
    if 1000 - level * 50 > 50 then 1000 - level * 50 else 50
  }

  /** The inner loop of sweep: a row is full when no cell is zero. */
  method RowIsFull(row: Row) returns (full: bool)
    ensures full <==> forall c :: 0 <= c < |row| ==> row[c] != 0
  {
    var x := 0;
    while x < |row|
      invariant 0 <= x <= |row|
      invariant forall c :: 0 <= c < x ==> row[c] != 0
    {
      if row[x] == 0 {
        return false;
      }
      x := x + 1;
    }
    return true;
  }

  // ---------------------------------------------------------------------------
  // Spawning
  // ---------------------------------------------------------------------------

  function Refilled(queue: seq<Kind>, draws: seq<Kind>): (q: seq<Kind>)
    requires |draws| == 4
    ensures |q| >= 4 && queue <= q
    ensures |queue| <= 6 ==> 3 <= |q| - 1 <= 6
  {
    if |queue| < 4 then queue + draws else queue
  }

  lemma NoFullRowEmpty()
    ensures IsGrid(EmptyGrid()) && NoFullRow(EmptyGrid())
  {
    forall r | 0 <= r < ROWS
      ensures !Full(EmptyGrid()[r])
    {
      assert EmptyGrid()[r][0] == 0;
    }
  }

  /** A new piece never collides with an empty grid. */
  lemma SpawnFree(k: Kind)
    ensures !Collides(EmptyGrid(), Spawn(k))
  {
    var p := Spawn(k);
    forall r, c | Covers(p, r, c)
      ensures !Blocked(EmptyGrid(), r, c)
    {
    }
  }

  /** A full top row blocks every new piece: each has a block in its top row, inside the grid. */
  lemma FullTopBlocksSpawn(g: Matrix, k: Kind)
    requires IsGrid(g) && Full(g[0])
    ensures Collides(g, Spawn(k))
  {
    ShapeHasTopBlock(k);
    var p := Spawn(k);
    assert Covers(p, 0, p.x + TopBlock(k)) && Blocked(g, 0, p.x + TopBlock(k));
  }

  /** After a sweep, the grid a new piece can enter has no full row: when nothing was
      cleared a full top row would have blocked the piece. */
  lemma SettledGridValid(m: Matrix, k: Kind)
    requires IsGrid(m)
    ensures !Collides(Swept(m), Spawn(k)) ==> NoFullRow(Swept(m))
    ensures NoFullRow(EmptyGrid())
  {
    NoFullRowEmpty();
    SweptClearsAll(m);
    if !Collides(Swept(m), Spawn(k)) && !FullBelowTop(m) && Full(m[0]) {
      FullTopBlocksSpawn(m, k);
    }
  }

  // ---------------------------------------------------------------------------
  // Hold
  // ---------------------------------------------------------------------------

  /** hold's lookup of the current letter: the first entry of the PIECES table, in the table's
      key order I, O, T, S, Z, J, L, whose shape equals m; Unknown when none does. */
  function KindOf(m: Matrix): (s: Slot)
    ensures s != Empty
    ensures s.Holding? ==> Shape(s.kind) == m
  {
    if m == Shape(I) then Holding(I)
    else if m == Shape(O) then Holding(O)
    else if m == Shape(T) then Holding(T)
    else if m == Shape(S) then Holding(S)
    else if m == Shape(Z) then Holding(Z)
    else if m == Shape(J) then Holding(J)
    else if m == Shape(L) then Holding(L)
    else Unknown
  }

  /** An unturned piece is found under its own letter. */
  lemma KindOfShape(k: Kind)
    ensures KindOf(Shape(k)) == Holding(k)
  {
    match k
    case I =>
    case O => assert Shape(O) != Shape(I);
    case T => assert Shape(T)[0][0] == 0 != Shape(O)[0][0];
    case S => assert Shape(S)[0][2] != Shape(T)[0][2];
    case Z => assert Shape(Z)[0][0] != Shape(S)[0][0] && Shape(Z)[0][0] != Shape(T)[0][0];
    case J => assert Shape(J)[1] != Shape(S)[1] && Shape(J)[1] != Shape(Z)[1] && Shape(J)[0] != Shape(T)[0];
    case L => assert Shape(L)[0] != Shape(J)[0] && Shape(L)[1] != Shape(S)[1] && Shape(L)[1] != Shape(Z)[1] && Shape(L)[0] != Shape(T)[0];
  }

  /** Entry (i, j) of a half turn is entry (R-1-i, C-1-j) of an R x C matrix. */
  lemma HalfTurnAt(m: Matrix, i: int, j: int)
    requires Rectangular(m) && 0 <= i < |m| && 0 <= j < |m[0]|
    ensures Rotate(Rotate(m))[i][j] == m[|m| - 1 - i][|m[0]| - 1 - j]
  {
    RotateAt(Rotate(m), i, j);
    RotateAt(m, |m[0]| - 1 - j, i);
  }

  /** A piece turned twice is found under its own letter when the half turn maps its
      shape onto itself (I, O, S and Z); a half-turned T, J or L matches no entry. */
  lemma HalfTurnedPiece(k: Kind)
    ensures KindOf(Rotate(Rotate(Shape(k)))) == if k in {T, J, L} then Unknown else Holding(k)
  {
    var m := Shape(k);
    var h := Rotate(Rotate(m));
    forall i, j | 0 <= i < |m| && 0 <= j < |m[0]|
      ensures h[i][j] == m[|m| - 1 - i][|m[0]| - 1 - j]
    {
      HalfTurnAt(m, i, j);
    }
    if k in {T, J, L} {
      assert h[0] == [1, 1, 1];
    } else {
      forall i | 0 <= i < |m|
        ensures h[i] == m[i]
      {
        assert |h[i]| == |m[i]|;
      }
      assert h == m;
    }
  }

  /** A quarter-turned piece other than O matches no table entry, so holding it stores Unknown. */
  lemma TurnedPieceUnknown(k: Kind)
    requires k != O
    ensures KindOf(Rotate(Shape(k))) == Unknown
  {
    var m := Rotate(Shape(k));
    assert |m| >= 3;
  }

  /** The state of sweep's loop at index y after c removals: c zero rows on top, then the
      original rows not yet examined, then the kept rows among those already examined. */
  ghost predicate SweepInv(orig: Matrix, g: Matrix, c: nat, y: int) {
    var j := if y - c + 1 > 0 then y - c + 1 else 0;
    && 0 <= y < |orig| && j <= |orig| && c <= |orig| && |g| == |orig|
    && g == Zeros(c) + orig[..j] + Kept(orig[j..])
    && c == (|orig| - j) - |Kept(orig[j..])|
    && (c > 0 ==> FullBelowTop(orig))
  }

  lemma SweepInit(orig: Matrix)
    requires orig != []
    ensures SweepInv(orig, orig, 0, |orig| - 1)
  {
    assert orig[|orig|..] == [];
    assert orig[..|orig|] == orig;
  }

  /** The row at index y: an original row not yet examined, or one of the zero rows. */
  lemma SweepRowAt(orig: Matrix, g: Matrix, c: nat, y: int)
    requires SweepInv(orig, g, c, y)
    ensures var j := if y - c + 1 > 0 then y - c + 1 else 0;
      && (j > 0 ==> g[y] == orig[j - 1])
      && (j == 0 ==> !Full(g[y]))
  {
    var j := if y - c + 1 > 0 then y - c + 1 else 0;
    if j == 0 {
      assert g[y] == ZeroRow() && g[y][0] == 0;
    }
  }

  /** A full row at y is cut out and an empty row put on top; y is examined again. */
  lemma SweepRemove(orig: Matrix, g: Matrix, c: nat, y: int)
    requires SweepInv(orig, g, c, y) && Full(g[y]) && y > 0
    ensures SweepInv(orig, CutRow(g, y), c + 1, y)
  {
    var j := if y - c + 1 > 0 then y - c + 1 else 0;
    SweepRowAt(orig, g, c, y);
    if j == 0 {
      assert false;
    }
    KeptSkipsFull(orig, j - 1);
    SpliceRow(orig, g, c, j, y);
    if j >= 2 {
      assert 1 <= j - 1 < |orig| && Full(orig[j - 1]);
    }
  }

  lemma KeptSkipsFull(orig: Matrix, k: int)
    requires 0 <= k < |orig| && Full(orig[k])
    ensures Kept(orig[k..]) == Kept(orig[k + 1..])
  {
    assert orig[k..][1..] == orig[k + 1..];
  }

  lemma SpliceRow(orig: Matrix, g: Matrix, c: nat, j: int, y: int)
    requires 1 <= j <= |orig| && y == c + j - 1
    requires g == Zeros(c) + orig[..j] + Kept(orig[j..])
    requires Kept(orig[j - 1..]) == Kept(orig[j..])
    ensures [ZeroRow()] + g[..y] + g[y + 1..] == Zeros(c + 1) + orig[..j - 1] + Kept(orig[j - 1..])
  {
    SpliceParts(orig, g, c, j, y);
    ZerosCons(c);
    assert [ZeroRow()] + (Zeros(c) + orig[..j - 1]) == Zeros(c + 1) + orig[..j - 1];
  }

  /** The grid of the sweep loop, cut at the full row y, in its two parts. */
  lemma SpliceParts(orig: Matrix, g: Matrix, c: nat, j: int, y: int)
    requires 1 <= j <= |orig| && y == c + j - 1
    requires g == Zeros(c) + orig[..j] + Kept(orig[j..])
    ensures g[..y] == Zeros(c) + orig[..j - 1] && g[y + 1..] == Kept(orig[j..])
  {
    var front, row, back := Zeros(c) + orig[..j - 1], orig[j - 1], Kept(orig[j..]);
    assert orig[..j] == orig[..j - 1] + [row];
    assert g == front + [row] + back;
    CutOut(front, row, back);
  }

  lemma ZerosCons(c: nat)
    ensures [ZeroRow()] + Zeros(c) == Zeros(c + 1)
  {
  }

  /** Cutting the element after a prefix out of a sequence leaves prefix and suffix. */
  lemma CutOut<T>(front: seq<T>, x: T, back: seq<T>)
    ensures (front + [x] + back)[..|front|] == front
    ensures (front + [x] + back)[|front| + 1..] == back
  {
  }

  /** A row at y that is not full stays; the loop moves up one row. */
  lemma SweepKeep(orig: Matrix, g: Matrix, c: nat, y: int)
    requires SweepInv(orig, g, c, y) && !Full(g[y]) && y > 0
    ensures SweepInv(orig, g, c, y - 1)
  {
    var j := if y - c + 1 > 0 then y - c + 1 else 0;
    SweepRowAt(orig, g, c, y);
    if j > 0 {
      var k := j - 1;
      assert orig[k..][1..] == orig[j..];
      assert Kept(orig[k..]) == [orig[k]] + Kept(orig[j..]);
      assert orig[..j] == orig[..k] + [orig[k]];
    }
  }

  /** When the loop stops at row 0 its grid is the swept grid and its count the cleared one. */
  lemma SweepDone(orig: Matrix, g: Matrix, c: nat)
    requires SweepInv(orig, g, c, 0)
    ensures g == Swept(orig) && c == Cleared(orig)
  {
    if c == 0 {
      SweepDoneNothing(orig, g);
    } else {
      assert orig[0..] == orig;
      assert orig[..0] == [];
    }
  }

  lemma SweepDoneNothing(orig: Matrix, g: Matrix)
    requires 1 <= |orig|
    requires g == Zeros(0) + orig[..1] + Kept(orig[1..])
    requires |Kept(orig[1..])| == |orig| - 1
    ensures g == orig && !FullBelowTop(orig)
  {
    var rest := orig[1..];
    KeptAllMeansNoFull(rest);
    KeptNone(rest);
    assert Zeros(0) == [];
    assert g == orig[..1] + rest;
    assert orig == orig[..1] + rest;
    forall r | 1 <= r < |orig|
      ensures !Full(orig[r])
    {
      assert orig[r] == rest[r - 1];
    }
  }

  /** Row y cut out of g, emptied and put on top. */
  function CutRow(g: Matrix, y: int): (h: Matrix)
    requires 0 <= y < |g|
    ensures |h| == |g|
  {
    [ZeroRow()] + g[..y] + g[y + 1..]
  }

  /** Cutting a full row out and putting a zero row on top leaves one full row fewer. */
  lemma CutRowKeeps(g: Matrix, y: int)
    requires 0 <= y < |g| && Full(g[y])
    ensures |Kept(CutRow(g, y))| == |Kept(g)| + 1
  {
    var above, below := g[..y], g[y + 1..];
    assert g == above + [g[y]] + below;
    assert Kept([g[y]]) == [] by {
      assert [g[y]][1..] == [];
    }
    KeptConcat(above, [g[y]]);
    KeptConcat(above + [g[y]], below);
    assert Kept([ZeroRow()]) == [ZeroRow()] by {
      assert ZeroRow()[0] == 0;
      assert [ZeroRow()][1..] == [];
    }
    KeptConcat([ZeroRow()], above);
    KeptConcat([ZeroRow()] + above, below);
  }

  /** sweep's loop run from index y with c rows already removed: its final grid and count. */
  ghost function SweepLoop(g: Matrix, c: nat, y: int): (Matrix, nat)
    requires y < |g|
    decreases |g| - |Kept(g)|, y
  {
    if y <= 0 then (g, c)
    else if Full(g[y]) then
      CutRowKeeps(g, y);
      SweepLoop(CutRow(g, y), c + 1, y)
    else SweepLoop(g, c, y - 1)
  }

  /** From any state the loop invariant describes, the loop ends with the swept grid and
      the cleared count. */
  lemma {:induction false} SweepLoopSweeps(orig: Matrix, g: Matrix, c: nat, y: int)
    requires SweepInv(orig, g, c, y)
    ensures SweepLoop(g, c, y) == (Swept(orig), Cleared(orig))
    decreases |g| - |Kept(g)|, y
  {
    if y == 0 {
      SweepDone(orig, g, c);
    } else if Full(g[y]) {
      SweepRemove(orig, g, c, y);
      CutRowKeeps(g, y);
      SweepLoopSweeps(orig, CutRow(g, y), c + 1, y);
    } else {
      SweepKeep(orig, g, c, y);
      SweepLoopSweeps(orig, g, c, y - 1);
    }
  }

  /** The loop of sweep: from the bottom row up to row 1, a full row is cut out, emptied
      and put on top, and the same index is examined again. */
  method RemoveFullRows(orig: Matrix) returns (grid: Matrix, rowCount: nat)
    requires orig != []
    ensures grid == Swept(orig) && rowCount == Cleared(orig)
  {
    grid, rowCount := orig, 0;
    var y := |grid| - 1;
    SweepInit(orig);
    SweepLoopSweeps(orig, orig, 0, y);
    while y > 0
      invariant 0 <= y < |grid|
      invariant SweepLoop(grid, rowCount, y) == (Swept(orig), Cleared(orig))
      decreases |grid| - |Kept(grid)|, y
    {
      var full := RowIsFull(grid[y]);
      if full {
        CutRowKeeps(grid, y);
        grid := [ZeroRow()] + grid[..y] + grid[y + 1..];
        rowCount := rowCount + 1;
      } else {
        y := y - 1;
      }
    }
  }

  // ---------------------------------------------------------------------------
  // The game state as a value, and the transitions the handlers make on it
  // ---------------------------------------------------------------------------

  /** The script's global state: the grid, the falling piece, the counters, the hold
      slot and the queue of upcoming letters. The drop counter, which only times the
      automatic drop, is kept apart (see Ticked). */
  datatype State = State(
    grid: Matrix, piece: Piece, score: int, level: int, lines: int, gameOver: bool,
    dropInterval: int, holdPiece: Slot, canHold: bool, nextPieces: seq<Kind>)

  /** The state between two events: no settled row is full, the falling piece is well
      formed and free, the queue holds three to six letters, a hold is possible only while
      the slot is empty, the level follows the cleared line count, and the drop interval
      stays within 50 .. 1000 ms. */
  ghost predicate ValidState(s: State) {
    Board(s.grid) && Falling(s.grid, s.piece) && Counters(s)
  }

  predicate Board(g: Matrix) {
    IsGrid(g) && NoFullRow(g)
  }

  ghost predicate Falling(g: Matrix, p: Piece) {
    WellShaped(p.shape) && !Collides(g, p)
  }

  predicate Counters(s: State) {
    && 3 <= |s.nextPieces| <= 6
    && (s.canHold ==> s.holdPiece == Empty)
    && 0 <= s.lines && s.level == s.lines / 10 && 50 <= s.dropInterval <= 1000
    && 0 <= s.score
  }

  lemma FreeFits(g: Matrix, p: Piece)
    requires !Collides(g, p)
    ensures Fits(g, p)
  {
  }

  /** sweep, with the scoring that follows it. */
  ghost function SweptState(s: State): State
    requires Cleared(s.grid) <= 4 && s.lines >= 0
  {
    var n := Cleared(s.grid);
    var t := s.(grid := Swept(s.grid));
    if n == 0 then t
    else t.(score := s.score + LineScore(n), lines := s.lines + n,
            level := (s.lines + n) / 10, dropInterval := DropInterval((s.lines + n) / 10))
  }

  /** merge, then sweep. */
  ghost function Locked(s: State): State
    requires IsGrid(s.grid) && NoFullRow(s.grid) && Fits(s.grid, s.piece)
    requires |s.piece.shape| <= 4 && s.lines >= 0
  {
    ClearedAtMostFour(s.grid, s.piece);
    SweptState(s.(grid := Merged(s.grid, s.piece)))
  }

  /** playerReset: refill the queue when fewer than four letters remain, spawn the first
      letter, and end the game (empty grid, score 0) when the new piece collides. */
  ghost function Respawned(s: State, draws: seq<Kind>): State
    requires |draws| == 4
  {
    var q := Refilled(s.nextPieces, draws);
    var p := Spawn(q[0]);
    var t := s.(piece := p, nextPieces := q[1..]);
    if Collides(s.grid, p) then t.(gameOver := true, grid := EmptyGrid(), score := 0) else t
  }

  /** A piece at rest: merged, full rows swept, then the next piece spawned. The source
      spawns before it sweeps; see Findings. */
  ghost function Settled(s: State, draws: seq<Kind>): State
    requires ValidState(s) && |draws| == 4
  {
    FreeFits(s.grid, s.piece);
    Respawned(Locked(s), draws)
  }

  /** playerMove: a sideways step, undone when it collides. */
  ghost function Moved(s: State, dir: int): State {
    var moved := s.piece.(x := s.piece.x + dir);
    if Collides(s.grid, moved) then s else s.(piece := moved)
  }

  /** playerRotate. */
  ghost function Rotated(s: State): State
    requires Rectangular(s.piece.shape)
  {
    s.(piece := RotateOutcome(s.grid, s.piece))
  }

  /** playerDrop: one row down, or at rest when that row collides (it also restarts the
      drop counter). */
  ghost function DroppedOne(s: State, draws: seq<Kind>): State
    requires ValidState(s) && |draws| == 4
  {
    var below := s.piece.(y := s.piece.y + 1);
    if Collides(s.grid, below) then Settled(s, draws) else s.(piece := below)
  }

  /** playerHardDrop: at rest where the straight fall stops. */
  ghost function HardDropped(s: State, draws: seq<Kind>): State
    requires ValidState(s) && |draws| == 4
  {
    Settled(s.(piece := Dropped(s.grid, s.piece)), draws)
  }

  /** hold: once a game, the falling piece's letter goes to the slot and the next piece
      spawns. (The source's swap with a held letter needs canHold with a filled slot, which
      no valid state has.) */
  ghost function Held(s: State, draws: seq<Kind>): State
    requires |draws| == 4
  {
    if !s.canHold then s
    else Respawned(s.(holdPiece := KindOf(s.piece.shape)), draws).(canHold := false)
  }

  /** The R key: fresh grid, counters, queue and hold slot, then playerReset. The drop
      interval and the drop counter keep their values. */
  ghost function Restarted(s: State, draws: seq<Kind>): State
    requires |draws| == 4
  {
    Respawned(s.(gameOver := false, grid := EmptyGrid(), score := 0, level := 0, lines := 0,
                 nextPieces := [], holdPiece := Empty, canHold := true), draws)
  }

  /** The state the script starts from, before its first playerReset. */
  function Start(): State {
    State(EmptyGrid(), Piece(0, 0, []), 0, 0, 0, false, 1000, Empty, true, [])
  }

  /** update: unless the game is over, delta milliseconds are added to the drop counter,
      and once the counter exceeds the interval the piece drops one row and the counter
      restarts. Returns the new state and the new counter. */
  ghost function Ticked(s: State, counter: int, delta: int, draws: seq<Kind>): (State, int)
    requires ValidState(s) && |draws| == 4
  {
    if s.gameOver then (s, counter)
    else if counter + delta > s.dropInterval then (DroppedOne(s, draws), 0)
    else (s, counter + delta)
  }

  /** The keydown handler. */
  ghost function KeyHandled(s: State, key: Key, draws: seq<Kind>): State
    requires ValidState(s) && |draws| == 4
  {
    if s.gameOver then (if key == KeyR then Restarted(s, draws) else s)
    else match key
      case ArrowLeft => Moved(s, -1)
      case ArrowRight => Moved(s, 1)
      case ArrowDown => DroppedOne(s, draws)
      case ArrowUp => Rotated(s)
      case Space => HardDropped(s, draws)
      case KeyC => Held(s, draws)
      case _ => s
  }

  // ---------------------------------------------------------------------------
  // What the transitions keep
  // ---------------------------------------------------------------------------

  /** A spawn keeps the state valid when the grid has no full row, or when any full row
      stops the new piece (the game then ends on an empty grid). */
  lemma RespawnedValid(s: State, draws: seq<Kind>)
    requires |draws| == 4 && IsGrid(s.grid) && |s.nextPieces| <= 6
    requires !Collides(s.grid, Spawn(Refilled(s.nextPieces, draws)[0])) ==> NoFullRow(s.grid)
    requires (s.canHold ==> s.holdPiece == Empty) && 0 <= s.lines && s.level == s.lines / 10
    requires 50 <= s.dropInterval <= 1000 && 0 <= s.score
    ensures ValidState(Respawned(s, draws))
  {
    var k := Refilled(s.nextPieces, draws)[0];
    ShapeHasTopBlock(k);
    NoFullRowEmpty();
    SpawnFree(k);
  }

  /** A piece at rest leaves a valid state, the line count never drops, and the score
      either grows by the table value of the rows cleared or is reset by a game over. */
  lemma SettledValid(s: State, draws: seq<Kind>)
    requires ValidState(s) && |draws| == 4
    ensures var t := Settled(s, draws);
      && ValidState(t)
      && t.lines >= s.lines
      && ((t.score == 0 && t.gameOver) || t.score >= s.score)
      && t.holdPiece == s.holdPiece && t.canHold == s.canHold
  {
    FreeFits(s.grid, s.piece);
    var m := Merged(s.grid, s.piece);
    var l := Locked(s);
    assert l.grid == Swept(m);
    SweptIsGrid(m);
    SettledGridValid(m, Refilled(s.nextPieces, draws)[0]);
    RespawnedValid(l, draws);
  }

  lemma MovedValid(s: State, dir: int)
    requires ValidState(s)
    ensures ValidState(Moved(s, dir))
  {
  }

  /** A successful step sideways is undone by the opposite step. */
  lemma MoveBack(s: State, dir: int)
    requires ValidState(s) && Moved(s, dir) != s
    ensures Moved(Moved(s, dir), -dir) == s
  {
    var t := Moved(s, dir);
    assert t.piece.(x := t.piece.x - dir) == s.piece;
  }

  lemma RotatedValid(s: State)
    requires ValidState(s)
    ensures ValidState(Rotated(s))
  {
    RotateOutcomeCases(s.grid, s.piece);
    RotateWellShaped(s.piece.shape);
  }

  lemma DroppedOneValid(s: State, draws: seq<Kind>)
    requires ValidState(s) && |draws| == 4
    ensures ValidState(DroppedOne(s, draws))
  {
    if Collides(s.grid, s.piece.(y := s.piece.y + 1)) {
      SettledValid(s, draws);
    }
  }

  /** A hard drop comes to rest on something, and leaves a valid state. */
  lemma HardDroppedValid(s: State, draws: seq<Kind>)
    requires ValidState(s) && |draws| == 4
    ensures ValidState(HardDropped(s, draws))
    ensures var d := Dropped(s.grid, s.piece); Collides(s.grid, d.(y := d.y + 1))
  {
    SettledValid(s.(piece := Dropped(s.grid, s.piece)), draws);
  }

  lemma HeldValid(s: State, draws: seq<Kind>)
    requires ValidState(s) && |draws| == 4
    ensures ValidState(Held(s, draws))
  {
    if s.canHold {
      var t := s.(holdPiece := KindOf(s.piece.shape), canHold := false);
      RespawnedValid(t, draws);
      assert Respawned(t, draws) == Respawned(s.(holdPiece := KindOf(s.piece.shape)), draws).(canHold := false);
    }
  }

  /** Holding works once: a second hold changes nothing. */
  lemma HoldOnce(s: State, first: seq<Kind>, second: seq<Kind>)
    requires |first| == 4 && |second| == 4
    ensures !Held(s, first).canHold
    ensures Held(Held(s, first), second) == Held(s, first)
  {
  }

  lemma RestartedValid(s: State, draws: seq<Kind>)
    requires 50 <= s.dropInterval <= 1000 && |draws| == 4
    ensures var t := Restarted(s, draws);
      && ValidState(t) && !t.gameOver && t.score == 0 && t.lines == 0 && t.grid == EmptyGrid()
      && t.dropInterval == s.dropInterval
  {
    var k := draws[0];
    NoFullRowEmpty();
    SpawnFree(k);
    RespawnedValid(s.(gameOver := false, grid := EmptyGrid(), score := 0, level := 0, lines := 0,
                      nextPieces := [], holdPiece := Empty, canHold := true), draws);
  }

  /** The first playerReset of the script leaves a valid, running game. */
  lemma StartValid(draws: seq<Kind>)
    requires |draws| == 4
    ensures var t := Respawned(Start(), draws);
      ValidState(t) && !t.gameOver && t.piece == Spawn(draws[0]) && t.nextPieces == draws[1..]
  {
    NoFullRowEmpty();
    SpawnFree(draws[0]);
    RespawnedValid(Start(), draws);
  }

  lemma TickedValid(s: State, counter: int, delta: int, draws: seq<Kind>)
    requires ValidState(s) && |draws| == 4
    ensures ValidState(Ticked(s, counter, delta, draws).0)
    ensures !s.gameOver ==> 0 <= Ticked(s, counter, delta, draws).1 <= s.dropInterval || Ticked(s, counter, delta, draws).1 == counter + delta
  {
    if !s.gameOver && counter + delta > s.dropInterval {
      DroppedOneValid(s, draws);
    }
  }

  /** Every key keeps the state valid; after a game over only R changes anything. */
  lemma KeyHandledValid(s: State, key: Key, draws: seq<Kind>)
    requires ValidState(s) && |draws| == 4
    ensures ValidState(KeyHandled(s, key, draws))
    ensures s.gameOver && key != KeyR ==> KeyHandled(s, key, draws) == s
  {
    if s.gameOver {
      if key == KeyR {
        RestartedValid(s, draws);
      }
    } else {
      match key
      case ArrowLeft => MovedValid(s, -1);
      case ArrowRight => MovedValid(s, 1);
      case ArrowDown => DroppedOneValid(s, draws);
      case ArrowUp => RotatedValid(s);
      case Space => HardDroppedValid(s, draws);
      case KeyC => HeldValid(s, draws);
      case _ =>
    }
  }

  // ---------------------------------------------------------------------------
  // The source's order at rest: spawn before sweep (see Findings)
  // ---------------------------------------------------------------------------

  lemma ClearedEmpty()
    ensures Cleared(EmptyGrid()) == 0
  {
    NoFullRowEmpty();
    assert !FullBelowTop(EmptyGrid());
  }

  /** What playerDrop and playerHardDrop do with a piece at rest, in the source's order:
      merge, playerReset (the new piece is tested against the grid before the sweep),
      then sweep. */
  ghost function SettledAsWritten(s: State, draws: seq<Kind>): State
    requires ValidState(s) && |draws| == 4
  {
    FreeFits(s.grid, s.piece);
    ClearedAtMostFour(s.grid, s.piece);
    ClearedEmpty();
    SweptState(Respawned(s.(grid := Merged(s.grid, s.piece)), draws))
  }

  /** The two orders also differ in what a fatal settle counts. In the source's order a
      next piece blocked by the merged grid empties it before the sweep, so no row is
      counted and lines, level and drop interval stay as they were. */
  lemma FatalSettleCountsNothing(s: State, draws: seq<Kind>)
    requires ValidState(s) && |draws| == 4
    requires Collides(Merged(s.grid, s.piece), Spawn(Refilled(s.nextPieces, draws)[0]))
    ensures var t := SettledAsWritten(s, draws);
      && t.gameOver && t.grid == EmptyGrid() && t.score == 0
      && t.lines == s.lines && t.level == s.level && t.dropInterval == s.dropInterval
  {
    FreeFits(s.grid, s.piece);
    var r := Respawned(s.(grid := Merged(s.grid, s.piece)), draws);
    assert r.gameOver && r.grid == EmptyGrid() && r.score == 0;
    assert r.lines == s.lines && r.level == s.level && r.dropInterval == s.dropInterval;
    ClearedEmpty();
    NoFullRowEmpty();
    SweptClearsAll(EmptyGrid());
    assert SweptState(r) == r;
  }

  /** In the corrected order the rows the sweep clears are counted before the next piece
      is tested, so they count even when that piece ends the game. */
  lemma SettledCountsCleared(s: State, draws: seq<Kind>)
    requires ValidState(s) && |draws| == 4
    ensures var u := Settled(s, draws);
      && u.lines == s.lines + Cleared(Merged(s.grid, s.piece))
      && u.level == u.lines / 10
  {
    FreeFits(s.grid, s.piece);
    ClearedAtMostFour(s.grid, s.piece);
    var l := Locked(s);
    assert l.lines == s.lines + Cleared(Merged(s.grid, s.piece)) && l.level == l.lines / 10;
    assert Settled(s, draws).lines == l.lines && Settled(s, draws).level == l.level;
  }

  /** Rows 0 and 1 hold a few blocks, row 19 lacks only its two leftmost cells, and an O
      piece is falling into that gap; a T is next in the queue. */
  function ExampleRow(r: int): (row: Row)
    ensures |row| == COLS && !Full(row)
  {
    if r == 0 then
      var row := [1, 1, 1, 1, 0, 0, 0, 0, 0, 0]; assert row[4] == 0; row
    else if r == 1 then
      var row := [1, 0, 0, 0, 0, 0, 0, 0, 0, 0]; assert row[1] == 0; row
    else if r == ROWS - 1 then
      var row := [0, 0, 1, 1, 1, 1, 1, 1, 1, 1]; assert row[0] == 0; row
    else
      var row := ZeroRow(); assert row[0] == 0; row
  }

  function ExampleGrid(): (g: Matrix)
    ensures IsGrid(g) && NoFullRow(g)
  {
    seq(ROWS, r => ExampleRow(r))
  }

  function ExampleState(): State {
    State(ExampleGrid(), Piece(0, 18, Shape(O)), 0, 0, 0, false, 1000, Empty, true, [T, I, I])
  }

  lemma ExampleValid()
    ensures ValidState(ExampleState())
  {
    var g := ExampleGrid();
    ShapeHasTopBlock(O);
    var p := ExampleState().piece;
    forall r, c | Covers(p, r, c)
      ensures !Blocked(g, r, c)
    {
      assert 18 <= r <= 19 && 0 <= c <= 1;
      assert g[r] == ExampleRow(r);
    }
  }

  /** Merging the O piece of the example fills row 19 and no other row. */
  lemma ExampleMergeFillsBottom()
    ensures var m := Merged(ExampleGrid(), ExampleState().piece);
      && IsGrid(m) && Full(m[ROWS - 1]) && m[0] == ExampleRow(0) && m[1] == ExampleRow(1)
      && forall r :: 0 <= r < ROWS && r != ROWS - 1 ==> !Full(m[r])
  {
    var g, p := ExampleGrid(), ExampleState().piece;
    var m := Merged(g, p);
    var bottom := m[ROWS - 1];
    forall c | 0 <= c < |bottom|
      ensures bottom[c] != 0
    {
      if c < 2 {
        assert Covers(p, ROWS - 1, c);
      } else {
        assert g[ROWS - 1] == ExampleRow(ROWS - 1);
      }
    }
    forall r | 0 <= r < ROWS && r != ROWS - 1
      ensures !Full(m[r])
    {
      assert g[r] == ExampleRow(r);
      if r == 18 {
        assert m[r][2] == 0;
      } else {
        assert m[r] == g[r];
      }
    }
  }

  /** On the merged but unswept grid the T spawns without a collision. */
  lemma ExampleSpawnFree()
    ensures !Collides(Merged(ExampleGrid(), ExampleState().piece), Spawn(T))
  {
    ExampleMergeFillsBottom();
    var m := Merged(ExampleGrid(), ExampleState().piece);
    var p := Spawn(T);
    forall r, c | Covers(p, r, c)
      ensures !Blocked(m, r, c)
    {
      assert 0 <= r <= 1 && 3 <= c <= 5;
    }
  }

  /** The source's order on the example: the T is spawned on the unswept grid, which
      then loses row 19. */
  lemma ExampleAsWritten()
    ensures ValidState(ExampleState())
    ensures var t := SettledAsWritten(ExampleState(), [I, I, I, I]);
      && t.grid == [ZeroRow()] + Merged(ExampleGrid(), ExampleState().piece)[..ROWS - 1]
      && t.piece == Spawn(T) && !t.gameOver
  {
    ExampleValid();
    var s := ExampleState();
    var m := Merged(s.grid, s.piece);
    ExampleMergeFillsBottom();
    SweepOneRow(m, ROWS - 1);
    ExampleSpawnFree();
    assert Refilled(s.nextPieces, [I, I, I, I])[0] == T;
  }

  /** In the source's order, clearing row 19 shifts row 0's blocks into the T that was
      spawned on top of the unswept grid: the game goes on with a falling piece that
      overlaps settled cells, which no valid state has. Its hard drop would stop at once
      and write the piece one row above the grid. The order used in this model (Settled)
      spawns the T on the swept grid and keeps the state valid (SettledValid). */
  lemma SpawnBeforeSweepOverlaps()
    ensures ValidState(ExampleState())
    ensures var t := SettledAsWritten(ExampleState(), [I, I, I, I]);
      && !t.gameOver && t.piece == Spawn(T) && Collides(t.grid, t.piece) && !ValidState(t)
    ensures var t := SettledAsWritten(ExampleState(), [I, I, I, I]);
      !Fits(t.grid, t.piece.(y := -1))
  {
    ExampleAsWritten();
    ExampleMergeFillsBottom();
    ShiftedRowZeroBlocksT(SettledAsWritten(ExampleState(), [I, I, I, I]),
                          Merged(ExampleGrid(), ExampleState().piece));
  }

  /** A T spawned on a grid whose rows were shifted down one, with the example's row 0
      on top, overlaps that row in its new place. */
  lemma ShiftedRowZeroBlocksT(t: State, m: Matrix)
    requires |m| == ROWS && m[0] == ExampleRow(0) && t.piece == Spawn(T)
    requires t.grid == [ZeroRow()] + m[..ROWS - 1]
    ensures Collides(t.grid, t.piece) && !ValidState(t)
    ensures !Fits(t.grid, t.piece.(y := -1))
  {
    assert t.grid[1] == m[0];
    TOverlapsRowZero(t);
  }

  /** The corrected order changes who loses: on the same example the sweep moves row 0
      into the T's spawn place before the T is tested, so Settled ends the game, with an
      empty grid and score 0, where the source's order goes on. */
  lemma ExampleSettledEnds()
    ensures ValidState(ExampleState())
    ensures var t := Settled(ExampleState(), [I, I, I, I]);
      t.gameOver && t.grid == EmptyGrid() && t.score == 0
  {
    ExampleValid();
    var s := ExampleState();
    ExampleLockedBlocksT();
    assert Refilled(s.nextPieces, [I, I, I, I])[0] == T;
  }

  /** After the merge and the sweep of the example, row 0's blocks sit in row 1. */
  lemma ExampleLockedBlocksT()
    ensures Collides(Swept(Merged(ExampleGrid(), ExampleState().piece)), Spawn(T))
  {
    ExampleMergeFillsBottom();
    SweptBottomBlocksT(Merged(ExampleGrid(), ExampleState().piece));
  }

  /** A grid whose only full row is the bottom one and whose row 0 is the example's row 0
      blocks the T's spawn place once swept. */
  lemma SweptBottomBlocksT(m: Matrix)
    requires IsGrid(m) && Full(m[ROWS - 1]) && m[0] == ExampleRow(0)
    requires forall r :: 0 <= r < ROWS && r != ROWS - 1 ==> !Full(m[r])
    ensures Collides(Swept(m), Spawn(T))
  {
    SweepOneRow(m, ROWS - 1);
    var g := Swept(m);
    assert g[1] == m[0];
    TOverlapsRowZero(State(g, Spawn(T), 0, 0, 0, false, 1000, Empty, true, []));
  }

  /** A T at its spawn position overlaps a second row that starts like row 0 of the
      example, and one row higher it would leave the grid. */
  lemma TOverlapsRowZero(t: State)
    requires |t.grid| >= 2 && t.grid[1] == ExampleRow(0) && t.piece == Spawn(T)
    ensures Collides(t.grid, t.piece) && !ValidState(t)
    ensures !Fits(t.grid, t.piece.(y := -1))
  {
    assert Covers(t.piece, 1, 3) && Blocked(t.grid, 1, 3);
    assert Covers(t.piece.(y := -1), -1, 4);
  }

  /** The body of playerRotate on the falling piece p: a quarter turn, then kicks 1, -2, 3,
      -4, ... columns from the last position until the turned piece is free; the turn is
      undone once the next kick would exceed the turned piece's width. */
  method Turn(grid: Matrix, p: Piece) returns (piece: Piece)
    requires Rectangular(p.shape)
    ensures piece == RotateOutcome(grid, p)
  {
    var pos := p.x;
    var offset := 1;
    var original := p.shape;
    var turned := Rotate(original);
    ghost var w := |original|;
    piece := p.(shape := turned);
    var hit := Collide(grid, piece);
    while hit
      invariant KickOffsetInRange(offset, w)
      invariant piece == Piece(piece.x, p.y, turned)
      invariant hit <==> Collides(grid, piece)
      invariant RotateOutcome(grid, p) == KickSearch(grid, p, turned, piece.x, offset, w)
      decreases w + 2 - (if offset > 0 then offset else -offset)
    {
      piece := piece.(x := piece.x + offset);
      offset := -(offset + (if offset > 0 then 1 else -1));
      if offset > |piece.shape[0]| {
        piece := piece.(shape := original, x := pos);
        return;
      }
      hit := Collide(grid, piece);
    }
  }

  /** The loops of merge: every block of p's shape is written into the cell under it. */
  method MergePiece(g0: Matrix, p: Piece) returns (grid: Matrix)
    requires IsGrid(g0) && Fits(g0, p)
    ensures grid == Merged(g0, p)
  {
    grid := g0;
    var y := 0;
    while y < |p.shape|
      invariant 0 <= y <= |p.shape|
      invariant |grid| == |g0| && forall r :: 0 <= r < |g0| ==> |grid[r]| == |g0[r]|
      invariant forall r, c :: InGrid(g0, r, c) ==>
        grid[r][c] == if Covers(p, r, c) && r - p.y < y then p.shape[r - p.y][c - p.x] else g0[r][c]
    {
      var x := 0;
      while x < |p.shape[y]|
        invariant 0 <= x <= |p.shape[y]|
        invariant |grid| == |g0| && forall r :: 0 <= r < |g0| ==> |grid[r]| == |g0[r]|
        invariant forall r, c :: InGrid(g0, r, c) ==>
          grid[r][c] == if Covers(p, r, c) && (r - p.y < y || (r - p.y == y && c - p.x < x))
                        then p.shape[r - p.y][c - p.x] else g0[r][c]
      {
        var value := p.shape[y][x];
        if value != 0 {
          var row, col := y + p.y, x + p.x;
          assert Covers(p, row, col);
          grid := grid[row := grid[row][col := value]];
        }
        x := x + 1;
      }
      y := y + 1;
    }
    assert forall r :: 0 <= r < |grid| ==> grid[r] == Merged(g0, p)[r];
  }

  /** The loop of playerHardDrop on the falling piece p: down while free, then one row
      back up, where the piece comes to rest. */
  method Fall(grid: Matrix, p: Piece) returns (piece: Piece)
    requires HasBlock(p.shape) && !Collides(grid, p)
    ensures piece == Dropped(grid, p)
  {
    ghost var landing := Dropped(grid, p);
    piece := p;
    var hit := Collide(grid, piece);
    while !hit
      invariant piece == p.(y := piece.y)
      invariant p.y <= piece.y <= landing.y + 1
      invariant hit <==> piece.y == landing.y + 1
      decreases landing.y + 1 - piece.y
    {
      piece := piece.(y := piece.y + 1);
      hit := Collide(grid, piece);
    }
    piece := piece.(y := piece.y - 1);
  }

  // ---------------------------------------------------------------------------
  // The game object
  // ---------------------------------------------------------------------------

  class Game {
    var grid: Matrix
    var piece: Piece
    var score: int
    var level: int
    var lines: int
    var gameOver: bool
    var dropCounter: int
    var dropInterval: int
    var holdPiece: Slot
    var canHold: bool
    var nextPieces: seq<Kind>

    function Snapshot(): State
      reads this`grid, this`piece, this`score, this`level, this`lines, this`gameOver
      reads this`dropInterval, this`holdPiece, this`canHold, this`nextPieces
    {
      State(grid, piece, score, level, lines, gameOver, dropInterval, holdPiece, canHold, nextPieces)
    }

    ghost predicate Valid()
      reads this`grid, this`piece, this`score, this`level, this`lines, this`gameOver
      reads this`dropInterval, this`holdPiece, this`canHold, this`nextPieces
    {
      ValidState(Snapshot())
    }

    /** The script's start-up: the initial globals, then playerReset. */
    constructor (draws: seq<Kind>)
      requires |draws| == 4
      ensures Valid() && Snapshot() == Respawned(Start(), draws) && dropCounter == 0
    {
      grid := EmptyGrid();
      score, level, lines := 0, 0, 0;
      gameOver := false;
      dropCounter, dropInterval := 0, 1000;
      holdPiece, canHold := Empty, true;
      nextPieces := [];
      piece := Piece(0, 0, []);
      new;
      assert Snapshot() == Start();
      PlayerReset(draws);
      StartValid(draws);
    }

    /** merge: writes every block of the falling piece into the grid. */
    method Merge()
      requires IsGrid(grid) && Fits(grid, piece)
      modifies this`grid
      ensures grid == Merged(old(grid), piece)
    {
      grid := MergePiece(grid, piece);
    }

    /** sweep, scoring included. */
    method Sweep()
      requires grid != [] && Cleared(grid) <= 4 && lines >= 0
      modifies this`grid, this`score, this`lines, this`level, this`dropInterval
      ensures Snapshot() == SweptState(old(Snapshot()))
    {
      var rowCount;
      grid, rowCount := RemoveFullRows(grid);
      if rowCount > 0 {
        score := score + LineScore(rowCount);
        lines := lines + rowCount;
        level := lines / 10;
        dropInterval := DropInterval(level);
      }
    }

    /** playerReset. */
    method PlayerReset(draws: seq<Kind>)
      requires |draws| == 4
      modifies this`piece, this`nextPieces, this`gameOver, this`grid, this`score
      ensures Snapshot() == Respawned(old(Snapshot()), draws)
    {
      if |nextPieces| < 4 {
        nextPieces := nextPieces + draws;
      }
      var kind := nextPieces[0];
      nextPieces := nextPieces[1..];
      piece := Spawn(kind);
      var hit := Collide(grid, piece);
      if hit {
        gameOver := true;
        grid := EmptyGrid();
        score := 0;
      }
    }

    /** merge, then sweep. */
    method Lock()
      requires IsGrid(grid) && NoFullRow(grid) && Fits(grid, piece) && |piece.shape| <= 4 && lines >= 0
      modifies this`grid, this`score, this`lines, this`level, this`dropInterval
      ensures Snapshot() == Locked(old(Snapshot()))
    {
      ClearedAtMostFour(grid, piece);
      Merge();
      Sweep();
    }

    /** A piece at rest: merge, sweep, then playerReset (see Findings for the source's order). */
    method Settle(draws: seq<Kind>)
      requires Valid() && |draws| == 4
      modifies this
      ensures Valid() && Snapshot() == Settled(old(Snapshot()), draws) && dropCounter == old(dropCounter)
    {
      FreeFits(grid, piece);
      SettledValid(Snapshot(), draws);
      Lock();
      PlayerReset(draws);
    }

    /** playerMove. */
    method PlayerMove(dir: int)
      requires Valid()
      modifies this`piece
      ensures Valid() && Snapshot() == Moved(old(Snapshot()), dir)
    {
      MovedValid(Snapshot(), dir);
      piece := piece.(x := piece.x + dir);
      var hit := Collide(grid, piece);
      if hit {
        piece := piece.(x := piece.x - dir);
      }
    }

    /** playerRotate. */
    method PlayerRotate()
      requires Valid()
      modifies this`piece
      ensures Valid() && Snapshot() == Rotated(old(Snapshot()))
    {
      RotatedValid(Snapshot());
      TurnWithKicks();
    }

    /** The body of playerRotate: a quarter turn, then kicks 1, -2, 3, -4, ... columns from
        the last position until the turned piece is free; the turn is undone once the next
        kick would exceed the turned piece's width. */
    method TurnWithKicks()
      requires Rectangular(piece.shape)
      modifies this`piece
      ensures piece == RotateOutcome(grid, old(piece))
    {
      piece := Turn(grid, piece);
    }

    /** playerDrop. */
    method PlayerDrop(draws: seq<Kind>)
      requires Valid() && |draws| == 4
      modifies this
      ensures Valid() && Snapshot() == DroppedOne(old(Snapshot()), draws) && dropCounter == 0
    {
      ghost var s0 := Snapshot();
      piece := piece.(y := piece.y + 1);
      var hit := Collide(grid, piece);
      if hit {
        assert DroppedOne(s0, draws) == Settled(s0, draws);
        piece := piece.(y := piece.y - 1);
        assert Snapshot() == s0;
        Settle(draws);
      } else {
        assert Snapshot() == DroppedOne(s0, draws);
        DroppedOneValid(s0, draws);
      }
      dropCounter := 0;
    }

    /** playerHardDrop: straight down while free, one row back up, then at rest. */
    method PlayerHardDrop(draws: seq<Kind>)
      requires Valid() && |draws| == 4
      modifies this
      ensures Valid() && Snapshot() == HardDropped(old(Snapshot()), draws) && dropCounter == old(dropCounter)
    {
      piece := Fall(grid, piece);
      Settle(draws);
    }

    /** hold. */
    method Hold(draws: seq<Kind>)
      requires Valid() && |draws| == 4
      modifies this
      ensures Valid() && Snapshot() == Held(old(Snapshot()), draws) && dropCounter == old(dropCounter)
    {
      ghost var s0 := Snapshot();
      HeldValid(s0, draws);
      if !canHold {
        return;
      }
      if holdPiece == Empty {
        holdPiece := KindOf(piece.shape);
        assert Snapshot() == s0.(holdPiece := KindOf(s0.piece.shape));
        PlayerReset(draws);
      } else {
        // canHold is true only while the slot is empty
        assert false;
      }
      canHold := false;
    }

    /** The R key after a game over. */
    method Restart(draws: seq<Kind>)
      requires 50 <= dropInterval <= 1000 && |draws| == 4
      modifies this
      ensures Valid() && Snapshot() == Restarted(old(Snapshot()), draws) && dropCounter == old(dropCounter)
    {
      ghost var s0 := Snapshot();
      RestartedValid(s0, draws);
      gameOver := false;
      grid := EmptyGrid();
      score, level, lines := 0, 0, 0;
      nextPieces := [];
      holdPiece, canHold := Empty, true;
      assert Snapshot() == s0.(gameOver := false, grid := EmptyGrid(), score := 0, level := 0, lines := 0,
                               nextPieces := [], holdPiece := Empty, canHold := true);
      PlayerReset(draws);
    }

    /** update, for one animation frame delta milliseconds after the last. */
    method Tick(delta: int, draws: seq<Kind>)
      requires Valid() && |draws| == 4
      modifies this
      ensures Valid() && (Snapshot(), dropCounter) == Ticked(old(Snapshot()), old(dropCounter), delta, draws)
    {
      TickedValid(Snapshot(), dropCounter, delta, draws);
      if gameOver {
        return;
      }
      dropCounter := dropCounter + delta;
      if dropCounter > dropInterval {
        PlayerDrop(draws);
      }
    }

    /** The keydown handler. */
    method HandleKey(key: Key, draws: seq<Kind>)
      requires Valid() && |draws| == 4
      modifies this
      ensures Valid() && Snapshot() == KeyHandled(old(Snapshot()), key, draws)
      ensures dropCounter == if !old(gameOver) && key == ArrowDown then 0 else old(dropCounter)
    {
      KeyHandledValid(Snapshot(), key, draws);
      if gameOver {
        if key == KeyR {
          Restart(draws);
        }
        return;
      }
      match key
      case ArrowLeft => PlayerMove(-1);
      case ArrowRight => PlayerMove(1);
      case ArrowDown => PlayerDrop(draws);
      case ArrowUp => PlayerRotate();
      case Space => PlayerHardDrop(draws);
      case KeyC => Hold(draws);
      case _ =>
    }
  }
}
