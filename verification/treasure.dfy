/** The dig-and-collect game: a ROWS x COLS tile level with solid borders, a player who
    digs timed holes into breakable tiles, treasures to pick up, and enemies that chase
    the player and are trapped by the holes. Positions are in pixels, GRID_SIZE pixels
    to a tile. Math.random is the sequence rand(0), rand(1), ... of values in [0, 1), of
    which the game has used the first `drawn`. */
module TreasureHunter {

  import opened Random
  import opened Splice

  const GRID_SIZE: int := 32
  const COLS: int := 28
  const ROWS: int := 16

  /** GRID_SIZE as a real, for pixel arithmetic. */
  const GRID: real := 32.0
  /** Width and height of the player and of every enemy (GRID_SIZE - 4). */
  const SIZE: real := 28.0
  /** GRID_SIZE / 2: the reach of a treasure pickup and of an enemy's touch. */
  const REACH: real := 16.0
  /** The pixel box entities are kept in: columns and rows 1 .. COLS-2 and 1 .. ROWS-2. */
  const MIN_X: real := 32.0
  const MAX_X: real := 832.0
  const MIN_Y: real := 32.0
  const MAX_Y: real := 448.0

  const HOLE_TIME: int := 5000
  const FRAME_MS: int := 16
  const TRAP_TIME: int := 100
  const TRAP_SCORE: int := 75
  const TREASURE_SCORE: int := 100
  const LEVEL_SCORE: int := 1500
  const TREASURE_TRIES: nat := 10
  const START_TRIES: nat := 100

  /** BLOCK_TYPES; the TREASURE tile value is never placed. */
  datatype Block = Empty | Solid | Breakable | TreasureTile | Ladder | Platform

  /** GAME_STATES. */
  datatype Screen = Menu | Playing | GameOver

  datatype Player = Player(x: real, y: real, velocityX: real, velocityY: real)

  datatype Enemy = Enemy(x: real, y: real, velocityX: real, velocityY: real,
                         isTrapped: bool, respawnTimer: int)

  /** A treasure, at a pixel position. */
  datatype Coin = Coin(x: int, y: int)

  /** A dug tile, in tile coordinates, with the milliseconds until it closes. */
  datatype Hole = Hole(x: int, y: int, timer: int)

  datatype Key = Space | ArrowLeft | ArrowRight | ArrowUp | ArrowDown | KeyZ | KeyX | OtherKey

  /** Math.floor(Math.random() * n) + 1: a tile index in 1 .. n. */
  function Draw(u: real, n: int): (v: int)
    requires 0.0 <= u < 1.0 && n >= 1
    ensures 1 <= v <= n
  {
    (u * n as real).Floor + 1
  }

  /** The tile a pixel coordinate falls in: Math.floor(v / GRID_SIZE). */
  function Cell(v: real): int {
    (v / GRID).Floor
  }

  function Abs(v: real): real {
    if v < 0.0 then -v else v
  }

  /** Math.sign. */
  function Sign(v: real): real {
    if v > 0.0 then 1.0 else if v < 0.0 then -1.0 else 0.0
  }

  /** Math.max(lo, Math.min(v, hi)). */
  function Clamp(v: real, lo: real, hi: real): real {
    if v < lo then lo else if v > hi then hi else v
  }

  predicate InPlay(x: real, y: real) {
    MIN_X <= x <= MAX_X && MIN_Y <= y <= MAX_Y
  }

  /** Inside the clamp box, a position is in tiles 1 .. COLS-2 and 1 .. ROWS-2, so its
      four neighbouring tiles are inside the level. */
  lemma InPlayCells(x: real, y: real)
    requires InPlay(x, y)
    ensures 1 <= Cell(x) <= COLS - 2 && 1 <= Cell(y) <= ROWS - 2
  {
  }

  /** Two entities touch when both their offsets are below half a tile. */
  predicate Near(ax: real, ay: real, bx: real, bY: real) {
    Abs(ax - bx) < REACH && Abs(ay - bY) < REACH
  }

  predicate InGrid(r: int, c: int) {
    0 <= r < ROWS && 0 <= c < COLS
  }

  predicate Border(r: int, c: int) {
    r == 0 || r == ROWS - 1 || c == 0 || c == COLS - 1
  }

  predicate IsLevel(level: array2<Block>) {
    level.Length0 == ROWS && level.Length1 == COLS
  }

  /** Every border tile is solid. */
  ghost predicate Bordered(level: array2<Block>)
    requires IsLevel(level)
    reads level
  {
    forall r, c :: InGrid(r, c) && Border(r, c) ==> level[r, c] == Solid
  }

  // ---------------------------------------------------------------------------
  // createLevel
  // ---------------------------------------------------------------------------

  /** Random values used by one createLevel: two per interior tile of the seven platform
      rows, one per interior tile for ladders, two per treasure try. */
  const PLATFORM_ROLLS: nat := 2 * (ROWS / 2 - 1) * (COLS - 2)
  const LADDER_ROLLS: nat := (ROWS - 2) * (COLS - 2)
  const LEVEL_ROLLS: nat := PLATFORM_ROLLS + LADDER_ROLLS + 2 * TREASURE_TRIES

  /** The platform roll of tile (r, c) for an even row r; the next value is the roll for
      a breakable tile at (r - 1, c). */
  function PlatformRoll(start: nat, r: int, c: int): nat
    requires 2 <= r && 1 <= c
  {
    start + 2 * ((r / 2 - 1) * (COLS - 2) + (c - 1))
  }

  function LadderRoll(start: nat, r: int, c: int): nat
    requires 1 <= r && 1 <= c
  {
    start + PLATFORM_ROLLS + (r - 1) * (COLS - 2) + (c - 1)
  }

  function TreasureRoll(start: nat, t: nat): nat {
    start + PLATFORM_ROLLS + LADDER_ROLLS + 2 * t
  }

  /** A tile after the empty fill and the border loops. */
  function FramedCell(r: int, c: int): Block {
    if Border(r, c) then Solid else Empty
  }

  /** A tile after the platform loop: each interior tile of rows 2, 4, .., ROWS-2 becomes
      a platform with chance 0.7, and the tile above it breakable with chance 0.3. */
  function PlatformedCell(rand: Rolls, start: nat, r: int, c: int): Block
    requires InGrid(r, c)
  {
    if Border(r, c) then Solid
    else if r % 2 == 0 && rand(PlatformRoll(start, r, c)) < 0.7 then Platform
    else if r % 2 == 1 && r + 1 < ROWS - 1 && rand(PlatformRoll(start, r + 1, c) + 1) < 0.3 then Breakable
    else Empty
  }

  /** A tile of the level createLevel builds from the rolls that start at index start:
      after the platform loop, each interior tile becomes a ladder with chance 0.1.
      Exactly the border tiles are solid. */
  function LevelCell(rand: Rolls, start: nat, r: int, c: int): (b: Block)
    requires InGrid(r, c)
    ensures b == Solid <==> Border(r, c)
    ensures b == Platform ==> r % 2 == 0
    ensures b == Breakable ==> r % 2 == 1
  {
    if !Border(r, c) && rand(LadderRoll(start, r, c)) < 0.1 then Ladder
    else PlatformedCell(rand, start, r, c)
  }

  /** A grid as createLevel builds it from the rolls that start at index start. */
  ghost predicate Built(level: array2<Block>, rand: Rolls, start: nat)
    reads level
  {
    IsLevel(level) && forall r, c :: InGrid(r, c) ==> level[r, c] == LevelCell(rand, start, r, c)
  }

  /** A coin lies on an empty interior tile of the level, at that tile's pixel corner. */
  predicate OnEmptyTile(rand: Rolls, start: nat, coin: Coin) {
    && coin.x % GRID_SIZE == 0 && coin.y % GRID_SIZE == 0
    && 1 <= coin.x / GRID_SIZE <= COLS - 2 && 1 <= coin.y / GRID_SIZE <= ROWS - 2
    && LevelCell(rand, start, coin.y / GRID_SIZE, coin.x / GRID_SIZE) == Empty
  }

  /** Treasure try t: a random interior tile, kept when it is empty. */
  function CoinTry(rand: Rolls, start: nat, t: nat): seq<Coin>
    requires UnitRolls(rand)
  {
    var x := Draw(rand(TreasureRoll(start, t)), COLS - 2);
    var y := Draw(rand(TreasureRoll(start, t) + 1), ROWS - 2);
    if LevelCell(rand, start, y, x) == Empty then [Coin(x * GRID_SIZE, y * GRID_SIZE)] else []
  }

  /** The treasures of the first n tries, in the order they are pushed: at most n, each
      on an empty interior tile. */
  function PlacedCoins(rand: Rolls, start: nat, n: nat): (coins: seq<Coin>)
    requires UnitRolls(rand)
    ensures |coins| <= n
    ensures forall k :: 0 <= k < |coins| ==> OnEmptyTile(rand, start, coins[k])
  {
    if n == 0 then [] else PlacedCoins(rand, start, n - 1) + CoinTry(rand, start, n - 1)
  }

  /** The border loops of createLevel. */
  method AddBorders(level: array2<Block>)
    requires IsLevel(level)
    requires forall r, c :: InGrid(r, c) ==> level[r, c] == Empty
    modifies level
    ensures forall r, c :: InGrid(r, c) ==> level[r, c] == FramedCell(r, c)
  {
    for i := 0 to COLS
      invariant forall r, c :: InGrid(r, c) ==>
        level[r, c] == if (r == 0 || r == ROWS - 1) && c < i then Solid else Empty
    {
      level[0, i] := Solid;
      level[ROWS - 1, i] := Solid;
    }
    for i := 0 to ROWS
      invariant forall r, c :: InGrid(r, c) ==>
        level[r, c] == if r == 0 || r == ROWS - 1 || ((c == 0 || c == COLS - 1) && r < i) then Solid else Empty
    {
      level[i, 0] := Solid;
      level[i, COLS - 1] := Solid;
    }
  }

  /** The platform and breakable-tile loop of createLevel. */
  method AddPlatforms(level: array2<Block>, rand: Rolls, start: nat)
    requires IsLevel(level)
    requires forall r, c :: InGrid(r, c) ==> level[r, c] == FramedCell(r, c)
    modifies level
    ensures forall r, c :: InGrid(r, c) ==> level[r, c] == PlatformedCell(rand, start, r, c)
  {
    var i := 2;
    while i < ROWS - 1
      invariant 2 <= i <= ROWS && i % 2 == 0
      invariant forall r, c :: InGrid(r, c) ==>
        level[r, c] == if r < i - 1 then PlatformedCell(rand, start, r, c) else FramedCell(r, c)
    {
      for j := 1 to COLS - 1
        invariant forall r, c :: InGrid(r, c) ==>
          level[r, c] == if r < i - 1 || ((r == i - 1 || r == i) && c < j)
                         then PlatformedCell(rand, start, r, c) else FramedCell(r, c)
      {
        if rand(PlatformRoll(start, i, j)) < 0.7 {
          level[i, j] := Platform;
        }
        if rand(PlatformRoll(start, i, j) + 1) < 0.3 {
          level[i - 1, j] := Breakable;
        }
      }
      i := i + 2;
    }
  }

  /** The ladder loop of createLevel. */
  method AddLadders(level: array2<Block>, rand: Rolls, start: nat)
    requires IsLevel(level)
    requires forall r, c :: InGrid(r, c) ==> level[r, c] == PlatformedCell(rand, start, r, c)
    modifies level
    ensures Built(level, rand, start)
  {
    for i := 1 to ROWS - 1
      invariant forall r, c :: InGrid(r, c) ==>
        level[r, c] == if r < i then LevelCell(rand, start, r, c) else PlatformedCell(rand, start, r, c)
    {
      for j := 1 to COLS - 1
        invariant forall r, c :: InGrid(r, c) ==>
          level[r, c] == if r < i || (r == i && c < j)
                         then LevelCell(rand, start, r, c) else PlatformedCell(rand, start, r, c)
      {
        if rand(LadderRoll(start, i, j)) < 0.1 {
          level[i, j] := Ladder;
        }
      }
    }
  }

  /** The treasure loop of createLevel: ten tries at a random interior tile, each pushing
      a treasure when the tile is empty. */
  method PlaceCoins(level: array2<Block>, rand: Rolls, start: nat) returns (coins: seq<Coin>)
    requires Built(level, rand, start) && UnitRolls(rand)
    ensures coins == PlacedCoins(rand, start, TREASURE_TRIES)
  {
    coins := [];
    for t := 0 to TREASURE_TRIES
      invariant coins == PlacedCoins(rand, start, t)
    {
      var x := Draw(rand(TreasureRoll(start, t)), COLS - 2);
      var y := Draw(rand(TreasureRoll(start, t) + 1), ROWS - 2);
      assert PlacedCoins(rand, start, t + 1) == coins + CoinTry(rand, start, t);
      assert level[y, x] == LevelCell(rand, start, y, x);
      if level[y, x] == Empty {
        coins := coins + [Coin(x * GRID_SIZE, y * GRID_SIZE)];
      }
    }
  }

  /** The grid and the treasures of createLevel, from the rolls that start at index start. */
  method BuildLevel(rand: Rolls, start: nat) returns (level: array2<Block>, coins: seq<Coin>)
    requires UnitRolls(rand)
    ensures fresh(level) && Built(level, rand, start)
    ensures coins == PlacedCoins(rand, start, TREASURE_TRIES)
  {
    level := new Block[ROWS, COLS]((r, c) => Empty);
    AddBorders(level);
    AddPlatforms(level, rand, start);
    AddLadders(level, rand, start);
    coins := PlaceCoins(level, rand, start);
  }

  /** A level built by createLevel has solid borders. */
  lemma BuiltBordered(level: array2<Block>, rand: Rolls, start: nat)
    requires Built(level, rand, start)
    ensures IsLevel(level) && Bordered(level)
  {
  }

  /** The enemy createLevel pushes: in the top-right tile, heading left. */
  function Newcomer(): Enemy {
    Enemy(MAX_X, MIN_Y, -1.0, 0.0, false, 0)
  }

  /** The enemy loop of createLevel: three newcomers are appended to the list, which is
      not cleared. */
  method Recruit(enemies: seq<Enemy>) returns (more: seq<Enemy>)
    ensures more == enemies + [Newcomer(), Newcomer(), Newcomer()]
  {
    more := enemies;
    for i := 0 to 3
      invariant more == enemies + seq(i, _ => Newcomer())
    {
      more := more + [Newcomer()];
    }
  }

  // ---------------------------------------------------------------------------
  // findValidStartPosition
  // ---------------------------------------------------------------------------

  /** A tile the player may start on: interior, empty, and standing on a solid or
      platform tile. */
  predicate StartTile(level: array2<Block>, x: int, y: int)
    requires IsLevel(level)
    reads level
  {
    1 <= x <= COLS - 2 && 1 <= y <= ROWS - 2
    && level[y, x] == Empty && (level[y + 1, x] == Solid || level[y + 1, x] == Platform)
  }

  /** The outcome of a start search: a pixel position and the index of the next unused
      random value. */
  datatype Search = Search(x: int, y: int, next: nat)

  /** findValidStartPosition from try `attempt` on, with the rolls from index `from`: the
      first random interior tile that is a start tile, or (GRID_SIZE, GRID_SIZE) once all
      hundred tries have failed. */
  function StartSearch(level: array2<Block>, rand: Rolls, from: nat, attempt: nat): (s: Search)
    requires IsLevel(level) && UnitRolls(rand) && attempt <= START_TRIES
    reads level
    ensures from <= s.next <= from + 2 * (START_TRIES - attempt)
    ensures || (s.x == GRID_SIZE && s.y == GRID_SIZE && s.next == from + 2 * (START_TRIES - attempt))
            || (s.x % GRID_SIZE == 0 && s.y % GRID_SIZE == 0 && StartTile(level, s.x / GRID_SIZE, s.y / GRID_SIZE))
    ensures InPlay(s.x as real, s.y as real)
    decreases START_TRIES - attempt
  {
    if attempt >= START_TRIES then Search(GRID_SIZE, GRID_SIZE, from)
    else
      var x := Draw(rand(from), COLS - 2);
      var y := Draw(rand(from + 1), ROWS - 2);
      if StartTile(level, x, y) then Search(x * GRID_SIZE, y * GRID_SIZE, from + 2)
      else StartSearch(level, rand, from + 2, attempt + 1)
  }

  /** The loop of findValidStartPosition, with the rolls from index from. */
  method SearchStart(level: array2<Block>, rand: Rolls, from: nat) returns (s: Search)
    requires IsLevel(level) && UnitRolls(rand)
    ensures s == StartSearch(level, rand, from, 0)
  {
    var next := from;
    for attempts := 0 to START_TRIES
      invariant next == from + 2 * attempts
      invariant StartSearch(level, rand, from, 0) == StartSearch(level, rand, next, attempts)
    {
      var x := Draw(rand(next), COLS - 2);
      var y := Draw(rand(next + 1), ROWS - 2);
      next := next + 2;
      if level[y, x] == Empty && (level[y + 1, x] == Solid || level[y + 1, x] == Platform) {
        return Search(x * GRID_SIZE, y * GRID_SIZE, next);
      }
    }
    return Search(GRID_SIZE, GRID_SIZE, next);
  }

  // ---------------------------------------------------------------------------
  // isOnLadder
  // ---------------------------------------------------------------------------

  /** isOnLadder for an entity at (x, y): the tile under the centre of its box, which is
      never a ladder when it lies outside the level. */
  function OnLadder(level: array2<Block>, x: real, y: real): (on: bool)
    requires IsLevel(level)
    reads level
    ensures on <==> InGrid(Cell(y + SIZE / 2.0), Cell(x + SIZE / 2.0))
                    && level[Cell(y + SIZE / 2.0), Cell(x + SIZE / 2.0)] == Ladder
  {
    var gridX := Cell(x + SIZE / 2.0);
    var gridY := Cell(y + SIZE / 2.0);
    if gridX < 0 || gridX >= COLS || gridY < 0 || gridY >= ROWS then false
    else level[gridY, gridX] == Ladder
  }

  // ---------------------------------------------------------------------------
  // updateDiggedBlocks
  // ---------------------------------------------------------------------------

  /** The holes that stay open after one frame, in their order, each 16 ms older. */
  function Aged(holes: seq<Hole>): (kept: seq<Hole>)
    ensures |kept| <= |holes|
  {
    if holes == [] then []
    else
      var h := holes[0].(timer := holes[0].timer - FRAME_MS);
      (if h.timer <= 0 then [] else [h]) + Aged(holes[1..])
  }

  /** A hole is kept exactly when its timer stays positive, and then it is the same
      tile with 16 ms less. */
  lemma {:induction false} AgedKeeps(holes: seq<Hole>)
    ensures forall h :: h in Aged(holes) <==> h.timer > 0 && h.(timer := h.timer + FRAME_MS) in holes
  {
    if holes != [] {
      AgedKeeps(holes[1..]);
      assert forall h :: h in holes <==> h == holes[0] || h in holes[1..];
    }
  }

  /** Aging works hole by hole, so the kept holes keep their relative order. */
  lemma {:induction false} AgedConcat(a: seq<Hole>, b: seq<Hole>)
    ensures Aged(a + b) == Aged(a) + Aged(b)
  {
    if a == [] {
      assert a + b == b;
    } else {
      assert (a + b)[0] == a[0];
      assert (a + b)[1..] == a[1..] + b;
      AgedConcat(a[1..], b);
    }
  }

  /** Some hole at tile (r, c) closes in this frame. */
  predicate Closes(holes: seq<Hole>, r: int, c: int) {
    holes != [] && ((holes[0].timer <= FRAME_MS && holes[0].y == r && holes[0].x == c) || Closes(holes[1..], r, c))
  }

  /** One step of the backward loop of updateDiggedBlocks at index i, on the list whose
      holes after i are already aged: removing or aging hole i gives the list whose holes
      from i on are aged. */
  lemma AgedStep(holes: seq<Hole>, i: nat)
    requires i < |holes|
    ensures var older := holes[i].(timer := holes[i].timer - FRAME_MS);
      var kept := holes[..i + 1] + Aged(holes[i + 1..]);
      && (older.timer <= 0 ==> kept[..i] + kept[i + 1..] == holes[..i] + Aged(holes[i..]))
      && (older.timer > 0 ==> kept[i := older] == holes[..i] + Aged(holes[i..]))
  {
    var rest := Aged(holes[i + 1..]);
    var older := holes[i].(timer := holes[i].timer - FRAME_MS);
    assert holes[i..][0] == holes[i] && holes[i..][1..] == holes[i + 1..];
    assert holes[..i + 1][..i] == holes[..i];
    assert Aged(holes[i..]) == (if older.timer <= 0 then [] else [older]) + rest;
    if older.timer <= 0 {
      DropAt(holes[..i + 1], rest, i);
    } else {
      ReplaceAt(holes[..i + 1], rest, i, older);
    }
  }

  /** A hole closes on a tile from index i on exactly when hole i does or one after it. */
  lemma ClosesStep(holes: seq<Hole>, i: nat)
    requires i < |holes|
    ensures forall r, c :: Closes(holes[i..], r, c) <==>
      (holes[i].timer <= FRAME_MS && holes[i].y == r && holes[i].x == c) || Closes(holes[i + 1..], r, c)
  {
    assert holes[i..][0] == holes[i] && holes[i..][1..] == holes[i + 1..];
  }

  /** The loop of updateDiggedBlocks: from the back, each timer drops by 16 ms; a hole at
      or below zero is removed and its tile made breakable again. */
  method CloseHoles(level: array2<Block>, holes: seq<Hole>) returns (kept: seq<Hole>)
    requires IsLevel(level)
    requires forall h :: h in holes ==> InGrid(h.y, h.x)
    modifies level
    ensures kept == Aged(holes)
    ensures forall r, c :: InGrid(r, c) ==>
      level[r, c] == if Closes(holes, r, c) then Breakable else old(level[r, c])
  {
    kept := holes;
    var i := |holes| - 1;
    while i >= 0
      invariant -1 <= i < |holes|
      invariant kept == holes[..i + 1] + Aged(holes[i + 1..])
      invariant forall r, c :: InGrid(r, c) ==>
        level[r, c] == if Closes(holes[i + 1..], r, c) then Breakable else old(level[r, c])
    {
      AgedStep(holes, i);
      ClosesStep(holes, i);
      assert holes[i] in holes;
      assert kept[i] == holes[i];
      var h := kept[i];
      h := h.(timer := h.timer - FRAME_MS);
      if h.timer <= 0 {
        level[h.y, h.x] := Breakable;
        kept := kept[..i] + kept[i + 1..];
      } else {
        kept := kept[i := h];
      }
      i := i - 1;
    }
  }

  // ---------------------------------------------------------------------------
  // checkTreasureCollection
  // ---------------------------------------------------------------------------

  /** A treasure within reach of the player at (px, py). */
  predicate Reached(px: real, py: real, coin: Coin) {
    Near(px, py, coin.x as real, coin.y as real)
  }

  /** The treasures out of reach, in their order. */
  function Uncollected(px: real, py: real, coins: seq<Coin>): (left: seq<Coin>)
    ensures |left| <= |coins|
  {
    if coins == [] then []
    else (if Reached(px, py, coins[0]) then [] else [coins[0]]) + Uncollected(px, py, coins[1..])
  }

  /** A treasure is left exactly when it is out of reach. */
  lemma {:induction false} UncollectedKeeps(px: real, py: real, coins: seq<Coin>)
    ensures forall coin :: coin in Uncollected(px, py, coins) <==> coin in coins && !Reached(px, py, coin)
  {
    if coins != [] {
      UncollectedKeeps(px, py, coins[1..]);
      assert forall coin :: coin in coins <==> coin == coins[0] || coin in coins[1..];
    }
  }

  /** The loop of checkTreasureCollection: from the back, every treasure in reach is
      removed for 100 points. */
  method Collect(px: real, py: real, coins: seq<Coin>) returns (left: seq<Coin>, gained: int)
    ensures left == Uncollected(px, py, coins)
    ensures gained == TREASURE_SCORE * (|coins| - |left|)
  {
    left := coins;
    gained := 0;
    var i := |coins| - 1;
    while i >= 0
      invariant -1 <= i < |coins|
      invariant left == coins[..i + 1] + Uncollected(px, py, coins[i + 1..])
      invariant gained == TREASURE_SCORE * (|coins| - |left|)
    {
      ghost var rest := Uncollected(px, py, coins[i + 1..]);
      assert coins[i..][0] == coins[i] && coins[i..][1..] == coins[i + 1..];
      assert left[i] == coins[i];
      assert coins[..i + 1][..i] == coins[..i];
      assert Uncollected(px, py, coins[i..]) == (if Reached(px, py, coins[i]) then [] else [coins[i]]) + rest;
      if Reached(px, py, left[i]) {
        DropAt(coins[..i + 1], rest, i);
        left := left[..i] + left[i + 1..];
        gained := gained + TREASURE_SCORE;
      } else {
        ReplaceAt(coins[..i + 1], rest, i, coins[i]);
      }
      i := i - 1;
    }
  }

  // ---------------------------------------------------------------------------
  // updateEnemies
  // ---------------------------------------------------------------------------

  /** The tile at (r, c), or Empty off the level. */
  function TileOr(level: array2<Block>, r: int, c: int): Block
    requires IsLevel(level)
    reads level
  {
    if InGrid(r, c) then level[r, c] else Empty
  }

  /** Some hole is at tile (x, y). */
  predicate HoleAt(holes: seq<Hole>, x: int, y: int) {
    exists h :: h in holes && h.x == x && h.y == y
  }

  /** A free enemy's new vertical speed: towards the player on a ladder, otherwise
      gravity adds half a pixel per frame. */
  function Climb(level: array2<Block>, py: real, e: Enemy): real
    requires IsLevel(level)
    reads level
  {
    if OnLadder(level, e.x, e.y) then Sign(py - e.y) else e.velocityY + 0.5
  }

  /** The per-enemy body of updateEnemies, with the player at (px, py): the enemy and
      whether it has just been trapped (worth 75 points). A trapped enemy only counts
      down and, once at zero, is untrapped in the top-right tile. A free enemy steps
      towards the player (vertically only on a ladder, otherwise it falls), lands on a
      solid or platform tile, is clamped into the play box, and is trapped when the tile
      it stepped into, before the clamp, holds a hole. */
  function EnemyStep(level: array2<Block>, holes: seq<Hole>, px: real, py: real, e: Enemy): (r: (Enemy, bool))
    requires IsLevel(level)
    reads level
    ensures e.isTrapped ==> !r.1 && r.0.respawnTimer == e.respawnTimer - 1
    ensures e.isTrapped && e.respawnTimer - 1 <= 0 ==> !r.0.isTrapped && r.0.x == MAX_X && r.0.y == MIN_Y
    ensures e.isTrapped && e.respawnTimer - 1 > 0 ==> r.0 == e.(respawnTimer := e.respawnTimer - 1)
    ensures !e.isTrapped ==> r.1 == r.0.isTrapped && InPlay(r.0.x, r.0.y)
    ensures !e.isTrapped ==> (r.0.isTrapped ==> r.0.respawnTimer == TRAP_TIME)
    ensures !e.isTrapped ==> (r.1 <==> HoleAt(holes, Cell(e.x + Sign(px - e.x)), Cell(e.y + Climb(level, py, e))))
  {
    if e.isTrapped then
      var timer := e.respawnTimer - 1;
      if timer <= 0 then (e.(respawnTimer := timer, isTrapped := false, x := MAX_X, y := MIN_Y), false)
      else (e.(respawnTimer := timer), false)
    else
      var vx := Sign(px - e.x);
      var vy := Climb(level, py, e);
      var x := e.x + vx;
      var y := e.y + vy;
      var gridX := Cell(x);
      var gridY := Cell(y);
      var landed := vy > 0.0 && (TileOr(level, gridY + 1, gridX) == Solid || TileOr(level, gridY + 1, gridX) == Platform);
      var (y', vy') := if landed then ((gridY * GRID_SIZE) as real, 0.0) else (y, vy);
      var trapped := HoleAt(holes, gridX, gridY);
      (Enemy(Clamp(x, MIN_X, MAX_X), Clamp(y', MIN_Y, MAX_Y), vx, vy', trapped,
             if trapped then TRAP_TIME else e.respawnTimer), trapped)
  }

  /** How many of the enemies es are trapped in this frame. */
  function Caught(level: array2<Block>, holes: seq<Hole>, px: real, py: real, es: seq<Enemy>): (n: nat)
    requires IsLevel(level)
    reads level
    ensures n <= |es|
  {
    if es == [] then 0
    else Caught(level, holes, px, py, es[..|es| - 1])
         + (if EnemyStep(level, holes, px, py, es[|es| - 1]).1 then 1 else 0)
  }

  /** The forEach of updateEnemies: every enemy takes its step, in place, and each one
      trapped in this frame is worth 75 points. */
  method StepEnemies(level: array2<Block>, holes: seq<Hole>, px: real, py: real, es: seq<Enemy>)
    returns (stepped: seq<Enemy>, gained: int)
    requires IsLevel(level)
    ensures |stepped| == |es|
    ensures forall k :: 0 <= k < |es| ==> stepped[k] == EnemyStep(level, holes, px, py, es[k]).0
    ensures gained == TRAP_SCORE * Caught(level, holes, px, py, es)
  {
    stepped, gained := es, 0;
    for i := 0 to |es|
      invariant |stepped| == |es|
      invariant forall k :: 0 <= k < i ==> stepped[k] == EnemyStep(level, holes, px, py, es[k]).0
      invariant forall k :: i <= k < |es| ==> stepped[k] == es[k]
      invariant gained == TRAP_SCORE * Caught(level, holes, px, py, es[..i])
    {
      var (e, trapped) := EnemyStep(level, holes, px, py, stepped[i]);
      stepped := stepped[i := e];
      if trapped {
        gained := gained + TRAP_SCORE;
      }
      assert es[..i + 1][..i] == es[..i];
    }
    assert es[..|es|] == es;
  }

  // ---------------------------------------------------------------------------
  // checkGameConditions
  // ---------------------------------------------------------------------------

  /** What the enemy loop of checkGameConditions changes: the player's position, the
      lives, whether the game is over, and the random values used. */
  datatype Outcome = Outcome(x: real, y: real, lives: int, over: bool, drawn: nat)

  /** The enemy loop of checkGameConditions over es, from o: each free enemy within reach
      costs a life; the game ends when the lives reach zero, and otherwise the player is
      moved to a fresh start position. The lives never rise, fall by at most one per
      enemy, and the game is over exactly when it was, or when an enemy took the last
      life. A player inside the play box stays inside it. */
  function Encounter(level: array2<Block>, rand: Rolls, es: seq<Enemy>, o: Outcome): (r: Outcome)
    requires IsLevel(level) && UnitRolls(rand)
    reads level
    ensures o.lives - |es| <= r.lives <= o.lives
    ensures r.over <==> o.over || (r.lives <= 0 && r.lives < o.lives)
    ensures InPlay(o.x, o.y) ==> InPlay(r.x, r.y)
    ensures o.drawn <= r.drawn
  {
    if es == [] then o
    else
      var p := Encounter(level, rand, es[..|es| - 1], o);
      var e := es[|es| - 1];
      if e.isTrapped || !Near(p.x, p.y, e.x, e.y) then p
      else if p.lives - 1 <= 0 then p.(lives := p.lives - 1, over := true)
      else
        var s := StartSearch(level, rand, p.drawn, 0);
        Outcome(s.x as real, s.y as real, p.lives - 1, p.over, s.next)
  }

  /** Some free enemy of es is within reach of (x, y). */
  predicate Threatened(es: seq<Enemy>, x: real, y: real) {
    exists k :: 0 <= k < |es| && !es[k].isTrapped && Near(x, y, es[k].x, es[k].y)
  }

  /** The list is threatening exactly when its front is or its last enemy is. */
  lemma ThreatenedSplit(es: seq<Enemy>, x: real, y: real)
    requires es != []
    ensures Threatened(es, x, y) <==>
      var e := es[|es| - 1];
      Threatened(es[..|es| - 1], x, y) || (!e.isTrapped && Near(x, y, e.x, e.y))
  {
    var front := es[..|es| - 1];
    if Threatened(front, x, y) {
      var k :| 0 <= k < |front| && !front[k].isTrapped && Near(x, y, front[k].x, front[k].y);
      assert es[k] == front[k];
    }
    if Threatened(es, x, y) {
      var k :| 0 <= k < |es| && !es[k].isTrapped && Near(x, y, es[k].x, es[k].y);
      if k < |front| {
        assert front[k] == es[k];
      }
    }
  }

  /** The number of enemies that touch the player at their turn of the enemy loop, each
      meeting the player where the enemies before it have left them. */
  function Touches(level: array2<Block>, rand: Rolls, es: seq<Enemy>, o: Outcome): nat
    requires IsLevel(level) && UnitRolls(rand)
    reads level
  {
    if es == [] then 0
    else
      var p := Encounter(level, rand, es[..|es| - 1], o);
      var e := es[|es| - 1];
      Touches(level, rand, es[..|es| - 1], o) + (if !e.isTrapped && Near(p.x, p.y, e.x, e.y) then 1 else 0)
  }

  /** The enemy loop costs one life per touch. It costs any life exactly when some free
      enemy is within reach of the player's position before the loop, since the player
      stays there until the first touch; without one nothing changes. A player who has
      lost a life and still has some stands on a start tile of a search made with rolls
      not used before. */
  lemma {:induction false} EncounterTouches(level: array2<Block>, rand: Rolls, es: seq<Enemy>, o: Outcome)
    requires IsLevel(level) && UnitRolls(rand)
    ensures var r := Encounter(level, rand, es, o);
      && r.lives == o.lives - Touches(level, rand, es, o)
      && (r.lives < o.lives <==> Threatened(es, o.x, o.y))
      && (!Threatened(es, o.x, o.y) ==> r == o)
      && (0 < r.lives < o.lives ==>
            && r.over == o.over
            && exists d :: o.drawn <= d && var s := StartSearch(level, rand, d, 0);
                 r.x == s.x as real && r.y == s.y as real && r.drawn == s.next)
  {
    if es != [] {
      var front := es[..|es| - 1];
      EncounterTouches(level, rand, front, o);
      ThreatenedSplit(es, o.x, o.y);
      var p := Encounter(level, rand, front, o);
      var e := es[|es| - 1];
      if !e.isTrapped && Near(p.x, p.y, e.x, e.y) && p.lives - 1 > 0 {
        var s := StartSearch(level, rand, p.drawn, 0);
        assert o.drawn <= p.drawn && Encounter(level, rand, es, o).x == s.x as real;
      }
    }
  }

  /** Trapped enemies never cost a life: with every enemy trapped the loop changes
      nothing. */
  lemma AllTrappedHarmless(level: array2<Block>, rand: Rolls, es: seq<Enemy>, o: Outcome)
    requires IsLevel(level) && UnitRolls(rand)
    requires forall k :: 0 <= k < |es| ==> es[k].isTrapped
    ensures Encounter(level, rand, es, o) == o
  {
    EncounterTouches(level, rand, es, o);
  }

  /** The enemy loop of checkGameConditions. */
  method Encounters(level: array2<Block>, rand: Rolls, es: seq<Enemy>, o: Outcome) returns (r: Outcome)
    requires IsLevel(level) && UnitRolls(rand)
    ensures r == Encounter(level, rand, es, o)
  {
    r := o;
    for i := 0 to |es|
      invariant r == Encounter(level, rand, es[..i], o)
    {
      assert es[..i + 1][..i] == es[..i];
      ghost var p := r;
      var e := es[i];
      if !e.isTrapped && Near(r.x, r.y, e.x, e.y) {
        r := r.(lives := r.lives - 1);
        if r.lives <= 0 {
          r := r.(over := true);
        } else {
          var s := SearchStart(level, rand, r.drawn);
          r := r.(x := s.x as real, y := s.y as real, drawn := s.next);
        }
      }
      assert [e][..0] == [];
      assert Encounter(level, rand, es[..i + 1], o) == Encounter(level, rand, [e], p);
    }
    assert es[..|es|] == es;
  }

  /** A tile where some hole closes in this frame holds a hole. */
  lemma {:induction false} ClosesOnHole(holes: seq<Hole>, r: int, c: int)
    requires Closes(holes, r, c)
    ensures exists h :: h in holes && h.y == r && h.x == c
  {
    if !(holes[0].timer <= FRAME_MS && holes[0].y == r && holes[0].x == c) {
      ClosesOnHole(holes[1..], r, c);
      var h :| h in holes[1..] && h.y == r && h.x == c;
      assert h in holes;
    }
  }

  // ---------------------------------------------------------------------------
  // The keys
  // ---------------------------------------------------------------------------

  /** The keydown switch for the arrows: a sideways speed of 4 pixels a frame, and a
      vertical one only while the player is on a ladder. */
  function Steered(level: array2<Block>, p: Player, key: Key): (q: Player)
    requires IsLevel(level)
    reads level
    ensures q.x == p.x && q.y == p.y
    ensures key != ArrowUp && key != ArrowDown ==> q.velocityY == p.velocityY
    ensures (key == ArrowUp || key == ArrowDown) && !OnLadder(level, p.x, p.y) ==> q == p
  {
    match key
    case ArrowLeft => p.(velocityX := -4.0)
    case ArrowRight => p.(velocityX := 4.0)
    case ArrowUp => if OnLadder(level, p.x, p.y) then p.(velocityY := -4.0) else p
    case ArrowDown => if OnLadder(level, p.x, p.y) then p.(velocityY := 4.0) else p
    case _ => p
  }

  /** The keyup switch: releasing an arrow stops the motion along its axis. */
  function Released(p: Player, key: Key): (q: Player)
    ensures q.x == p.x && q.y == p.y
    ensures key == ArrowLeft || key == ArrowRight ==> q.velocityX == 0.0 && q.velocityY == p.velocityY
    ensures key == ArrowUp || key == ArrowDown ==> q.velocityY == 0.0 && q.velocityX == p.velocityX
    ensures key != ArrowLeft && key != ArrowRight && key != ArrowUp && key != ArrowDown ==> q == p
  {
    match key
    case ArrowLeft | ArrowRight => p.(velocityX := 0.0)
    case ArrowUp | ArrowDown => p.(velocityY := 0.0)
    case _ => p
  }

  // ---------------------------------------------------------------------------
  // The game object
  // ---------------------------------------------------------------------------

  class Game {
    var gameState: Screen
    var score: int
    var level: int
    var lives: int
    var enemies: seq<Enemy>
    var treasures: seq<Coin>
    var diggedBlocks: seq<Hole>
    var levelData: array2<Block>
    var player: Player
    /** Math.random, of which the first `drawn` values are used. */
    const rand: Rolls
    var drawn: nat

    /** The level is a bordered ROWS x COLS grid, every hole is at an interior tile, and a
        game that is not over has a life left. */
    ghost predicate Settled()
      reads this, levelData
    {
      && IsLevel(levelData) && Bordered(levelData) && UnitRolls(rand)
      && (forall h :: h in diggedBlocks ==> InGrid(h.y, h.x) && !Border(h.y, h.x))
      && (gameState != GameOver ==> lives >= 1)
      && score >= 0
    }

    /** Settled, and the player is inside the play box. */
    ghost predicate Valid()
      reads this, levelData
    {
      Settled() && InPlay(player.x, player.y)
    }

    /** The constructor: the menu screen, score 0, level 1, three lives, a new level and a
        start position on it. Math.random is shared with whatever ran before, so its first
        `used` values may already be gone. */
    constructor (rand: Rolls, used: nat)
      requires UnitRolls(rand)
      ensures Valid() && fresh(levelData)
      ensures gameState == Menu && score == 0 && level == 1 && lives == 3 && diggedBlocks == []
      ensures Built(levelData, rand, used)
      ensures treasures == PlacedCoins(rand, used, TREASURE_TRIES)
      ensures enemies == [Newcomer(), Newcomer(), Newcomer()]
      ensures player.velocityX == 0.0 && player.velocityY == 0.0
      ensures used + LEVEL_ROLLS <= drawn <= used + LEVEL_ROLLS + 2 * START_TRIES
    {
      var grid, coins := BuildLevel(rand, used);
      BuiltBordered(grid, rand, used);
      var crew := Recruit([]);
      assert [] + [Newcomer(), Newcomer(), Newcomer()] == [Newcomer(), Newcomer(), Newcomer()];
      this.rand := rand;
      gameState := Menu;
      score, level, lives := 0, 1, 3;
      enemies, treasures, diggedBlocks := crew, coins, [];
      levelData := grid;
      var start := SearchStart(grid, rand, used + LEVEL_ROLLS);
      player := Player(start.x as real, start.y as real, 0.0, 0.0);
      drawn := start.next;
    }

    /** createLevel: a new grid; its treasures and three more enemies are appended to the
        lists, which are not cleared. */
    method CreateLevel() returns (grid: array2<Block>)
      requires UnitRolls(rand)
      modifies this`treasures, this`enemies, this`drawn
      ensures fresh(grid) && Built(grid, rand, old(drawn)) && Bordered(grid)
      ensures treasures == old(treasures) + PlacedCoins(rand, old(drawn), TREASURE_TRIES)
      ensures enemies == old(enemies) + [Newcomer(), Newcomer(), Newcomer()]
      ensures drawn == old(drawn) + LEVEL_ROLLS
    {
      var coins;
      grid, coins := BuildLevel(rand, drawn);
      BuiltBordered(grid, rand, drawn);
      treasures := treasures + coins;
      enemies := Recruit(enemies);
      drawn := drawn + LEVEL_ROLLS;
    }

    /** findValidStartPosition. (Its guard for a missing level never fires: the level is
        built before the first search.) */
    method FindValidStartPosition() returns (x: int, y: int)
      requires IsLevel(levelData) && UnitRolls(rand)
      modifies this`drawn
      ensures Search(x, y, drawn) == StartSearch(levelData, rand, old(drawn), 0)
    {
      var s := SearchStart(levelData, rand, drawn);
      x, y, drawn := s.x, s.y, s.next;
    }

    /** dig: a breakable tile beside the player's tile becomes empty and a hole with
        5000 ms on its timer is recorded; any other tile is left alone. */
    method Dig(direction: int)
      requires Valid() && (direction == -1 || direction == 1)
      modifies this`diggedBlocks, levelData
      ensures Valid()
      ensures var r, c := Cell(player.y), Cell(player.x) + direction;
        if old(levelData[r, c]) == Breakable then
          && levelData[r, c] == Empty
          && diggedBlocks == old(diggedBlocks) + [Hole(c, r, HOLE_TIME)]
          && forall r', c' :: InGrid(r', c') && (r' != r || c' != c) ==> levelData[r', c'] == old(levelData[r', c'])
        else
          unchanged(levelData) && diggedBlocks == old(diggedBlocks)
    {
      InPlayCells(player.x, player.y);
      var gridX := Cell(player.x);
      var gridY := Cell(player.y);
      if levelData[gridY, gridX + direction] == Breakable {
        levelData[gridY, gridX + direction] := Empty;
        diggedBlocks := diggedBlocks + [Hole(gridX + direction, gridY, HOLE_TIME)];
      }
    }

    /** handleCollisions: the player is clamped into the play box, pushed back to its tile
        by a solid tile ahead, and stopped by a floor below (solid or platform) when
        falling or by a solid tile above when climbing. */
    method HandleCollisions()
      requires Settled()
      modifies this`player
      ensures Valid()
      ensures InPlay(player.x, player.y) && player.velocityX == old(player.velocityX)
      ensures player.velocityY == 0.0 || player.velocityY == old(player.velocityY)
      ensures var gx, gy := Cell(Clamp(old(player.x), MIN_X, MAX_X)), Cell(Clamp(old(player.y), MIN_Y, MAX_Y));
        && (old(player.velocityY) > 0.0 && (levelData[gy + 1, gx] == Solid || levelData[gy + 1, gx] == Platform)
            ==> player.y == (gy * GRID_SIZE) as real && player.velocityY == 0.0)
        && (old(player.velocityY) < 0.0 && levelData[gy - 1, gx] == Solid
            ==> player.y == (gy * GRID_SIZE) as real && player.velocityY == 0.0)
        && (old(player.velocityY) == 0.0 ==> player.y == Clamp(old(player.y), MIN_Y, MAX_Y))
    {
      player := player.(x := Clamp(player.x, MIN_X, MAX_X), y := Clamp(player.y, MIN_Y, MAX_Y));
      InPlayCells(player.x, player.y);
      var gridX := Cell(player.x);
      var gridY := Cell(player.y);
      if player.velocityX > 0.0 {
        if levelData[gridY, gridX + 1] == Solid {
          player := player.(x := (gridX * GRID_SIZE) as real);
        }
      } else if player.velocityX < 0.0 {
        if levelData[gridY, gridX - 1] == Solid {
          player := player.(x := (gridX * GRID_SIZE) as real);
        }
      }
      if player.velocityY > 0.0 {
        if levelData[gridY + 1, gridX] == Solid || levelData[gridY + 1, gridX] == Platform {
          player := player.(y := (gridY * GRID_SIZE) as real, velocityY := 0.0);
        }
      } else if player.velocityY < 0.0 {
        if levelData[gridY - 1, gridX] == Solid {
          player := player.(y := (gridY * GRID_SIZE) as real, velocityY := 0.0);
        }
      }
    }

    /** updateEnemies. */
    method UpdateEnemies()
      requires Valid()
      modifies this`enemies, this`score
      ensures Valid()
      ensures |enemies| == |old(enemies)|
      ensures forall k :: 0 <= k < |enemies| ==>
        enemies[k] == EnemyStep(levelData, diggedBlocks, player.x, player.y, old(enemies)[k]).0
      ensures score == old(score) + TRAP_SCORE * Caught(levelData, diggedBlocks, player.x, player.y, old(enemies))
    {
      var gained;
      enemies, gained := StepEnemies(levelData, diggedBlocks, player.x, player.y, enemies);
      score := score + gained;
    }

    /** updateDiggedBlocks. */
    method UpdateDiggedBlocks()
      requires Valid()
      modifies this`diggedBlocks, levelData
      ensures Valid()
      ensures diggedBlocks == Aged(old(diggedBlocks))
      ensures forall r, c :: InGrid(r, c) ==>
        levelData[r, c] == if Closes(old(diggedBlocks), r, c) then Breakable else old(levelData[r, c])
    {
      ghost var holes := diggedBlocks;
      diggedBlocks := CloseHoles(levelData, diggedBlocks);
      AgedKeeps(holes);
      forall r, c | InGrid(r, c) && Border(r, c)
        ensures levelData[r, c] == Solid
      {
        if Closes(holes, r, c) {
          ClosesOnHole(holes, r, c);
        }
      }
    }

    /** checkTreasureCollection. */
    method CheckTreasureCollection()
      requires Valid()
      modifies this`treasures, this`score
      ensures Valid()
      ensures treasures == Uncollected(player.x, player.y, old(treasures))
      ensures score == old(score) + TREASURE_SCORE * (|old(treasures)| - |treasures|)
    {
      var left, gained := Collect(player.x, player.y, treasures);
      treasures := left;
      score := score + gained;
    }

    /** The enemy loop of checkGameConditions: the player's position, the lives, the
        screen and the used rolls become those of Encounter. */
    method MeetEnemies()
      requires Valid() && gameState == Playing
      modifies this`player, this`lives, this`gameState, this`drawn
      ensures Valid()
      ensures var o := Encounter(levelData, rand, enemies, Outcome(old(player.x), old(player.y), old(lives), false, old(drawn)));
        && player == old(player).(x := o.x, y := o.y) && lives == o.lives && drawn == o.drawn
        && gameState == (if o.over then GameOver else Playing)
    {
      var o := Encounters(levelData, rand, enemies, Outcome(player.x, player.y, lives, false, drawn));
      player := player.(x := o.x, y := o.y);
      lives := o.lives;
      if o.over {
        gameState := GameOver;
      }
      drawn := o.drawn;
    }

    /** The level completion of checkGameConditions: 1500 points, the next level, and a new
        grid whose treasures and enemies are appended to the lists. */
    method AdvanceLevel()
      requires Valid()
      modifies this`score, this`level, this`levelData, this`treasures, this`enemies, this`drawn
      ensures Valid()
      ensures score == old(score) + LEVEL_SCORE && level == old(level) + 1
      ensures fresh(levelData) && drawn == old(drawn) + LEVEL_ROLLS
      ensures Built(levelData, rand, old(drawn))
      ensures treasures == old(treasures) + PlacedCoins(rand, old(drawn), TREASURE_TRIES)
      ensures enemies == old(enemies) + [Newcomer(), Newcomer(), Newcomer()]
    {
      score := score + LEVEL_SCORE;
      level := level + 1;
      levelData := CreateLevel();
    }

    /** checkGameConditions: the enemy loop, then a new level once no treasure is left
        (lives lost in the same frame notwithstanding). One life goes per touch, any goes
        exactly when a free enemy was within reach, and the game ends only when they have
        run out. */
    method CheckGameConditions()
      requires Valid() && gameState == Playing
      modifies this`player, this`lives, this`gameState, this`drawn, this`score, this`level
      modifies this`levelData, this`treasures, this`enemies
      ensures Valid()
      ensures old(lives) - |old(enemies)| <= lives <= old(lives)
      ensures lives == old(lives - Touches(levelData, rand, enemies, Outcome(player.x, player.y, lives, false, drawn)))
      ensures lives < old(lives) <==> old(Threatened(enemies, player.x, player.y))
      ensures !old(Threatened(enemies, player.x, player.y)) ==> player == old(player) && gameState == Playing
      ensures 0 < lives < old(lives) ==>
        exists d :: old(drawn) <= d && var s := old(StartSearch(levelData, rand, d, 0));
          player == old(player).(x := s.x as real, y := s.y as real)
      ensures gameState == GameOver <==> lives <= 0
      ensures score == old(score) + (if old(treasures) == [] then LEVEL_SCORE else 0)
      ensures level == old(level) + (if old(treasures) == [] then 1 else 0)
      ensures old(treasures) != [] ==>
        levelData == old(levelData) && treasures == old(treasures) && enemies == old(enemies)
      ensures old(treasures) == [] ==>
        fresh(levelData) && enemies == old(enemies) + [Newcomer(), Newcomer(), Newcomer()]
      ensures var met := old(Encounter(levelData, rand, enemies, Outcome(player.x, player.y, lives, false, drawn))).drawn;
        && drawn == met + (if old(treasures) == [] then LEVEL_ROLLS else 0)
        && (old(treasures) == [] ==>
              Built(levelData, rand, met) && treasures == PlacedCoins(rand, met, TREASURE_TRIES))
    {
      EncounterTouches(levelData, rand, enemies, Outcome(player.x, player.y, lives, false, drawn));
      MeetEnemies();
      if |treasures| == 0 {
        AdvanceLevel();
      }
    }

    /** The player part of update: the player moves by its velocity, gains 0.5 of downward
        speed unless the moved position is on a ladder, and then the collisions are handled. */
    method MovePlayer()
      requires Valid()
      modifies this`player
      ensures Valid() && player.velocityX == old(player.velocityX)
      ensures var moved := old(player).(x := old(player.x + player.velocityX), y := old(player.y + player.velocityY));
        var gravity := if OnLadder(levelData, moved.x, moved.y) then 0.0 else 0.5;
        player.velocityY == 0.0 || player.velocityY == moved.velocityY + gravity
    {
      player := player.(x := player.x + player.velocityX, y := player.y + player.velocityY);
      if !OnLadder(levelData, player.x, player.y) {
        player := player.(velocityY := player.velocityY + 0.5);
      }
      HandleCollisions();
    }

    /** The moving part of update: the player, the enemies, the holes and the treasures
        in turn. The score never drops, no enemy is lost, and the lives and the screen
        stay as they are. */
    method MoveWorld()
      requires Valid()
      modifies this`player, this`enemies, this`score, this`diggedBlocks, this`treasures, levelData
      ensures Valid()
      ensures score >= old(score) && |enemies| == |old(enemies)|
      ensures var px, py := player.x, player.y;
        && (forall k :: 0 <= k < |enemies| ==>
              enemies[k] == old(EnemyStep(levelData, diggedBlocks, px, py, enemies[k])).0)
        && score == old(score + TRAP_SCORE * Caught(levelData, diggedBlocks, px, py, enemies))
                    + TREASURE_SCORE * (|old(treasures)| - |treasures|)
      ensures diggedBlocks == Aged(old(diggedBlocks))
      ensures forall r, c :: InGrid(r, c) ==>
        levelData[r, c] == if Closes(old(diggedBlocks), r, c) then Breakable else old(levelData[r, c])
      ensures treasures == Uncollected(player.x, player.y, old(treasures))
    {
      MovePlayer();
      UpdateEnemies();
      UpdateDiggedBlocks();
      CheckTreasureCollection();
    }

    /** update, for one frame: nothing unless playing; otherwise the player moves by its
        velocity, falls unless on a ladder, and the collisions, enemies, holes, treasures
        and game conditions are updated in turn. The score never drops and the lives
        never rise. */
    method Update()
      requires Valid()
      modifies this, levelData
      ensures Valid()
      ensures old(gameState) != Playing ==> unchanged(this) && unchanged(levelData)
      ensures score >= old(score) && lives <= old(lives) && level >= old(level)
      ensures |enemies| >= |old(enemies)|
    {
      if gameState != Playing {
        return;
      }
      MoveWorld();
      CheckGameConditions();
    }

    /** The keydown handler: Space leaves the menu; while playing, the arrows steer and
        Z and X dig to the left and right. */
    method KeyDown(key: Key)
      requires Valid()
      modifies this`gameState, this`player, this`diggedBlocks, levelData
      ensures Valid()
      ensures gameState == if old(gameState) == Menu && key == Space then Playing else old(gameState)
      ensures old(gameState) == Playing ==> player == Steered(levelData, old(player), key)
      ensures old(gameState) != Playing ==> player == old(player)
      ensures old(gameState) != Playing || (key != KeyZ && key != KeyX) ==>
        unchanged(levelData) && diggedBlocks == old(diggedBlocks)
      ensures old(gameState) == Playing && (key == KeyZ || key == KeyX) ==>
        var r, c := Cell(player.y), Cell(player.x) + (if key == KeyZ then -1 else 1);
        if old(levelData[r, c]) == Breakable then
          && levelData[r, c] == Empty
          && diggedBlocks == old(diggedBlocks) + [Hole(c, r, HOLE_TIME)]
          && forall r', c' :: InGrid(r', c') && (r' != r || c' != c) ==> levelData[r', c'] == old(levelData[r', c'])
        else
          unchanged(levelData) && diggedBlocks == old(diggedBlocks)
    {
      if gameState == Menu && key == Space {
        gameState := Playing;
        return;
      }
      if gameState != Playing {
        return;
      }
      match key
      case KeyZ => Dig(-1);
      case KeyX => Dig(1);
      case _ => player := Steered(levelData, player, key);
    }

    /** The keyup handler. */
    method KeyUp(key: Key)
      requires Valid()
      modifies this`player
      ensures Valid()
      ensures player == if gameState == Playing then Released(old(player), key) else old(player)
    {
      if gameState != Playing {
        return;
      }
      player := Released(player, key);
    }
  }
}
