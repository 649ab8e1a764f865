/** The tower rescue platformer: a player climbs three full-width platforms joined by
    ladders to reach a victim, picking up bonus items and dodging the barrels and
    fireballs a beast throws, against a timer. Positions and sizes are pixels on an
    800 x 600 canvas with y growing downwards; the timer counts seconds and loses 1/60
    of a second a frame. Math.random is the sequence rand(0), rand(1), ... of values in
    [0, 1), of which the game has used the first `drawn`. */
module TowerRescue {

  import opened Random
  import opened Splice

  const WIDTH: real := 800.0
  const HEIGHT: real := 600.0

  const PLAYER_WIDTH: real := 30.0
  const PLAYER_HEIGHT: real := 40.0
  const PLAYER_SPEED: real := 5.0
  const JUMP_FORCE: real := 10.0
  const GRAVITY: real := 0.8
  const START_X: real := 400.0
  const START_Y: real := 550.0

  const PLATFORM_HEIGHT: real := 20.0
  const LEVELS: int := 3
  const PLATFORM_SPACING: real := 140.0
  const LADDER_WIDTH: real := 40.0

  const BONUS_COUNT: nat := 5
  const BONUS_SIZE: real := 20.0
  const BONUS_SCORE: int := 300

  const HAZARD_SIZE: real := 20.0
  const HAZARD_SPEED: real := 5.0
  const HAZARD_FREQUENCY: real := 0.02

  const VICTIM_WIDTH: real := 30.0
  const VICTIM_HEIGHT: real := 40.0
  const VICTIM_SCORE: int := 5000

  const START_TIME: real := 180.0
  const MIN_TIME: real := 60.0
  const FRAME_TIME: real := 1.0 / 60.0

  /** An axis-aligned rectangle: platforms, ladders, the beast and the victim. */
  datatype Box = Box(x: real, y: real, width: real, height: real)

  /** The beast, which never moves: every hazard starts under the middle of it. */
  const BEAST: Box := Box(700.0, 50.0, 60.0, 60.0)

  datatype Direction = Left | Right

  /** The player; its box is PLAYER_WIDTH x PLAYER_HEIGHT. */
  datatype Player = Player(x: real, y: real, velocityY: real, isJumping: bool,
                           isClimbing: bool, direction: Direction)

  /** A bonus item; its box is BONUS_SIZE square. */
  datatype Bonus = Bonus(x: real, y: real, collected: bool)

  datatype HazardKind = Barrel | Fireball

  /** A thrown hazard; its box is HAZARD_SIZE square. A barrel rolls in its direction,
      -1 or 1, whenever it meets a platform. */
  datatype Hazard = Hazard(x: real, y: real, kind: HazardKind, speed: real, direction: int)

  /** The keys held down. */
  datatype Keys = Keys(left: bool, right: bool, up: bool, down: bool, space: bool)

  /** gameState. */
  datatype Screen = Menu | Playing | GameOver

  datatype Key = Enter | ArrowLeft | ArrowRight | ArrowUp | ArrowDown | Space | OtherKey

  const START_PLAYER: Player := Player(START_X, START_Y, 0.0, false, false, Right)
  const NO_KEYS: Keys := Keys(false, false, false, false, false)
  const FIRST_VICTIM: Box := Box(600.0, 150.0, VICTIM_WIDTH, VICTIM_HEIGHT)

  function PlayerBox(p: Player): Box {
    Box(p.x, p.y, PLAYER_WIDTH, PLAYER_HEIGHT)
  }

  function BonusBox(b: Bonus): Box {
    Box(b.x, b.y, BONUS_SIZE, BONUS_SIZE)
  }

  function HazardBox(h: Hazard): Box {
    Box(h.x, h.y, HAZARD_SIZE, HAZARD_SIZE)
  }

  function Max(a: real, b: real): real {
    if a >= b then a else b
  }

  function Min(a: real, b: real): real {
    if a <= b then a else b
  }

  // ---------------------------------------------------------------------------
  // checkCollision
  // ---------------------------------------------------------------------------

  /** checkCollision: the two boxes overlap, edges excluded. */
  predicate Overlaps(a: Box, b: Box) {
    a.x < b.x + b.width && a.x + a.width > b.x && a.y < b.y + b.height && a.y + a.height > b.y
  }

  /** The point (px, py) lies strictly inside the box. */
  predicate Inside(b: Box, px: real, py: real) {
    b.x < px < b.x + b.width && b.y < py < b.y + b.height
  }

  /** For boxes of positive size, checkCollision holds exactly when some point lies
      strictly inside both boxes. */
  lemma OverlapsIffSharedPoint(a: Box, b: Box)
    requires a.width > 0.0 && a.height > 0.0 && b.width > 0.0 && b.height > 0.0
    ensures Overlaps(a, b) <==> exists px, py :: Inside(a, px, py) && Inside(b, px, py)
  {
    if Overlaps(a, b) {
      var px := (Max(a.x, b.x) + Min(a.x + a.width, b.x + b.width)) / 2.0;
      var py := (Max(a.y, b.y) + Min(a.y + a.height, b.y + b.height)) / 2.0;
      assert Inside(a, px, py) && Inside(b, px, py);
    }
  }

  /** checkCollision does not depend on the order of its arguments. */
  lemma OverlapsSymmetric(a: Box, b: Box)
    ensures Overlaps(a, b) <==> Overlaps(b, a)
  {
  }

  /** Boxes that only share an edge do not collide. */
  lemma TouchingApart(a: Box, b: Box)
    requires a.x + a.width == b.x || b.x + b.width == a.x || a.y + a.height == b.y || b.y + b.height == a.y
    ensures !Overlaps(a, b)
  {
  }

  // ---------------------------------------------------------------------------
  // setupLevel
  // ---------------------------------------------------------------------------

  /** The top of the platform of floor i, floors counted from the bottom. */
  function FloorY(i: int): real {
    HEIGHT - 50.0 - i as real * PLATFORM_SPACING
  }

  /** The platform of floor i, across the whole canvas. */
  function PlatformAt(i: int): Box {
    Box(0.0, FloorY(i), WIDTH, PLATFORM_HEIGHT)
  }

  /** Ladder j of floor i: PLATFORM_SPACING tall, from PLATFORM_HEIGHT above the top of
      its platform downwards. */
  function LadderAt(i: int, j: int): Box {
    Box(200.0 + j as real * 200.0, FloorY(i) - PLATFORM_HEIGHT, LADDER_WIDTH, PLATFORM_SPACING)
  }

  /** The layout setupLevel builds: three platforms, bottom first, and three ladders per
      floor, left first. */
  predicate IsLayout(platforms: seq<Box>, ladders: seq<Box>) {
    && |platforms| == LEVELS && |ladders| == 3 * LEVELS
    && (forall i :: 0 <= i < LEVELS ==> platforms[i] == PlatformAt(i))
    && (forall i, j :: 0 <= i < LEVELS && 0 <= j < 3 ==> ladders[3 * i + j] == LadderAt(i, j))
  }

  /** The platform loop of setupLevel. */
  method BuildPlatforms() returns (platforms: seq<Box>)
    ensures |platforms| == LEVELS
    ensures forall i :: 0 <= i < LEVELS ==> platforms[i] == PlatformAt(i)
  {
    platforms := [];
    for i := 0 to LEVELS
      invariant |platforms| == i
      invariant forall k :: 0 <= k < i ==> platforms[k] == PlatformAt(k)
    {
      var y := HEIGHT - 50.0 - i as real * PLATFORM_SPACING;
      platforms := platforms + [Box(0.0, y, WIDTH, PLATFORM_HEIGHT)];
    }
  }

  /** The ladder loops of setupLevel. */
  method BuildLadders() returns (ladders: seq<Box>)
    ensures |ladders| == 3 * LEVELS
    ensures forall i, j :: 0 <= i < LEVELS && 0 <= j < 3 ==> ladders[3 * i + j] == LadderAt(i, j)
  {
    ladders := [];
    for i := 0 to LEVELS
      invariant |ladders| == 3 * i
      invariant forall i', j :: 0 <= i' < i && 0 <= j < 3 ==> ladders[3 * i' + j] == LadderAt(i', j)
    {
      var y := HEIGHT - 50.0 - i as real * PLATFORM_SPACING;
      for j := 0 to 3
        invariant |ladders| == 3 * i + j
        invariant forall i', j' :: 0 <= i' < i && 0 <= j' < 3 ==> ladders[3 * i' + j'] == LadderAt(i', j')
        invariant forall j' :: 0 <= j' < j ==> ladders[3 * i + j'] == LadderAt(i, j')
      {
        ladders := ladders + [Box(200.0 + j as real * 200.0, y - PLATFORM_HEIGHT, LADDER_WIDTH, PLATFORM_SPACING)];
      }
    }
  }

  /** The platforms of different floors are apart. */
  lemma PlatformsApart(i: int, k: int)
    requires 0 <= i < LEVELS && 0 <= k < LEVELS && i != k
    ensures !Overlaps(PlatformAt(i), PlatformAt(k))
  {
  }

  /** A ladder crosses the platform of its own floor and no other. */
  lemma LadderCrossesOwnFloor(i: int, j: int, k: int)
    requires 0 <= i < LEVELS && 0 <= j < 3 && 0 <= k < LEVELS
    ensures Overlaps(LadderAt(i, j), PlatformAt(k)) <==> k == i
  {
  }

  /** Bonus item t of a setupLevel whose rolls start at index `from`. */
  function NewBonus(rand: Rolls, from: nat, t: nat): Bonus {
    Bonus(rand(from + 2 * t) * (WIDTH - BONUS_SIZE), rand(from + 2 * t + 1) * (HEIGHT - 200.0) + 100.0, false)
  }

  /** The first n bonus items of that setupLevel. */
  function NewBonuses(rand: Rolls, from: nat, n: nat): seq<Bonus> {
    seq(n, (t: int) requires 0 <= t => NewBonus(rand, from, t))
  }

  /** The band setupLevel scatters bonus items over: the item inside the canvas
      sideways, and between 100 pixels from the top and 100 from the bottom. */
  predicate InField(b: Bonus) {
    0.0 <= b.x < WIDTH - BONUS_SIZE && 100.0 <= b.y < HEIGHT - 100.0
  }

  /** setupLevel adds n uncollected bonus items, all in the band. */
  lemma NewBonusesFresh(rand: Rolls, from: nat, n: nat)
    requires UnitRolls(rand)
    ensures |NewBonuses(rand, from, n)| == n
    ensures forall k :: 0 <= k < n ==> !NewBonuses(rand, from, n)[k].collected && InField(NewBonuses(rand, from, n)[k])
  {
    forall k | 0 <= k < n
      ensures InField(NewBonuses(rand, from, n)[k])
    {
      var u, v := rand(from + 2 * k), rand(from + 2 * k + 1);
      assert 0.0 <= u * 780.0 < 780.0;
      assert 0.0 <= v * 400.0 < 400.0;
    }
  }

  /** The bonus loop of setupLevel. */
  method PlaceBonuses(rand: Rolls, from: nat) returns (bonuses: seq<Bonus>)
    ensures bonuses == NewBonuses(rand, from, BONUS_COUNT)
  {
    bonuses := [];
    for t := 0 to BONUS_COUNT
      invariant |bonuses| == t
      invariant forall j :: 0 <= j < t ==> bonuses[j] == NewBonus(rand, from, j)
    {
      var x := rand(from + 2 * t) * (WIDTH - BONUS_SIZE);
      var y := rand(from + 2 * t + 1) * (HEIGHT - 200.0) + 100.0;
      bonuses := bonuses + [Bonus(x, y, false)];
    }
  }

  // ---------------------------------------------------------------------------
  // checkLadderCollision
  // ---------------------------------------------------------------------------

  /** The box, the player's, overlaps some ladder. */
  predicate OnLadder(b: Box, ladders: seq<Box>) {
    exists k :: 0 <= k < |ladders| && Overlaps(b, ladders[k])
  }

  /** In the layout, being on a ladder means overlapping one of the nine ladders of
      the three floors. */
  lemma OnLadderInLayout(b: Box, platforms: seq<Box>, ladders: seq<Box>)
    requires IsLayout(platforms, ladders)
    ensures OnLadder(b, ladders) <==>
            exists i, j :: 0 <= i < LEVELS && 0 <= j < 3 && Overlaps(b, LadderAt(i, j))
  {
    if OnLadder(b, ladders) {
      var k :| 0 <= k < |ladders| && Overlaps(b, ladders[k]);
      var i, j := k / 3, k % 3;
      assert ladders[3 * i + j] == LadderAt(i, j);
    }
    if exists i, j :: 0 <= i < LEVELS && 0 <= j < 3 && Overlaps(b, LadderAt(i, j)) {
      var i, j :| 0 <= i < LEVELS && 0 <= j < 3 && Overlaps(b, LadderAt(i, j));
      assert ladders[3 * i + j] == LadderAt(i, j);
    }
  }

  // ---------------------------------------------------------------------------
  // update: the player on the platforms
  // ---------------------------------------------------------------------------

  /** One platform of the platform loop: a player falling into it is set on top of it,
      stops falling and ends the jump. */
  function LandOn(p: Player, platform: Box): Player {
    if Overlaps(PlayerBox(p), platform) && p.velocityY > 0.0
    then p.(y := platform.y - PLAYER_HEIGHT, velocityY := 0.0, isJumping := false)
    else p
  }

  /** The platform loop of update, over the platforms in order. Only the height, the
      fall and the jump can change, and they change only for a falling player, who
      then stands on top of a platform they overlapped. */
  function PlayerLanded(platforms: seq<Box>, p: Player): (q: Player)
    ensures q.x == p.x && q.isClimbing == p.isClimbing && q.direction == p.direction
    ensures p.velocityY <= 0.0 ==> q == p
    ensures q == p || (q.velocityY == 0.0 && !q.isJumping &&
                       exists k :: 0 <= k < |platforms| && Overlaps(PlayerBox(p), platforms[k]) &&
                                   q.y + PLAYER_HEIGHT == platforms[k].y)
  {
    if platforms == [] then p
    else
      var q := PlayerLanded(platforms[1..], LandOn(p, platforms[0]));
      assert q != p && LandOn(p, platforms[0]) == p ==>
        exists k :: 1 <= k < |platforms| && Overlaps(PlayerBox(p), platforms[k]) &&
                    q.y + PLAYER_HEIGHT == platforms[k].y;
      q
  }

  // ---------------------------------------------------------------------------
  // update: hazards
  // ---------------------------------------------------------------------------

  /** spawnHazard's pick from ['barrel', 'fireball'] with the roll u: the first half of
      the rolls throws barrels. A roll outside [0, 1) would pick no type, and a hazard
      without a type behaves as a fireball. */
  function KindOf(u: real): (kind: HazardKind)
    ensures kind == Barrel <==> 0.0 <= u < 0.5
  {
    if (u * 2.0).Floor == 0 then Barrel else Fireball
  }

  /** The hazard spawnHazard throws with the rolls from index `from` on, at the given
      speed. */
  function Thrown(rand: Rolls, from: nat, speed: real): Hazard {
    Hazard(BEAST.x + BEAST.width / 2.0, BEAST.y + BEAST.height, KindOf(rand(from)), speed,
           if rand(from + 1) < 0.5 then -1 else 1)
  }

  /** The hazard update may throw with the rolls from index `from` on: one when the
      first roll is under 0.02. */
  function Spawned(rand: Rolls, from: nat): (hs: seq<Hazard>)
    ensures |hs| <= 1
    ensures forall k :: 0 <= k < |hs| ==> hs[k].y <= HEIGHT && hs[k].speed == HAZARD_SPEED
  {
    if rand(from) < HAZARD_FREQUENCY then [Thrown(rand, from + 1, HAZARD_SPEED)] else []
  }

  /** The hazards resetLevel starts a level with, from the rolls at `from` on: one at
      the level's speed, 5 and 1 more per level, when the first roll is under 0.02 and
      0.01 more per level, and none otherwise. */
  function FirstHazards(rand: Rolls, from: nat, level: int): (hs: seq<Hazard>)
    ensures |hs| <= 1
    ensures forall k :: 0 <= k < |hs| ==> hs[k].y <= HEIGHT && hs[k].speed == HAZARD_SPEED + level as real
  {
    if rand(from) < 0.02 + level as real * 0.01 then [Thrown(rand, from + 1, HAZARD_SPEED + level as real)] else []
  }

  /** The rolls a spawning roll uses: one, and two more when a hazard is thrown. */
  function RollsFor(hs: seq<Hazard>): nat {
    if hs == [] then 1 else 3
  }

  /** A hazard after its fall of one frame. */
  function Fallen(h: Hazard): Hazard {
    h.(y := h.y + h.speed)
  }

  /** One platform of the hazard's platform loop: a hazard overlapping it is set on top
      of it, and a barrel rolls 3 pixels in its direction. */
  function HazardOn(h: Hazard, platform: Box): Hazard {
    if Overlaps(HazardBox(h), platform)
    then h.(y := platform.y - HAZARD_SIZE, x := if h.kind == Barrel then h.x + h.direction as real * 3.0 else h.x)
    else h
  }

  /** The platform loop for one hazard, over the platforms in order. The hazard keeps
      its kind, speed and direction, only a barrel moves sideways, and a hazard that
      moves ends on top of a platform. */
  function HazardLanded(platforms: seq<Box>, h: Hazard): (g: Hazard)
    ensures g.kind == h.kind && g.speed == h.speed && g.direction == h.direction
    ensures h.kind == Fireball ==> g.x == h.x
    ensures g.y == h.y || exists k :: 0 <= k < |platforms| && g.y == platforms[k].y - HAZARD_SIZE
  {
    if platforms == [] then h
    else
      var g := HazardLanded(platforms[1..], HazardOn(h, platforms[0]));
      assert g.y != HazardOn(h, platforms[0]).y ==>
        exists k :: 1 <= k < |platforms| && g.y == platforms[k].y - HAZARD_SIZE;
      g
  }

  /** The platform loop for one hazard. */
  method LandHazard(platforms: seq<Box>, h: Hazard) returns (g: Hazard)
    ensures g == HazardLanded(platforms, h)
  {
    g := h;
    for k := 0 to |platforms|
      invariant HazardLanded(platforms, h) == HazardLanded(platforms[k..], g)
    {
      assert platforms[k..][0] == platforms[k] && platforms[k..][1..] == platforms[k + 1..];
      if Overlaps(HazardBox(g), platforms[k]) {
        g := g.(y := platforms[k].y - HAZARD_SIZE);
        if g.kind == Barrel {
          g := g.(x := g.x + g.direction as real * 3.0);
        }
      }
    }
  }

  /** resetPlayerPosition. */
  function Respawned(p: Player): Player {
    p.(x := START_X, y := START_Y, velocityY := 0.0, isJumping := false, isClimbing := false)
  }

  /** What the hazard loop of update changes: the hazards kept, the player, the lives
      and whether the game is over. */
  datatype Round = Round(kept: seq<Hazard>, player: Player, lives: int, over: bool)

  /** The hazard loop of update over hs from the back, from o: every hazard falls and
      lands on the platforms; one below the canvas is dropped; one that touches the
      player, dropped or not, costs a life, and then the game ends when no lives are
      left and the player restarts at the start position otherwise. No hazard below
      the canvas is kept, the lives fall by at most one per hazard, the game is over
      exactly when it was or a hit took the last life, and the player either stays
      or restarts. */
  function HazardRound(platforms: seq<Box>, hs: seq<Hazard>, o: Round): (r: Round)
    ensures |r.kept| <= |hs| + |o.kept|
    ensures (forall k :: 0 <= k < |o.kept| ==> o.kept[k].y <= HEIGHT) ==>
            forall k :: 0 <= k < |r.kept| ==> r.kept[k].y <= HEIGHT
    ensures o.lives - |hs| <= r.lives <= o.lives
    ensures r.over <==> o.over || (r.lives <= 0 && r.lives < o.lives)
    ensures r.player == o.player || r.player == Respawned(o.player)
  {
    if hs == [] then o
    else HazardTurn(Landed(platforms, hs[0]), HazardRound(platforms, hs[1..], o))
  }

  /** The turn of one hazard h, already fallen and landed, after the round p of the
      hazards behind it. */
  function HazardTurn(h: Hazard, p: Round): Round {
    var kept := if h.y > HEIGHT then p.kept else [h] + p.kept;
    if !Overlaps(HazardBox(h), PlayerBox(p.player)) then p.(kept := kept)
    else if p.lives - 1 <= 0 then Round(kept, p.player, p.lives - 1, true)
    else Round(kept, Respawned(p.player), p.lives - 1, p.over)
  }

  /** A hazard after its turn in the hazard loop: fallen, then landed on the platforms. */
  function Landed(platforms: seq<Box>, h: Hazard): Hazard {
    HazardLanded(platforms, Fallen(h))
  }

  /** The hazards of hs that stay on the canvas after their turn, landed, in their order. */
  function OnCanvas(platforms: seq<Box>, hs: seq<Hazard>): (kept: seq<Hazard>)
    ensures forall k :: 0 <= k < |kept| ==> kept[k].y <= HEIGHT
  {
    if hs == [] then []
    else if Landed(platforms, hs[0]).y > HEIGHT then OnCanvas(platforms, hs[1..])
    else [Landed(platforms, hs[0])] + OnCanvas(platforms, hs[1..])
  }

  /** Some hazard of hs, after its turn, overlaps a player p. */
  predicate HitsPlayer(platforms: seq<Box>, hs: seq<Hazard>, p: Player) {
    exists k :: 0 <= k < |hs| && Overlaps(HazardBox(Landed(platforms, hs[k])), PlayerBox(p))
  }

  lemma HitsPlayerSplit(platforms: seq<Box>, hs: seq<Hazard>, p: Player)
    requires hs != []
    ensures HitsPlayer(platforms, hs, p) <==>
      Overlaps(HazardBox(Landed(platforms, hs[0])), PlayerBox(p)) || HitsPlayer(platforms, hs[1..], p)
  {
    if HitsPlayer(platforms, hs[1..], p) {
      var k :| 0 <= k < |hs[1..]| && Overlaps(HazardBox(Landed(platforms, hs[1..][k])), PlayerBox(p));
      assert hs[k + 1] == hs[1..][k];
    }
    if HitsPlayer(platforms, hs, p) {
      var k :| 0 <= k < |hs| && Overlaps(HazardBox(Landed(platforms, hs[k])), PlayerBox(p));
      if k > 0 {
        assert hs[1..][k - 1] == hs[k];
      }
    }
  }

  /** The hazard loop keeps exactly the hazards still on the canvas after their turn, in
      their order, in front of the ones kept before. */
  lemma {:induction false} HazardRoundKeeps(platforms: seq<Box>, hs: seq<Hazard>, o: Round)
    ensures HazardRound(platforms, hs, o).kept == OnCanvas(platforms, hs) + o.kept
  {
    if hs != [] {
      HazardRoundKeeps(platforms, hs[1..], o);
      var h, rest := Landed(platforms, hs[0]), OnCanvas(platforms, hs[1..]);
      var kept := HazardRound(platforms, hs[1..], o).kept;
      assert HazardRound(platforms, hs, o).kept == if h.y > HEIGHT then kept else [h] + kept;
      ConsAppend(h, rest, o.kept);
    }
  }

  lemma ConsAppend<T>(x: T, a: seq<T>, b: seq<T>)
    ensures [x] + (a + b) == [x] + a + b
  {
  }

  /** The number of hazards of hs that overlap the player as the loop reaches them, the
      hazards after them having had their turn. */
  function Hits(platforms: seq<Box>, hs: seq<Hazard>, o: Round): nat {
    if hs == [] then 0
    else
      var p := HazardRound(platforms, hs[1..], o).player;
      (if Overlaps(HazardBox(Landed(platforms, hs[0])), PlayerBox(p)) then 1 else 0)
      + Hits(platforms, hs[1..], o)
  }

  /** Each hazard that reaches the player costs exactly one life. A life is lost exactly
      when some hazard, after its turn, overlaps the player as they stood before the loop;
      without a loss nothing but the list changes; and a player who survives a loss
      restarts at the start position. */
  lemma {:induction false} HazardRoundHits(platforms: seq<Box>, hs: seq<Hazard>, o: Round)
    ensures var r := HazardRound(platforms, hs, o);
      && r.lives == o.lives - Hits(platforms, hs, o)
      && (r.lives < o.lives <==> HitsPlayer(platforms, hs, o.player))
      && (r.lives == o.lives ==> r.player == o.player && r.over == o.over)
      && (0 < r.lives < o.lives ==> r.player == Respawned(o.player))
  {
    if hs != [] {
      HazardRoundHits(platforms, hs[1..], o);
      HitsPlayerSplit(platforms, hs, o.player);
    }
  }

  /** The round from hazard i on is hazard i's turn after the round of those behind it. */
  lemma HazardRoundFrom(platforms: seq<Box>, hs: seq<Hazard>, i: int, o: Round)
    requires 0 <= i < |hs|
    ensures HazardRound(platforms, hs[i..], o) == HazardTurn(Landed(platforms, hs[i]), HazardRound(platforms, hs[i + 1..], o))
  {
    assert hs[i..][0] == hs[i] && hs[i..][1..] == hs[i + 1..];
  }

  /** The hazard loop of update, splicing the hazards below the canvas out of the list
      in place. */
  method RunHazards(platforms: seq<Box>, hazards: seq<Hazard>, player: Player, lives: int)
    returns (r: Round)
    ensures r == HazardRound(platforms, hazards, Round([], player, lives, false))
  {
    var hs := hazards;
    ghost var kept: seq<Hazard> := [];
    var p, l, over := player, lives, false;
    var i := |hazards| - 1;
    while i >= 0
      invariant -1 <= i < |hazards|
      invariant hs == hazards[..i + 1] + kept
      invariant Round(kept, p, l, over) == HazardRound(platforms, hazards[i + 1..], Round([], player, lives, false))
    {
      assert hs[i] == hazards[i];
      ghost var before := Round(kept, p, l, over);
      var h := hs[i];
      h := h.(y := h.y + h.speed);
      h := LandHazard(platforms, h);
      assert h == Landed(platforms, hazards[i]);
      if h.y > HEIGHT {
        DropAt(hazards[..i + 1], kept, i);
        hs := hs[..i] + hs[i + 1..];
      } else {
        ReplaceAt(hazards[..i + 1], kept, i, h);
        hs := hs[i := h];
        kept := [h] + kept;
      }
      if Overlaps(HazardBox(h), PlayerBox(p)) {
        l := l - 1;
        if l <= 0 {
          over := true;
        } else {
          p := Respawned(p);
        }
      }
      assert hazards[..i + 1][..i] == hazards[..i];
      HazardRoundFrom(platforms, hazards, i, Round([], player, lives, false));
      assert Round(kept, p, l, over) == HazardTurn(h, before);
      i := i - 1;
    }
    assert hazards[0..] == hazards;
    r := Round(hs, p, l, over);
  }

  // ---------------------------------------------------------------------------
  // update: bonus items
  // ---------------------------------------------------------------------------

  /** One bonus item of the bonus loop: an uncollected item the player overlaps becomes
      collected. */
  function Touch(p: Player, b: Bonus): Bonus {
    if !b.collected && Overlaps(PlayerBox(p), BonusBox(b)) then b.(collected := true) else b
  }

  /** The bonus loop of update. */
  function Collected(p: Player, bs: seq<Bonus>): (cs: seq<Bonus>)
    ensures |cs| == |bs|
  {
    if bs == [] then [] else [Touch(p, bs[0])] + Collected(p, bs[1..])
  }

  /** 1 for an uncollected item. */
  function Mark(b: Bonus): nat {
    if b.collected then 0 else 1
  }

  /** The number of uncollected items. */
  function Waiting(bs: seq<Bonus>): nat {
    if bs == [] then 0 else Mark(bs[0]) + Waiting(bs[1..])
  }

  /** The bonus loop treats every item on its own: the item stays where it was, and it
      is collected afterwards exactly when it was before or the player overlaps it. */
  lemma {:induction false} CollectedAt(p: Player, bs: seq<Bonus>)
    ensures forall k :: 0 <= k < |bs| ==> Collected(p, bs)[k] == Touch(p, bs[k])
    ensures forall k :: 0 <= k < |bs| ==>
              && Collected(p, bs)[k].x == bs[k].x && Collected(p, bs)[k].y == bs[k].y
              && (Collected(p, bs)[k].collected <==> bs[k].collected || Overlaps(PlayerBox(p), BonusBox(bs[k])))
  {
    if bs != [] {
      CollectedAt(p, bs[1..]);
      assert forall k :: 1 <= k < |bs| ==> Collected(p, bs)[k] == Collected(p, bs[1..])[k - 1];
    }
  }

  /** A second pass of the bonus loop changes nothing: no item scores twice. */
  lemma {:induction false} CollectedOnce(p: Player, bs: seq<Bonus>)
    ensures Collected(p, Collected(p, bs)) == Collected(p, bs)
    ensures Waiting(Collected(p, Collected(p, bs))) == Waiting(Collected(p, bs))
  {
    if bs != [] {
      CollectedOnce(p, bs[1..]);
      var cs := Collected(p, bs);
      assert cs[0] == Touch(p, bs[0]) && cs[1..] == Collected(p, bs[1..]);
    }
  }

  /** The bonus loop never uncollects an item. */
  lemma {:induction false} CollectedWaiting(p: Player, bs: seq<Bonus>)
    ensures Waiting(Collected(p, bs)) <= Waiting(bs)
  {
    if bs != [] {
      CollectedWaiting(p, bs[1..]);
      var cs := Collected(p, bs);
      assert cs[0] == Touch(p, bs[0]) && cs[1..] == Collected(p, bs[1..]);
    }
  }

  /** Replacing one item changes the count by the difference of the two marks. */
  lemma {:induction false} WaitingUpdate(bs: seq<Bonus>, k: nat, b: Bonus)
    requires k < |bs|
    ensures Waiting(bs[k := b]) == Waiting(bs) - Mark(bs[k]) + Mark(b)
  {
    if k == 0 {
      assert bs[k := b][1..] == bs[1..];
    } else {
      WaitingUpdate(bs[1..], k - 1, b);
      assert bs[k := b][1..] == bs[1..][k - 1 := b];
    }
  }

  /** The bonus loop of update: every uncollected item the player overlaps becomes
      collected for 300 points. */
  method CollectBonuses(p: Player, bs: seq<Bonus>) returns (cs: seq<Bonus>, gained: int)
    ensures cs == Collected(p, bs)
    ensures gained == BONUS_SCORE * (Waiting(bs) - Waiting(cs))
  {
    cs, gained := bs, 0;
    for k := 0 to |bs|
      invariant |cs| == |bs|
      invariant forall j :: 0 <= j < k ==> cs[j] == Touch(p, bs[j])
      invariant forall j :: k <= j < |bs| ==> cs[j] == bs[j]
      invariant gained == BONUS_SCORE * (Waiting(bs) - Waiting(cs))
    {
      if !cs[k].collected && Overlaps(PlayerBox(p), BonusBox(cs[k])) {
        WaitingUpdate(cs, k, cs[k].(collected := true));
        cs := cs[k := cs[k].(collected := true)];
        gained := gained + BONUS_SCORE;
      }
    }
    CollectedAt(p, bs);
  }

  // ---------------------------------------------------------------------------
  // The win condition and resetLevel
  // ---------------------------------------------------------------------------

  /** What a rescue is worth with the timer at t: 5000 and 100 per whole second left.
      With less than a second overdue it is still worth 4900. */
  function RescueScore(t: real): (s: int)
    ensures t >= 0.0 ==> s >= VICTIM_SCORE
    ensures t > -1.0 ==> s >= VICTIM_SCORE - 100
    ensures s <= VICTIM_SCORE + 100 * t.Floor
  {
    VICTIM_SCORE + t.Floor * 100
  }

  /** The time given for a level: 20 seconds less for each level, but never below a
      minute. */
  function LevelTime(level: int): (t: real)
    ensures t >= MIN_TIME
    ensures level >= 0 ==> t <= START_TIME
    ensures level <= 6 ==> t == START_TIME - 20.0 * level as real
    ensures level >= 6 ==> t == MIN_TIME
  {
    Max(MIN_TIME, START_TIME - level as real * 20.0)
  }

  /** The victim's new x for the roll u: somewhere in [600, 700). */
  function VictimX(u: real): (x: real)
    ensures 0.0 <= u < 1.0 ==> 600.0 <= x < 700.0
  {
    600.0 + u * 100.0
  }

  /** Where the victim may stand. */
  predicate VictimAt(v: Box) {
    600.0 <= v.x < 700.0 && v.y == 150.0 && v.width == VICTIM_WIDTH && v.height == VICTIM_HEIGHT
  }

  // ---------------------------------------------------------------------------
  // The keys
  // ---------------------------------------------------------------------------

  /** The keydown switch: the key's flag is set. */
  function Pressed(keys: Keys, key: Key): Keys {
    match key
    case ArrowLeft => keys.(left := true)
    case ArrowRight => keys.(right := true)
    case ArrowUp => keys.(up := true)
    case ArrowDown => keys.(down := true)
    case Space => keys.(space := true)
    case _ => keys
  }

  /** The keyup switch: the key's flag is cleared. */
  function Released(keys: Keys, key: Key): Keys {
    match key
    case ArrowLeft => keys.(left := false)
    case ArrowRight => keys.(right := false)
    case ArrowUp => keys.(up := false)
    case ArrowDown => keys.(down := false)
    case Space => keys.(space := false)
    case _ => keys
  }

  /** Releasing a key undoes pressing it: what is held afterwards does not depend on
      whether the key was pressed before. */
  lemma ReleaseAfterPress(keys: Keys, key: Key)
    ensures Released(Pressed(keys, key), key) == Released(keys, key)
  {
  }

  /** The space bar's jump: only a player neither jumping nor climbing jumps. */
  function Jumped(p: Player): (q: Player)
    ensures q.x == p.x && q.y == p.y && q.isClimbing == p.isClimbing
    ensures q != p <==> !p.isJumping && !p.isClimbing
    ensures q != p ==> q.isJumping && q.velocityY < 0.0
  {
    if !p.isJumping && !p.isClimbing then p.(velocityY := -JUMP_FORCE, isJumping := true) else p
  }

  // ---------------------------------------------------------------------------
  // The game
  // ---------------------------------------------------------------------------

  class Game {
    var gameState: Screen
    var score: int
    var lives: int
    var level: int
    var timer: real
    var platforms: seq<Box>
    var ladders: seq<Box>
    var hazards: seq<Hazard>
    var bonusItems: seq<Bonus>
    var player: Player
    var victim: Box
    var keys: Keys
    /** Math.random, and how many of its values the game has used. */
    const rand: Rolls
    var drawn: nat

    /** The platforms and ladders are the fixed layout. */
    ghost predicate Layout()
      reads this`platforms, this`ladders
    {
      IsLayout(platforms, ladders)
    }

    /** The counters: the score is not negative, the level is at least 1, the timer is
        at most 180 seconds and less than a second overdue, and a game being played has
        lives and time left. */
    ghost predicate Tally()
      reads this`score, this`level, this`timer, this`gameState, this`lives
    {
      && score >= 0 && level >= 1
      && -1.0 < timer <= START_TIME
      && (gameState == Playing ==> lives >= 1 && timer > 0.0)
    }

    /** The bonus items lie in their band, no hazard is below the canvas, and the
        victim stands where resetLevel puts it. */
    ghost predicate Placed()
      reads this`bonusItems, this`hazards, this`victim
    {
      && (forall k :: 0 <= k < |bonusItems| ==> InField(bonusItems[k]))
      && (forall k :: 0 <= k < |hazards| ==> hazards[k].y <= HEIGHT)
      && VictimAt(victim)
    }

    /** What holds between frames, except the player's sideways bound. */
    ghost predicate Settled()
      reads this`platforms, this`ladders, this`score, this`level, this`timer, this`gameState,
            this`lives, this`bonusItems, this`hazards, this`victim
    {
      UnitRolls(rand) && Layout() && Tally() && Placed()
    }

    /** What holds between frames: also the player is inside the canvas sideways. */
    ghost predicate Valid()
      reads this`platforms, this`ladders, this`score, this`level, this`timer, this`gameState,
            this`lives, this`bonusItems, this`hazards, this`victim, this`player
    {
      Settled() && 0.0 <= player.x <= WIDTH - PLAYER_WIDTH
    }

    /** The constructor and its setupLevel. */
    constructor (rand: Rolls, used: nat)
      requires UnitRolls(rand)
      ensures Valid() && this.rand == rand
      ensures gameState == Menu && score == 0 && lives == 3 && level == 1 && timer == START_TIME
      ensures hazards == [] && bonusItems == NewBonuses(rand, used, BONUS_COUNT)
      ensures drawn == used + 2 * BONUS_COUNT
      ensures player == START_PLAYER && victim == FIRST_VICTIM && keys == NO_KEYS
    {
      var ps := BuildPlatforms();
      var ls := BuildLadders();
      var bs := PlaceBonuses(rand, used);
      NewBonusesFresh(rand, used, BONUS_COUNT);
      this.rand := rand;
      gameState, score, lives, level, timer := Menu, 0, 3, 1, START_TIME;
      platforms, ladders, hazards, bonusItems := ps, ls, [], bs;
      player, victim, keys := START_PLAYER, FIRST_VICTIM, NO_KEYS;
      drawn := used + 2 * BONUS_COUNT;
    }

    /** setupLevel: the platforms and ladders are rebuilt, and five new bonus items are
        added to the ones there are. */
    method SetupLevel()
      requires UnitRolls(rand) && Placed()
      modifies this`platforms, this`ladders, this`bonusItems, this`drawn
      ensures Layout() && Placed()
      ensures bonusItems == old(bonusItems) + NewBonuses(rand, old(drawn), BONUS_COUNT)
      ensures drawn == old(drawn) + 2 * BONUS_COUNT
    {
      platforms := BuildPlatforms();
      ladders := BuildLadders();
      var bs := PlaceBonuses(rand, drawn);
      NewBonusesFresh(rand, drawn, BONUS_COUNT);
      bonusItems := bonusItems + bs;
      drawn := drawn + 2 * BONUS_COUNT;
    }

    /** startGame, without the screen and the frame loop. */
    method StartGame()
      modifies this`gameState
      ensures gameState == Playing
    {
      gameState := Playing;
    }

    /** resetPlayerPosition. */
    method ResetPlayerPosition()
      modifies this`player
      ensures player == Respawned(old(player))
      ensures player.x == START_X && player.y == START_Y && player.velocityY == 0.0
      ensures !player.isJumping && !player.isClimbing
    {
      player := player.(x := START_X, y := START_Y, velocityY := 0.0, isJumping := false, isClimbing := false);
    }

    /** checkLadderCollision. */
    method CheckLadderCollision() returns (on: bool)
      ensures on <==> OnLadder(PlayerBox(player), ladders)
    {
      for k := 0 to |ladders|
        invariant forall j :: 0 <= j < k ==> !Overlaps(PlayerBox(player), ladders[j])
      {
        if Overlaps(PlayerBox(player), ladders[k]) {
          return true;
        }
      }
      return false;
    }

    /** spawnHazard: the beast throws a hazard at the base speed. */
    method SpawnHazard()
      modifies this`hazards, this`drawn
      ensures hazards == old(hazards) + [Thrown(rand, old(drawn), HAZARD_SPEED)]
      ensures drawn == old(drawn) + 2
    {
      var kind := if (rand(drawn) * 2.0).Floor == 0 then Barrel else Fireball;
      var direction := if rand(drawn + 1) < 0.5 then -1 else 1;
      hazards := hazards + [Hazard(BEAST.x + BEAST.width / 2.0, BEAST.y + BEAST.height, kind, HAZARD_SPEED, direction)];
      drawn := drawn + 2;
    }

    /** The Enter branch of the key handler: a new game on the current level, with
        no score, three lives, the full time, no hazards and five new bonus items. */
    method Restart()
      requires UnitRolls(rand) && level >= 1 && VictimAt(victim)
      modifies this`score, this`lives, this`timer, this`hazards, this`bonusItems, this`player
      modifies this`platforms, this`ladders, this`drawn, this`gameState
      ensures Valid()
      ensures gameState == Playing && score == 0 && lives == 3 && timer == START_TIME
      ensures hazards == [] && bonusItems == NewBonuses(rand, old(drawn), BONUS_COUNT)
      ensures drawn == old(drawn) + 2 * BONUS_COUNT && player == Respawned(old(player))
    {
      score, lives, timer, hazards, bonusItems := 0, 3, START_TIME, [], [];
      ResetPlayerPosition();
      SetupLevel();
      StartGame();
    }

    /** The key handler. Enter on the menu or the game-over screen starts a new game
        on the current level; otherwise the key's flag is set, and the space bar also
        jumps. */
    method KeyDown(key: Key)
      requires Valid()
      modifies this
      ensures Valid()
      ensures key == Enter && old(gameState) != Playing ==>
                && gameState == Playing && score == 0 && lives == 3 && timer == START_TIME
                && level == old(level) && hazards == []
                && bonusItems == NewBonuses(rand, old(drawn), BONUS_COUNT) && |bonusItems| == BONUS_COUNT
                && drawn == old(drawn) + 2 * BONUS_COUNT
                && player == Respawned(old(player)) && keys == old(keys) && victim == old(victim)
      ensures !(key == Enter && old(gameState) != Playing) ==>
                && keys == Pressed(old(keys), key)
                && player == (if key == Space then Jumped(old(player)) else old(player))
                && gameState == old(gameState) && score == old(score) && lives == old(lives)
                && level == old(level) && timer == old(timer) && hazards == old(hazards)
                && bonusItems == old(bonusItems) && drawn == old(drawn) && victim == old(victim)
    {
      if key == Enter && gameState != Playing {
        Restart();
        return;
      }
      keys := Pressed(keys, key);
      if key == Space && !player.isJumping && !player.isClimbing {
        player := player.(velocityY := -JUMP_FORCE, isJumping := true);
      }
    }

    /** The keyup handler: the key's flag is cleared. */
    method KeyUp(key: Key)
      modifies this`keys
      ensures keys == Released(old(keys), key)
    {
      keys := Released(keys, key);
    }

    /** The player part of update: the sideways keys, climbing and gravity. The player
        moves 5 pixels for each sideways key and faces the last one; they climb only
        on a ladder, keep climbing there until they step off it, and fall with
        gravity exactly when not climbing. */
    method MovePlayer()
      modifies this`player
      ensures player.x == old(player.x) - (if keys.left then PLAYER_SPEED else 0.0)
                                        + (if keys.right then PLAYER_SPEED else 0.0)
      ensures player.direction == (if keys.right then Right else if keys.left then Left else old(player.direction))
      ensures player.isClimbing <==>
                OnLadder(Box(player.x, old(player.y), PLAYER_WIDTH, PLAYER_HEIGHT), ladders) && (old(player.isClimbing) || keys.up || keys.down)
      ensures player.velocityY == old(player.velocityY) + (if player.isClimbing then 0.0 else GRAVITY)
      ensures player.isJumping == old(player.isJumping)
    {
      var p := player;
      if keys.left {
        p := p.(x := p.x - PLAYER_SPEED, direction := Left);
      }
      if keys.right {
        p := p.(x := p.x + PLAYER_SPEED, direction := Right);
      }
      player := p;
      var onLadder := CheckLadderCollision();
      if onLadder {
        if keys.up {
          p := p.(y := p.y - PLAYER_SPEED, isClimbing := true);
        }
        if keys.down {
          p := p.(y := p.y + PLAYER_SPEED, isClimbing := true);
        }
      } else {
        p := p.(isClimbing := false);
      }
      if !p.isClimbing {
        p := p.(velocityY := p.velocityY + GRAVITY);
        p := p.(y := p.y + p.velocityY);
      }
      player := p;
    }

    /** The platform loop of update. */
    method LandPlayer()
      modifies this`player
      ensures player == PlayerLanded(platforms, old(player))
    {
      for k := 0 to |platforms|
        invariant PlayerLanded(platforms, old(player)) == PlayerLanded(platforms[k..], player)
      {
        assert platforms[k..][0] == platforms[k] && platforms[k..][1..] == platforms[k + 1..];
        if Overlaps(PlayerBox(player), platforms[k]) {
          if player.velocityY > 0.0 {
            player := player.(y := platforms[k].y - PLAYER_HEIGHT, velocityY := 0.0, isJumping := false);
          }
        }
      }
    }

    /** The spawn roll of update: with a roll under 0.02 the beast throws a hazard. */
    method RollForHazard()
      modifies this`hazards, this`drawn
      ensures hazards == old(hazards) + Spawned(rand, old(drawn))
      ensures drawn == old(drawn) + RollsFor(Spawned(rand, old(drawn)))
    {
      var roll := rand(drawn);
      drawn := drawn + 1;
      if roll < HAZARD_FREQUENCY {
        SpawnHazard();
      } else {
        assert hazards == old(hazards) + [];
      }
    }

    /** The hazard part of update: with a roll under 0.02 the beast throws a hazard,
        then every hazard takes its turn, as HazardRound describes (HazardRoundKeeps and
        HazardRoundHits give the hazards kept and the lives lost). A life goes per hazard
        that touches the player, the game ends when none are left, and the player either
        stays or restarts at the start position. */
    method UpdateHazards()
      requires Tally() && Placed() && gameState == Playing
      modifies this`hazards, this`player, this`lives, this`gameState, this`drawn
      ensures Tally() && Placed()
      ensures var r := HazardRound(platforms, old(hazards) + Spawned(rand, old(drawn)),
                                   Round([], old(player), old(lives), false));
              && hazards == r.kept && player == r.player && lives == r.lives
              && gameState == (if r.over then GameOver else Playing)
      ensures drawn == old(drawn) + RollsFor(Spawned(rand, old(drawn)))
      ensures old(lives) - |old(hazards)| - 1 <= lives <= old(lives)
      ensures gameState == GameOver <==> lives <= 0
      ensures player == old(player) || player == Respawned(old(player))
    {
      RollForHazard();
      var r := RunHazards(platforms, hazards, player, lives);
      hazards, player, lives := r.kept, r.player, r.lives;
      if r.over {
        gameState := GameOver;
      }
    }

    /** The bonus part of update: the score grows by 300 for every item that becomes
        collected. */
    method CheckBonusItems()
      requires Tally() && Placed()
      modifies this`bonusItems, this`score
      ensures Tally() && Placed()
      ensures bonusItems == Collected(player, old(bonusItems))
      ensures score == old(score) + BONUS_SCORE * (Waiting(old(bonusItems)) - Waiting(bonusItems))
      ensures score >= old(score)
    {
      var cs, gained := CollectBonuses(player, bonusItems);
      CollectedAt(player, bonusItems);
      CollectedWaiting(player, bonusItems);
      bonusItems, score := cs, score + gained;
    }

    /** The timer part of update: while playing a frame's time goes, and the game ends
        when the timer reaches zero. */
    method CountDown()
      requires Tally()
      modifies this`timer, this`gameState
      ensures Tally()
      ensures old(gameState) == Playing ==>
                timer == old(timer) - FRAME_TIME && (gameState == GameOver <==> timer <= 0.0)
      ensures old(gameState) != Playing ==> timer == old(timer) && gameState == old(gameState)
    {
      if gameState == Playing {
        timer := timer - FRAME_TIME;
        if timer <= 0.0 {
          gameState := GameOver;
        }
      }
    }

    /** The victim part of resetLevel: the victim moves to a new x in [600, 700), at
        y 150. */
    method MoveVictim()
      requires UnitRolls(rand) && Placed()
      modifies this`victim, this`drawn
      ensures Placed()
      ensures victim == old(victim).(x := VictimX(rand(old(drawn))), y := 150.0)
      ensures drawn == old(drawn) + 1
    {
      victim := victim.(x := 600.0 + rand(drawn) * 100.0, y := 150.0);
      drawn := drawn + 1;
    }

    /** The hazard part of resetLevel: with a roll under 0.02 and 0.01 more per level
        the beast throws a hazard, and every hazard gets the level's speed, 5 and 1
        more per level. */
    method ThrowFirstHazard()
      requires Placed() && hazards == []
      modifies this`hazards, this`drawn
      ensures Placed()
      ensures hazards == FirstHazards(rand, old(drawn), level)
      ensures drawn == old(drawn) + RollsFor(hazards)
    {
      var chance := rand(drawn);
      drawn := drawn + 1;
      if chance < 0.02 + level as real * 0.01 {
        SpawnHazard();
        assert hazards == [Thrown(rand, old(drawn) + 1, HAZARD_SPEED)];
      }
      ghost var thrown := hazards;
      for k := 0 to |hazards|
        modifies this`hazards
        invariant |hazards| == |thrown|
        invariant forall j :: 0 <= j < k ==> hazards[j] == thrown[j].(speed := HAZARD_SPEED + level as real)
        invariant forall j :: k <= j < |hazards| ==> hazards[j] == thrown[j]
      {
        hazards := hazards[k := hazards[k].(speed := HAZARD_SPEED + level as real)];
      }
      if thrown != [] {
        assert hazards == [Thrown(rand, old(drawn) + 1, HAZARD_SPEED + level as real)];
      }
    }

    /** resetLevel: the player restarts, the timer gets the level's time, the hazards
        and bonus items go, the victim moves, the beast may throw a first hazard, and
        setupLevel runs. */
    method ResetLevel()
      requires UnitRolls(rand) && Placed()
      modifies this`player, this`timer, this`hazards, this`bonusItems, this`victim, this`drawn
      modifies this`platforms, this`ladders
      ensures Layout() && Placed()
      ensures player == Respawned(old(player))
      ensures timer == LevelTime(level) && timer >= MIN_TIME
      ensures victim == old(victim).(x := VictimX(rand(old(drawn))), y := 150.0)
      ensures hazards == FirstHazards(rand, old(drawn) + 1, level)
      ensures bonusItems == NewBonuses(rand, old(drawn) + 1 + RollsFor(hazards), BONUS_COUNT)
      ensures drawn == old(drawn) + 1 + RollsFor(hazards) + 2 * BONUS_COUNT
    {
      ResetPlayerPosition();
      timer := LevelTime(level);
      hazards, bonusItems := [], [];
      MoveVictim();
      ThrowFirstHazard();
      SetupLevel();
    }

    /** The win condition of update: reaching the victim scores the rescue, and the
        next level starts. */
    method CheckWinCondition()
      requires Valid()
      modifies this`score, this`level, this`player, this`timer, this`hazards, this`bonusItems
      modifies this`victim, this`drawn, this`platforms, this`ladders
      ensures Valid()
      ensures Overlaps(PlayerBox(old(player)), old(victim)) ==>
                && score == old(score) + RescueScore(old(timer)) && level == old(level) + 1
                && timer == LevelTime(level) && player == Respawned(old(player))
      ensures !Overlaps(PlayerBox(old(player)), old(victim)) ==> unchanged(this)
      ensures score >= old(score) && lives == old(lives) && gameState == old(gameState)
    {
      if Overlaps(PlayerBox(player), victim) {
        score := score + RescueScore(timer);
        level := level + 1;
        ResetLevel();
      }
    }

    /** The player part of update: movement, climbing and gravity, then the platform
        loop. The player moves 5 pixels for each sideways key, and landing never moves
        them sideways. */
    method UpdatePlayer()
      modifies this`player
      ensures player.x == old(player.x) - (if keys.left then PLAYER_SPEED else 0.0)
                                        + (if keys.right then PLAYER_SPEED else 0.0)
      ensures player.direction == (if keys.right then Right else if keys.left then Left else old(player.direction))
    {
      MovePlayer();
      LandPlayer();
    }

    /** The moving part of update: the player, the hazards and the bonus items. The
        game is still being played unless a hazard took the last life; the score does
        not fall and the lives do not rise. */
    method MoveWorld()
      requires Settled() && gameState == Playing
      modifies this`player, this`hazards, this`lives, this`gameState, this`drawn, this`bonusItems, this`score
      ensures Settled()
      ensures gameState == Playing || gameState == GameOver
      ensures score >= old(score) && lives <= old(lives)
    {
      UpdatePlayer();
      UpdateHazards();
      CheckBonusItems();
    }

    /** The end of update: the player is kept inside the canvas sideways, the timer
        runs, and the win condition is checked. */
    method EndFrame()
      requires Settled()
      modifies this`player, this`timer, this`gameState, this`score, this`level, this`hazards
      modifies this`bonusItems, this`victim, this`drawn, this`platforms, this`ladders
      ensures Valid()
      ensures old(gameState) == Playing ==> (gameState == GameOver <==> old(timer) <= FRAME_TIME)
      ensures old(gameState) != Playing ==> gameState == old(gameState)
      ensures score >= old(score) && level >= old(level)
    {
      player := player.(x := Max(0.0, Min(WIDTH - PLAYER_WIDTH, player.x)));
      CountDown();
      CheckWinCondition();
    }

    /** One frame of the game. Nothing happens unless the game is being played; the
        player ends the frame inside the canvas sideways, the score and the level
        never fall, the lives never rise, and a game whose timer is within a frame of
        zero is over. */
    method Update()
      requires Valid()
      modifies this
      ensures Valid()
      ensures old(gameState) != Playing ==> unchanged(this)
      ensures gameState == Playing ==> old(gameState) == Playing
      ensures old(gameState) == Playing && old(timer) <= FRAME_TIME ==> gameState == GameOver
      ensures score >= old(score) && level >= old(level) && lives <= old(lives)
    {
      if gameState != Playing {
        return;
      }
      MoveWorld();
      EndFrame();
    }
  }
}
