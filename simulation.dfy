/** The game state of `DinoGame` and its simulation tick: time, the
    difficulty multiplier, the score, the scrolling floor, the two spawn
    countdowns, the obstacle and coin lists, and the game-over flag. */
module Simulation {
  import opened Geometry
  import opened Entities

  const FRAME_RATE: real := 60.0
  const MIN_OBSTACLE_CLEARANCE: real := 300.0
  const MAX_OBSTACLE_CLEARANCE: real := 800.0
  const MIN_COIN_CLEARANCE: real := 800.0
  const MAX_COIN_CLEARANCE: real := 2400.0
  const INITIAL_COIN_CLEARANCE: real := 240.0
  const COIN_SCORE: int := 1000
  const COIN_BOOST: real := 1.05

  // ---------------------------------------------------------------------
  // Sequences

  /** No element occurs twice (every entity in a list is its own object). */
  predicate Distinct<T(==)>(s: seq<T>) {
    forall i, j :: 0 <= i < j < |s| ==> s[i] != s[j]
  }

  lemma AppendAssoc<T>(a: seq<T>, b: seq<T>, c: seq<T>)
    ensures a + b + c == a + (b + c)
  {
  }

  /** a is b with some elements left out, the rest in their original order. */
  predicate IsSubsequence<T(==)>(a: seq<T>, b: seq<T>)
    decreases |b|
  {
    if b == [] then a == []
    else (a != [] && a[0] == b[0] && IsSubsequence(a[1..], b[1..])) || IsSubsequence(a, b[1..])
  }

  lemma {:induction false} SubsequenceMembers<T>(a: seq<T>, b: seq<T>)
    requires IsSubsequence(a, b)
    ensures forall x :: x in a ==> x in b
    decreases |b|
  {
    if b != [] {
      if a != [] && a[0] == b[0] && IsSubsequence(a[1..], b[1..]) {
        SubsequenceMembers(a[1..], b[1..]);
        assert forall x :: x in a ==> x == a[0] || x in a[1..];
      } else {
        SubsequenceMembers(a, b[1..]);
      }
    }
  }

  /** Leaving elements out of a list without repetitions gives a list without repetitions. */
  lemma {:induction false} SubsequenceDistinct<T>(a: seq<T>, b: seq<T>)
    requires IsSubsequence(a, b) && Distinct(b)
    ensures Distinct(a)
    decreases |b|
  {
    if b != [] {
      assert Distinct(b[1..]) by {
        forall i, j | 0 <= i < j < |b[1..]| ensures b[1..][i] != b[1..][j] {
          assert b[1..][i] == b[i + 1] && b[1..][j] == b[j + 1];
        }
      }
      if a != [] && a[0] == b[0] && IsSubsequence(a[1..], b[1..]) {
        SubsequenceDistinct(a[1..], b[1..]);
        SubsequenceMembers(a[1..], b[1..]);
        assert b[0] !in b[1..];
        forall i, j | 0 <= i < j < |a| ensures a[i] != a[j] {
          if i == 0 {
            assert a[j] == a[1..][j - 1];
          } else {
            assert a[i] == a[1..][i - 1] && a[j] == a[1..][j - 1];
          }
        }
      } else {
        SubsequenceDistinct(a, b[1..]);
      }
    }
  }

  // ---------------------------------------------------------------------
  // The collision pass, as a function of the lists

  /** `coins.get(i).collide(player)`. */
  predicate HitsPlayer(c: Coin, p: Bounds)
    reads c
  {
    Collide(c.Hitbox(), p)
  }

  /** The coin collides with some obstacle (the inner loop of the coin pass). */
  predicate HitsObstacle(c: Coin, obs: seq<Obstacle>)
    reads c, obs
  {
    exists j :: 0 <= j < |obs| && Collide(c.Hitbox(), obs[j].Hitbox())
  }

  /** Some obstacle collides with the player (`player.collide(obstacle)`). */
  predicate PlayerHitsAny(p: Bounds, obs: seq<Obstacle>)
    reads obs
  {
    exists j :: 0 <= j < |obs| && Collide(p, obs[j].Hitbox())
  }

  /** What the coin pass decides about one coin when it looks at it: the
      player test comes first, the obstacle test second. */
  datatype Verdict = Collected | Burnt | Clear

  function Classify(c: Coin, obs: seq<Obstacle>, p: Bounds): Verdict
    reads c, obs
  {
    if HitsPlayer(c, p) then Collected else if HitsObstacle(c, obs) then Burnt else Clear
  }

  /** The verdict on every coin of the list, index by index. */
  function Verdicts(cs: seq<Coin>, obs: seq<Obstacle>, p: Bounds): (vs: seq<Verdict>)
    reads cs, obs
    ensures |vs| == |cs|
  {
    if cs == [] then [] else [Classify(cs[0], obs, p)] + Verdicts(cs[1..], obs, p)
  }

  /** The verdict at index k is the verdict on the coin at index k. */
  lemma {:induction false} VerdictAt(cs: seq<Coin>, obs: seq<Obstacle>, p: Bounds, k: int)
    requires 0 <= k < |cs|
    ensures Verdicts(cs, obs, p)[k] == Classify(cs[k], obs, p)
  {
    if k > 0 {
      VerdictAt(cs[1..], obs, p, k - 1);
    }
  }

  /** The coin list after the coin pass, and whether a coin was picked up. */
  datatype CoinOutcome = CoinOutcome(kept: seq<Coin>, picked: bool)

  /** The coin pass over a list whose verdicts are known. The scan runs from
      the last coin to the first, so the head of a list is looked at only if
      no coin after it was picked up: a coin the player touches is taken and
      ends the scan, a coin that touches an obstacle is dropped, any other
      coin is kept. */
  function Scan(cs: seq<Coin>, vs: seq<Verdict>): (r: CoinOutcome)
    requires |vs| == |cs|
    ensures |r.kept| + (if r.picked then 1 else 0) <= |cs|
  {
    if cs == [] then CoinOutcome([], false)
    else
      var rest := Scan(cs[1..], vs[1..]);
      if rest.picked then CoinOutcome([cs[0]] + rest.kept, true)
      else if vs[0] == Collected then CoinOutcome(rest.kept, true)
      else CoinOutcome((if vs[0] == Burnt then [] else [cs[0]]) + rest.kept, false)
  }

  /** The coin pass of `update_collision`. */
  function CoinPass(cs: seq<Coin>, obs: seq<Obstacle>, p: Bounds): (r: CoinOutcome)
    reads cs, obs
    ensures |r.kept| + (if r.picked then 1 else 0) <= |cs|
  {
    Scan(cs, Verdicts(cs, obs, p))
  }

  /** The coins whose verdict is not Burnt, in order. */
  function Survivors(cs: seq<Coin>, vs: seq<Verdict>): seq<Coin>
    requires |vs| == |cs|
  {
    if cs == [] then []
    else (if vs[0] == Burnt then [] else [cs[0]]) + Survivors(cs[1..], vs[1..])
  }

  /** The scan picks up a coin exactly when some verdict is Collected; when
      it picks none, it drops exactly the Burnt coins. */
  lemma {:induction false} ScanPicked(cs: seq<Coin>, vs: seq<Verdict>)
    requires |vs| == |cs|
    ensures Scan(cs, vs).picked <==> exists k :: 0 <= k < |cs| && vs[k] == Collected
    ensures !Scan(cs, vs).picked ==> Scan(cs, vs).kept == Survivors(cs, vs)
  {
    if cs != [] {
      var t, ws := cs[1..], vs[1..];
      ScanPicked(t, ws);
      if Scan(t, ws).picked {
        var k' :| 0 <= k' < |ws| && ws[k'] == Collected;
        assert vs[k' + 1] == Collected;
      } else if vs[0] != Collected {
        forall k | 0 <= k < |cs| ensures vs[k] != Collected {
          if k > 0 { assert vs[k] == ws[k - 1]; }
        }
      }
    }
  }

  /** When k is the last Collected coin, the scan picks it up: every coin
      before it stays and the coins after it lose the Burnt ones. */
  lemma {:induction false} ScanLastCollected(cs: seq<Coin>, vs: seq<Verdict>, k: int)
    requires |vs| == |cs| && 0 <= k < |cs| && vs[k] == Collected
    requires forall m :: k < m < |cs| ==> vs[m] != Collected
    ensures Scan(cs, vs) == CoinOutcome(cs[..k] + Survivors(cs[k + 1..], vs[k + 1..]), true)
  {
    var t, ws := cs[1..], vs[1..];
    if k == 0 {
      ScanPicked(t, ws);
      assert forall m :: 0 <= m < |ws| ==> ws[m] == vs[m + 1];
      assert cs[..0] + Survivors(t, ws) == Survivors(t, ws);
    } else {
      ScanLastCollected(t, ws, k - 1);
      assert cs[..k] == [cs[0]] + t[..k - 1];
      assert cs[k + 1..] == t[k..] && vs[k + 1..] == ws[k..];
    }
  }

  /** The scan keeps the surviving coins in their original order. */
  lemma {:induction false} ScanKeepsOrder(cs: seq<Coin>, vs: seq<Verdict>)
    requires |vs| == |cs|
    ensures IsSubsequence(Scan(cs, vs).kept, cs)
  {
    if cs != [] {
      ScanKeepsOrder(cs[1..], vs[1..]);
      var rest := Scan(cs[1..], vs[1..]);
      var out := Scan(cs, vs);
      if out.kept == [cs[0]] + rest.kept {
        assert out.kept[1..] == rest.kept;
      } else {
        assert out.kept == rest.kept;
      }
    }
  }

  /** The scan adds nothing, and every Clear coin survives it. */
  lemma {:induction false} ScanRemovesOnlyHits(cs: seq<Coin>, vs: seq<Verdict>)
    requires |vs| == |cs|
    ensures multiset(Scan(cs, vs).kept) <= multiset(cs)
    ensures forall k :: 0 <= k < |cs| && vs[k] == Clear ==> cs[k] in Scan(cs, vs).kept
  {
    if cs != [] {
      var t, ws := cs[1..], vs[1..];
      ScanRemovesOnlyHits(t, ws);
      assert cs == [cs[0]] + t;
      var rest := Scan(t, ws);
      var out := Scan(cs, vs);
      assert multiset(cs) == multiset{cs[0]} + multiset(t);
      assert out.kept == [cs[0]] + rest.kept || out.kept == rest.kept;
      assert vs[0] == Clear ==> out.kept == [cs[0]] + rest.kept;
      forall k | 0 < k < |cs| && vs[k] == Clear ensures cs[k] in out.kept {
        assert cs[k] == t[k - 1] && ws[k - 1] == Clear;
      }
    }
  }

  /** The coin pass picks up a coin exactly when the player touches one. */
  lemma CoinPassPicksIff(cs: seq<Coin>, obs: seq<Obstacle>, p: Bounds)
    ensures CoinPass(cs, obs, p).picked <==> exists k :: 0 <= k < |cs| && HitsPlayer(cs[k], p)
  {
    var vs := Verdicts(cs, obs, p);
    ScanPicked(cs, vs);
    if CoinPass(cs, obs, p).picked {
      var k :| 0 <= k < |cs| && vs[k] == Collected;
      VerdictAt(cs, obs, p, k);
    } else {
      forall k | 0 <= k < |cs| ensures !HitsPlayer(cs[k], p) {
        VerdictAt(cs, obs, p, k);
      }
    }
  }

  /** The coin pass adds no coin, and a coin that touches neither the player
      nor an obstacle survives it. */
  lemma CoinPassRemovesOnlyHits(cs: seq<Coin>, obs: seq<Obstacle>, p: Bounds)
    ensures multiset(CoinPass(cs, obs, p).kept) <= multiset(cs)
    ensures forall k :: 0 <= k < |cs| && !HitsPlayer(cs[k], p) && !HitsObstacle(cs[k], obs) ==>
      cs[k] in CoinPass(cs, obs, p).kept
  {
    ScanRemovesOnlyHits(cs, Verdicts(cs, obs, p));
    forall k | 0 <= k < |cs| {
      VerdictAt(cs, obs, p, k);
    }
  }

  /** The pass never duplicates a coin: a list without repetitions stays so. */
  lemma CollectedDistinct(cs: seq<Coin>, vs: seq<Verdict>)
    requires |vs| == |cs| && Distinct(cs)
    ensures Distinct(Scan(cs, vs).kept)
  {
    ScanKeepsOrder(cs, vs);
    SubsequenceDistinct(Scan(cs, vs).kept, cs);
  }

  /** Once a coin after `pre` has been picked up, the coins of `pre` are never looked at. */
  lemma {:induction false} PickedLeavesPrefix(pre: seq<Coin>, s: seq<Coin>, us: seq<Verdict>, ws: seq<Verdict>)
    requires |us| == |pre| && |ws| == |s| && Scan(s, ws).picked
    ensures Scan(pre + s, us + ws) == CoinOutcome(pre + Scan(s, ws).kept, true)
  {
    if pre != [] {
      PickedLeavesPrefix(pre[1..], s, us[1..], ws);
      assert (pre + s)[1..] == pre[1..] + s;
      assert (us + ws)[1..] == us[1..] + ws;
      assert pre + Scan(s, ws).kept == [pre[0]] + (pre[1..] + Scan(s, ws).kept);
    } else {
      assert pre + s == s && us + ws == ws;
    }
  }

  /** The scan step for a coin the player touches, when no later coin was picked up. */
  lemma ScanPicksAt(cs: seq<Coin>, vs: seq<Verdict>, i: int)
    requires |vs| == |cs| && 0 <= i < |cs| && vs[i] == Collected && !Scan(cs[i + 1..], vs[i + 1..]).picked
    ensures Scan(cs, vs) == CoinOutcome(cs[..i] + Scan(cs[i + 1..], vs[i + 1..]).kept, true)
  {
    assert cs[i..][1..] == cs[i + 1..] && vs[i..][1..] == vs[i + 1..];
    assert Scan(cs[i..], vs[i..]) == CoinOutcome(Scan(cs[i + 1..], vs[i + 1..]).kept, true);
    PickedLeavesPrefix(cs[..i], cs[i..], vs[..i], vs[i..]);
    assert cs[..i] + cs[i..] == cs && vs[..i] + vs[i..] == vs;
  }

  /** The scan step for a coin the player does not touch. */
  lemma ScanSkipsAt(cs: seq<Coin>, vs: seq<Verdict>, i: int)
    requires |vs| == |cs| && 0 <= i < |cs| && vs[i] != Collected && !Scan(cs[i + 1..], vs[i + 1..]).picked
    ensures Scan(cs[i..], vs[i..]) ==
      CoinOutcome((if vs[i] == Burnt then [] else [cs[i]]) + Scan(cs[i + 1..], vs[i + 1..]).kept, false)
    ensures cs[..i + 1] == cs[..i] + [cs[i]]
  {
    assert cs[i..][1..] == cs[i + 1..] && vs[i..][1..] == vs[i + 1..];
  }

  // ---------------------------------------------------------------------
  // Scrolling and spawning

  /** `update_floor` for one layer: move left by step, wrapping at WIDTH. */
  function Scroll(x: real, step: real): (r: real)
    ensures 0.0 <= x < WIDTH && 0.0 <= step <= WIDTH ==> 0.0 <= r < WIDTH
    ensures r == x - step || r == x - step + WIDTH
  {
    var moved := x - step;
    if moved < 0.0 then moved + WIDTH else moved
  }

  /** A spawn countdown after one tick, and whether an entity is spawned. */
  datatype Countdown = Countdown(clearance: real, due: bool)

  /** One countdown of `update_spawn`: subtract the step; if that went
      negative, an entity is spawned and the random draw is added (so the
      overshoot carries over into the next interval). */
  function CountDown(clearance: real, step: real, draw: real): (r: Countdown)
    ensures r.due <==> clearance - step < 0.0
    ensures r.clearance - clearance + step == (if r.due then draw else 0.0)
  {
    var left := clearance - step;
    if left < 0.0 then Countdown(left + draw, true) else Countdown(left, false)
  }

  /** A countdown that starts in [0, hi) stays there when the step is no
      larger than the smallest draw: a spawn always puts it back above zero. */
  lemma CountDownInRange(clearance: real, step: real, draw: real, lo: real, hi: real)
    requires 0.0 <= clearance < hi && 0.0 <= step <= lo && lo <= draw < hi
    ensures 0.0 <= CountDown(clearance, step, draw).clearance < hi
  {
  }

  // ---------------------------------------------------------------------
  // The game

  /** `DinoGame`'s game state. */
  class Game {
    var t: real
    var speed: real
    var score: int
    var groundX: real
    var mtnX: real
    var obstacleClearance: real
    var coinClearance: real
    var gameOver: bool
    const player: Player
    var obstacles: seq<Obstacle>
    var coins: seq<Coin>

    /** What every operation keeps. */
    ghost predicate Valid()
      reads this, player
    {
      player.Valid() && speed >= 1.0 && score >= 0 && Distinct(obstacles) && Distinct(coins)
    }

    /** The state `restart` produces (the floor offsets and the sprite apart). */
    ghost predicate Restarted()
      reads this, player
    {
      t == 0.0 && speed == 1.0 && score == 0 &&
      obstacles == [] && obstacleClearance == 0.0 &&
      coins == [] && coinClearance == INITIAL_COIN_CLEARANCE &&
      player.Vertical() == Grounded && !gameOver
    }

    /** The field initialisers of `DinoGame`. */
    constructor ()
      ensures Valid() && Restarted() && fresh(player)
      ensures groundX == 0.0 && mtnX == 0.0 && player.Frame() == Sprite(0.0, 0)
    {
      t, speed, score := 0.0, 1.0, 0;
      groundX, mtnX := 0.0, 0.0;
      obstacleClearance, coinClearance := 0.0, INITIAL_COIN_CLEARANCE;
      gameOver := false;
      player := new Player();
      obstacles, coins := [], [];
    }

    /** `restart`: everything back to the start except the floor offsets
        and the player's sprite. */
    method Restart()
      requires Valid()
      modifies this, player
      ensures Valid() && Restarted()
      ensures groundX == old(groundX) && mtnX == old(mtnX)
      ensures player.Frame() == old(player.Frame())
    {
      t := 0.0;
      speed := 1.0;
      score := 0;
      obstacles := [];
      obstacleClearance := 0.0;
      coins := [];
      coinClearance := INITIAL_COIN_CLEARANCE;
      player.Reset();
      gameOver := false;
    }

    /** `update_floor`: the ground scrolls at the base speed, the mountains
        at a tenth of it, both wrapping at WIDTH. */
    method UpdateFloor(dt: real)
      modifies this`groundX, this`mtnX
      ensures groundX == Scroll(old(groundX), dt * INITIAL_SPEED)
      ensures mtnX == Scroll(old(mtnX), dt * INITIAL_SPEED / 10.0)
    {
      groundX := groundX - dt * INITIAL_SPEED;
      if groundX < 0.0 {
        groundX := groundX + WIDTH;
      }
      mtnX := mtnX - dt * INITIAL_SPEED / 10.0;
      if mtnX < 0.0 {
        mtnX := mtnX + WIDTH;
      }
    }

    /** `update_spawn`: each countdown that runs out appends one new entity
        at the right edge and adds its draw. The draws of the source's random
        generator are parameters: the coin's clearance and height, the
        obstacle's clearance and kind. */
    method UpdateSpawn(dt: real, coinDraw: real, coinY: real, obstacleDraw: real, kind: ObstacleKind)
      requires Valid()
      requires MIN_COIN_CLEARANCE <= coinDraw < MAX_COIN_CLEARANCE
      requires COIN_Y_MIN <= coinY < COIN_Y_MAX
      requires MIN_OBSTACLE_CLEARANCE <= obstacleDraw < MAX_OBSTACLE_CLEARANCE
      modifies this`coinClearance, this`coins, this`obstacleClearance, this`obstacles
      ensures Valid()
      ensures var cc := CountDown(old(coinClearance), dt * INITIAL_SPEED, coinDraw);
        coinClearance == cc.clearance &&
        if cc.due then
          |coins| == |old(coins)| + 1 && coins[..|old(coins)|] == old(coins) &&
          fresh(coins[|old(coins)|]) && coins[|old(coins)|].x == WIDTH && coins[|old(coins)|].y == coinY
        else coins == old(coins)
      ensures var oc := CountDown(old(obstacleClearance), dt * INITIAL_SPEED, obstacleDraw);
        obstacleClearance == oc.clearance &&
        if oc.due then
          |obstacles| == |old(obstacles)| + 1 && obstacles[..|old(obstacles)|] == old(obstacles) &&
          fresh(obstacles[|old(obstacles)|]) && obstacles[|old(obstacles)|].x == WIDTH &&
          obstacles[|old(obstacles)|].kind == kind
        else obstacles == old(obstacles)
    {
      coinClearance := coinClearance - dt * INITIAL_SPEED;
      if coinClearance < 0.0 {
        var c := new Coin(coinY);
        coins := coins + [c];
        coinClearance := coinClearance + coinDraw;
      }
      obstacleClearance := obstacleClearance - dt * INITIAL_SPEED;
      if obstacleClearance < 0.0 {
        var o := new Obstacle(kind);
        obstacles := obstacles + [o];
        obstacleClearance := obstacleClearance + obstacleDraw;
      }
    }

    /** `obstacles.forEach(obstacle -> obstacle.update(dt))`. */
    method UpdateObstacles(dt: real)
      requires Distinct(obstacles)
      modifies obstacles
      ensures forall k :: 0 <= k < |obstacles| ==> obstacles[k].x == old(obstacles[k].x) - dt * INITIAL_SPEED
    {
      var k := 0;
      while k < |obstacles|
        invariant 0 <= k <= |obstacles|
        invariant forall m :: 0 <= m < k ==> obstacles[m].x == old(obstacles[m].x) - dt * INITIAL_SPEED
        invariant forall m :: k <= m < |obstacles| ==> obstacles[m].x == old(obstacles[m].x)
      {
        obstacles[k].Update(dt);
        k := k + 1;
      }
    }

    /** `coins.forEach(coin -> coin.update(dt))`. */
    method UpdateCoins(dt: real)
      requires Distinct(coins)
      modifies coins
      ensures forall k :: 0 <= k < |coins| ==> coins[k].x == old(coins[k].x) - dt * INITIAL_SPEED
    {
      var k := 0;
      while k < |coins|
        invariant 0 <= k <= |coins|
        invariant forall m :: 0 <= m < k ==> coins[m].x == old(coins[m].x) - dt * INITIAL_SPEED
        invariant forall m :: k <= m < |coins| ==> coins[m].x == old(coins[m].x)
      {
        coins[k].Update(dt);
        k := k + 1;
      }
    }

    /** `update`: one frame of the running game. The frame's time step is
        the speed over the frame rate; the floor scrolls, entities are
        spawned, every entity moves, then the collisions are resolved. */
    method Update(coinDraw: real, coinY: real, obstacleDraw: real, kind: ObstacleKind)
      requires Valid()
      requires MIN_COIN_CLEARANCE <= coinDraw < MAX_COIN_CLEARANCE
      requires COIN_Y_MIN <= coinY < COIN_Y_MAX
      requires MIN_OBSTACLE_CLEARANCE <= obstacleDraw < MAX_OBSTACLE_CLEARANCE
      modifies this, player, obstacles, coins
      ensures Valid()
      ensures t == old(t) + old(speed) / FRAME_RATE
      ensures groundX == Scroll(old(groundX), old(speed) / FRAME_RATE * INITIAL_SPEED)
      ensures mtnX == Scroll(old(mtnX), old(speed) / FRAME_RATE * INITIAL_SPEED / 10.0)
      ensures coinClearance == CountDown(old(coinClearance), old(speed) / FRAME_RATE * INITIAL_SPEED, coinDraw).clearance
      ensures obstacleClearance == CountDown(old(obstacleClearance), old(speed) / FRAME_RATE * INITIAL_SPEED, obstacleDraw).clearance
      ensures player.Vertical() == Fall(old(player.Vertical()), old(speed) / FRAME_RATE)
      ensures player.Frame() == Animate(old(player.Frame()), old(speed) / FRAME_RATE)
      ensures (score == old(score) && speed == old(speed)) ||
              (score == old(score) + COIN_SCORE && speed == old(speed) * COIN_BOOST)
      ensures gameOver == (old(gameOver) || PlayerHitsAny(player.Hitbox(), obstacles))
      ensures |obstacles| == |old(obstacles)| +
        (if CountDown(old(obstacleClearance), old(speed) / FRAME_RATE * INITIAL_SPEED, obstacleDraw).due then 1 else 0)
      ensures obstacles[..|old(obstacles)|] == old(obstacles)
      ensures |obstacles| > |old(obstacles)| ==>
        fresh(obstacles[|old(obstacles)|]) && obstacles[|old(obstacles)|].kind == kind
    {
      var dt := speed / FRAME_RATE;
      Advance(dt, coinDraw, coinY, obstacleDraw, kind);
      ghost var scalars := (t, groundX, mtnX, coinClearance, obstacleClearance, score, speed, gameOver);
      ghost var spawned := obstacles;
      // update entities
      UpdateEntities(dt);
      assert scalars == (t, groundX, mtnX, coinClearance, obstacleClearance, score, speed, gameOver);
      assert obstacles == spawned;
      ghost var motion := (player.Vertical(), player.Frame());
      // collide entities
      UpdateCollision();
      assert motion == (player.Vertical(), player.Frame());
      assert obstacles == spawned;
    }

    /** The first steps of `update`: the time advances by dt, the floor
        scrolls and the entities that are due are spawned. */
    method Advance(dt: real, coinDraw: real, coinY: real, obstacleDraw: real, kind: ObstacleKind)
      requires Valid()
      requires MIN_COIN_CLEARANCE <= coinDraw < MAX_COIN_CLEARANCE
      requires COIN_Y_MIN <= coinY < COIN_Y_MAX
      requires MIN_OBSTACLE_CLEARANCE <= obstacleDraw < MAX_OBSTACLE_CLEARANCE
      modifies this`t, this`groundX, this`mtnX, this`coinClearance, this`coins, this`obstacleClearance, this`obstacles
      ensures Valid()
      ensures t == old(t) + dt
      ensures groundX == Scroll(old(groundX), dt * INITIAL_SPEED)
      ensures mtnX == Scroll(old(mtnX), dt * INITIAL_SPEED / 10.0)
      ensures coinClearance == CountDown(old(coinClearance), dt * INITIAL_SPEED, coinDraw).clearance
      ensures obstacleClearance == CountDown(old(obstacleClearance), dt * INITIAL_SPEED, obstacleDraw).clearance
      ensures |obstacles| == |old(obstacles)| +
        (if CountDown(old(obstacleClearance), dt * INITIAL_SPEED, obstacleDraw).due then 1 else 0)
      ensures obstacles[..|old(obstacles)|] == old(obstacles)
      ensures |obstacles| > |old(obstacles)| ==>
        fresh(obstacles[|old(obstacles)|]) && obstacles[|old(obstacles)|].kind == kind
      ensures |old(coins)| <= |coins| <= |old(coins)| + 1 && coins[..|old(coins)|] == old(coins)
      ensures |coins| > |old(coins)| ==> fresh(coins[|old(coins)|])
    {
      // update time
      t := t + dt;
      // move floor
      UpdateFloor(dt);
      // spawn entities
      UpdateSpawn(dt, coinDraw, coinY, obstacleDraw, kind);
    }

    /** The entity step of `update`: the player, every obstacle and every
        coin move by one time step. */
    method UpdateEntities(dt: real)
      requires Valid()
      modifies player, obstacles, coins
      ensures Valid()
      ensures player.Vertical() == Fall(old(player.Vertical()), dt)
      ensures player.Frame() == Animate(old(player.Frame()), dt)
      ensures forall k :: 0 <= k < |obstacles| ==> obstacles[k].x == old(obstacles[k].x) - dt * INITIAL_SPEED
      ensures forall k :: 0 <= k < |coins| ==> coins[k].x == old(coins[k].x) - dt * INITIAL_SPEED
    {
      player.Update(dt);
      UpdateObstacles(dt);
      UpdateCoins(dt);
    }

    /** The animation timer's handler (drawing apart): the game advances by
        one frame unless it is over, and a finished game does not change. */
    method Tick(coinDraw: real, coinY: real, obstacleDraw: real, kind: ObstacleKind)
      requires Valid()
      requires MIN_COIN_CLEARANCE <= coinDraw < MAX_COIN_CLEARANCE
      requires COIN_Y_MIN <= coinY < COIN_Y_MAX
      requires MIN_OBSTACLE_CLEARANCE <= obstacleDraw < MAX_OBSTACLE_CLEARANCE
      modifies this, player, obstacles, coins
      ensures Valid()
      ensures old(gameOver) ==> unchanged(this, player) && unchanged(obstacles) && unchanged(coins)
      ensures !old(gameOver) ==> t == old(t) + old(speed) / FRAME_RATE
      ensures !old(gameOver) ==> player.Vertical() == Fall(old(player.Vertical()), old(speed) / FRAME_RATE)
      ensures (score == old(score) && speed == old(speed)) ||
              (score == old(score) + COIN_SCORE && speed == old(speed) * COIN_BOOST)
      ensures gameOver == (old(gameOver) || PlayerHitsAny(player.Hitbox(), obstacles))
    {
      if !gameOver {
        Update(coinDraw, coinY, obstacleDraw, kind);
      }
    }

    /** The space key: a jump while the game runs, a restart once it is over. */
    method OnSpace()
      requires Valid()
      modifies this, player
      ensures Valid()
      ensures old(gameOver) ==> Restarted() && groundX == old(groundX) && mtnX == old(mtnX)
      ensures !old(gameOver) ==>
        unchanged(this) && player.Vertical() == Launch(old(player.Vertical()))
      ensures player.Frame() == old(player.Frame())
    {
      if !gameOver {
        player.Jump();
      } else {
        Restart();
      }
    }

    /** `update_collision`: the coin pass, then the obstacle check. */
    method UpdateCollision()
      requires Valid()
      modifies this`coins, this`score, this`speed, this`gameOver
      ensures Valid()
      ensures var out := old(CoinPass(coins, obstacles, player.Hitbox()));
        coins == out.kept &&
        score == old(score) + (if out.picked then COIN_SCORE else 0) &&
        speed == (if out.picked then old(speed) * COIN_BOOST else old(speed))
      ensures gameOver == (old(gameOver) || PlayerHitsAny(player.Hitbox(), obstacles))
      ensures obstacles == old(obstacles)
    {
      CollectCoins();
      CheckObstacleHits();
      assert old(speed) * COIN_BOOST >= old(speed);
    }

    /** The coin half of `update_collision`: scan the coins from the last to
        the first, removing each from the list in place; a coin the player
        touches is collected and ends the whole scan, a coin that touches an
        obstacle is dropped. */
    method CollectCoins()
      requires Distinct(coins)
      modifies this`coins, this`score, this`speed
      ensures Distinct(coins)
      ensures var out := old(CoinPass(coins, obstacles, player.Hitbox()));
        coins == out.kept &&
        score == old(score) + (if out.picked then COIN_SCORE else 0) &&
        speed == (if out.picked then old(speed) * COIN_BOOST else old(speed))
    {
      ghost var cs := coins;
      var p := player.Hitbox();
      ghost var vs := Verdicts(cs, obstacles, p);
      ghost var out := Scan(cs, vs);
      assert out == CoinPass(cs, obstacles, p);
      var list := coins;
      var collected := false;
      var n := |list|;
      // n coins are still to be looked at; the next one is at index n - 1
      while n > 0
        invariant 0 <= n <= |cs| && !collected
        invariant list == cs[..n] + Scan(cs[n..], vs[n..]).kept
        invariant !Scan(cs[n..], vs[n..]).picked
        invariant score == old(score) && speed == old(speed)
      {
        list, collected := VisitCoin(list, n - 1, cs, vs, p);
        if collected {
          score := score + COIN_SCORE;
          speed := speed * COIN_BOOST;
          break;
        }
        n := n - 1;
      }
      if !collected {
        assert cs[0..] == cs && vs[0..] == vs;
      }
      assert list == out.kept && collected == out.picked;
      CollectedDistinct(cs, vs);
      coins := list;
    }

    /** One step of the coin scan, at index i of the list, when no coin
        after i was collected: the coin is collected if the player touches
        it, and otherwise dropped if it touches an obstacle. */
    method VisitCoin(list: seq<Coin>, i: int, ghost cs: seq<Coin>, ghost vs: seq<Verdict>, p: Bounds)
      returns (result: seq<Coin>, collected: bool)
      requires vs == Verdicts(cs, obstacles, p) && 0 <= i < |cs|
      requires !Scan(cs[i + 1..], vs[i + 1..]).picked
      requires list == cs[..i + 1] + Scan(cs[i + 1..], vs[i + 1..]).kept
      ensures collected ==> Scan(cs, vs) == CoinOutcome(result, true)
      ensures !collected ==>
        result == cs[..i] + Scan(cs[i..], vs[i..]).kept && !Scan(cs[i..], vs[i..]).picked
    {
      VerdictAt(cs, obstacles, p, i);
      ghost var rest := Scan(cs[i + 1..], vs[i + 1..]).kept;
      assert list[..i] == cs[..i] && list[i] == cs[i] && list[i + 1..] == rest;
      // despawn the coin the player collected, and stop
      if Collide(list[i].Hitbox(), p) {
        assert vs[i] == Collected;
        result := list[..i] + list[i + 1..];
        ScanPicksAt(cs, vs, i);
        return result, true;
      }
      // despawn a coin that collided with an obstacle
      assert vs[i] != Collected && (vs[i] == Burnt <==> HitsObstacle(cs[i], obstacles));
      ghost var mid := if vs[i] == Burnt then [] else [cs[i]];
      result := DropIfBurnt(list, i);
      assert result == cs[..i] + mid + rest;
      ScanSkipsAt(cs, vs, i);
      AppendAssoc(cs[..i], mid, rest);
      return result, false;
    }

    /** The inner loop of the coin pass: look for an obstacle the coin at
        index i touches and, on the first one found, remove the coin. */
    method DropIfBurnt(list: seq<Coin>, i: int) returns (result: seq<Coin>)
      requires 0 <= i < |list|
      ensures result == list[..i] + (if HitsObstacle(list[i], obstacles) then [] else [list[i]]) + list[i + 1..]
    {
      assert list[..i] + [list[i]] + list[i + 1..] == list;
      result := list;
      var j := 0;
      while j < |obstacles|
        invariant 0 <= j <= |obstacles|
        invariant forall m :: 0 <= m < j ==> !Collide(list[i].Hitbox(), obstacles[m].Hitbox())
      {
        if Collide(list[i].Hitbox(), obstacles[j].Hitbox()) {
          assert HitsObstacle(list[i], obstacles);
          result := list[..i] + list[i + 1..];
          return;
        }
        j := j + 1;
      }
    }

    /** The obstacle half of `update_collision`: any obstacle that touches the
        player ends the game; the flag is never cleared here. */
    method CheckObstacleHits()
      modifies this`gameOver
      ensures gameOver == (old(gameOver) || PlayerHitsAny(player.Hitbox(), obstacles))
    {
      var k := 0;
      while k < |obstacles|
        invariant 0 <= k <= |obstacles|
        invariant gameOver == (old(gameOver) || exists m :: 0 <= m < k && Collide(player.Hitbox(), obstacles[m].Hitbox()))
      {
        if Collide(player.Hitbox(), obstacles[k].Hitbox()) {
          gameOver := true;
        }
        k := k + 1;
      }
    }
  }
}
