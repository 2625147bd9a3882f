# DinoGame game-state model

A Dafny model of the game logic of `DinoGame`, a side-scrolling runner
written in JavaFX. A dinosaur stands at the left of the screen and jumps
over fires that scroll towards it. It collects coins that float above the
ground and lose their value when they touch a fire. Touching a fire ends
the game, and the space key starts a new one.

The model has three modules:

- `Geometry` (geometry.dfy): the collision tests of `Entity`, which are
  box against box, circle against box and circle against circle, plus the
  dispatch in `collide`. A circle is stored like a box whose width is its
  diameter. `norm2(dx, dy) < r` is written without the square root as
  `0 < r && dx² + dy² < r²`. `NormBelowMatchesRoot` proves this agrees with
  `s < r` for every non-negative square root `s`.
- `Entities` (entities.dfy): the `Player`, `Obstacle` and `Coin` classes,
  with the fields their methods update. The player's jump physics is
  specified by `Launch` and `Fall` on a `Motion` value (height, velocity,
  jumping flag). Its sprite animation is specified by `Animate` on a
  `Sprite` value. The methods are proved against these functions.
  `JumpArc`/`JumpLands` prove that the trapezoidal gravity step follows the
  exact parabola of a jump. A jump therefore stays in the air for two
  seconds of simulated time and lands on the floor at rest on the first
  tick after that.
- `Simulation` (simulation.dfy): the `Game` class, which holds the time,
  speed multiplier, score, floor offsets, spawn countdowns, the obstacle and
  coin lists (`seq` of object references) and the game-over flag. It has
  `Restart`, `Update` and its parts, the timer handler `Tick` and the
  space-key handler `OnSpace`.
  - The coin pass of `update_collision` is specified by `Scan`, a function
    over the coin list and the verdict on each coin (`Collected` if the
    player touches it, else `Burnt` if a fire does, else `Clear`).
    `CollectCoins` runs the source's reverse scan with index-based removal
    from the scanned list and is proved to produce exactly `Scan`'s result.
  - Lemmas about `Scan` show the following. A coin is picked up exactly
    when the player touches one, and at most one is picked up per pass.
    The coins before the picked one are not examined. Only coins that touch
    the player or a fire are removed, and the survivors keep their order.

The source's random draws become parameters of the methods that use them,
and each parameter's range is a precondition: coin clearance in
[800, 2400), coin height in [247, 397), obstacle clearance in [300, 800)
and the obstacle kind.

Two details of the code that are easy to misread:

- `boxBoxCollide` uses strict comparisons to decide that the boxes are
  apart (DinoGame.java:286-287). Boxes whose edges only touch therefore
  collide: the test is the overlap of closed intervals, not of open ones.
  `BoxBoxCollide` states this.
- When the player touches a coin, the `break` at DinoGame.java:129 leaves
  the whole coin loop, not just that coin's obstacle check. Coins before
  the collected one are not tested against the fires on that frame.
  `ScanLastCollected` states this.

## Model

| member | source | states |
|---|---|---|
| Geometry.NormBelowMatchesRoot | src/main/java/com/example/ruth202305final/DinoGame.java:292-294 | the squared comparison is true exactly when `sqrt(dx² + dy²) < r`, for any non-negative root |
| Geometry.BoxBoxCollide | src/main/java/com/example/ruth202305final/DinoGame.java:279-290 | for boxes without negative sides, a hit exactly when the closed x-intervals and the closed y-intervals both overlap (touching counts) |
| Geometry.BoxBoxSymmetric | src/main/java/com/example/ruth202305final/DinoGame.java:279-290 | box against box gives the same answer in either order |
| Geometry.CircleBoxCollide | src/main/java/com/example/ruth202305final/DinoGame.java:260-277 | a circle whose centre is strictly inside the box is always a hit |
| Geometry.CircleBoxSound | src/main/java/com/example/ruth202305final/DinoGame.java:260-277 | a hit implies the centre is closer than the radius to some point of the box |
| Geometry.CircleBoxComplete | src/main/java/com/example/ruth202305final/DinoGame.java:260-277 | a centre closer than the radius to the box is always a hit; with CircleBoxSound, the two slab tests and four corner tests are exactly "distance to the box below the radius" |
| Geometry.CircleCircleCollide | src/main/java/com/example/ruth202305final/DinoGame.java:247-258 | a hit needs a positive sum of radii; two circles with the same centre collide exactly when that sum is positive |
| Geometry.CircleCircleByDistance | src/main/java/com/example/ruth202305final/DinoGame.java:247-258 | for the distance d between the centres, a hit exactly when d is below the sum of the radii (touching circles do not collide) |
| Geometry.Collide | src/main/java/com/example/ruth202305final/DinoGame.java:221-245 | a circle-box pair in either order is tested with the circle first; two circles by the circle test; two boxes without negative sides hit exactly when their closed intervals overlap on both axes |
| Geometry.CircleCircleSymmetric | src/main/java/com/example/ruth202305final/DinoGame.java:247-258 | circle against circle gives the same answer in either order |
| Geometry.CollideSymmetric | src/main/java/com/example/ruth202305final/DinoGame.java:221-258 | `a.collide(b) == b.collide(a)` for every pair of shapes |
| Entities.Launch | src/main/java/com/example/ruth202305final/DinoGame.java:370-375 | a grounded player takes off with velocity 400 at its height; a jumping player is unchanged |
| Entities.LaunchIdempotent | src/main/java/com/example/ruth202305final/DinoGame.java:370-375 | jumping twice is jumping once (no double jump) |
| Entities.Fall | src/main/java/com/example/ruth202305final/DinoGame.java:344-355 | a grounded player does not move; a jumping one never ends below the floor; landing leaves height 0, velocity 0, not jumping; standing on the floor at rest is kept |
| Entities.ArcStep | src/main/java/com/example/ruth202305final/DinoGame.java:344-355 | one trapezoidal step from a point of the jump parabola lands on the parabola dt later, or on the floor |
| Entities.ElapsedIsProduct | src/main/java/com/example/ruth202305final/DinoGame.java:107-108 | the running sum of n ticks of dt is n·dt |
| Entities.JumpArc | src/main/java/com/example/ruth202305final/DinoGame.java:343-355 | after a jump from the floor, while at most 2 s have passed, n ticks leave the player exactly on the parabola `400τ − 200τ²` with velocity `400 − 400τ` |
| Entities.JumpLands | src/main/java/com/example/ruth202305final/DinoGame.java:343-355 | a jump from the floor stays in the air on every tick up to 2 s and lands on the floor, at rest, on the first tick after |
| Entities.JavaRem | src/main/java/com/example/ruth202305final/DinoGame.java:361 | Java's `%` on a non-negative int lies in [0, divisor) |
| Entities.Animate | src/main/java/com/example/ruth202305final/DinoGame.java:357-362 | the frame changes exactly when the accumulated time reaches 0.25, and then to the next of the three frames, (index + 1) mod 3, carrying the overshoot over; otherwise the time just accumulates; the index stays in {0, 1, 2} and the time in [0, 0.25) for steps up to 0.25 |
| Entities.Player.constructor | src/main/java/com/example/ruth202305final/DinoGame.java:298-302 | a new player stands on the floor at rest, on frame 0 |
| Entities.Player.Hitbox | src/main/java/com/example/ruth202305final/DinoGame.java:311-334 | a 90 by 90 box at x = 60 whose bottom is the ground line 457 raised by the jump height |
| Entities.Player.Reset | src/main/java/com/example/ruth202305final/DinoGame.java:336-340 | the player is on the floor at rest, not jumping |
| Entities.Player.Update | src/main/java/com/example/ruth202305final/DinoGame.java:342-363 | the new vertical state is `Fall` of the old and the new frame is `Animate` of the old; the player invariant is kept |
| Entities.Player.Jump | src/main/java/com/example/ruth202305final/DinoGame.java:370-375 | the new vertical state is `Launch` of the old; the player invariant is kept |
| Entities.Obstacle.constructor | src/main/java/com/example/ruth202305final/DinoGame.java:392-395 | a new fire of the drawn kind at the right edge, x = 800 |
| Entities.Obstacle.Hitbox | src/main/java/com/example/ruth202305final/DinoGame.java:397-442 | a box of the kind's positive size at x, standing on the ground line 457 |
| Entities.Obstacle.Update | src/main/java/com/example/ruth202305final/DinoGame.java:444-447 | x decreases by dt·200 |
| Entities.Coin.constructor | src/main/java/com/example/ruth202305final/DinoGame.java:467-470 | a new coin at the right edge, x = 800, at the drawn height |
| Entities.Coin.Hitbox | src/main/java/com/example/ruth202305final/DinoGame.java:472-495 | a circle of radius 15 with top-left corner (x, y) |
| Entities.Coin.Update | src/main/java/com/example/ruth202305final/DinoGame.java:497-500 | x decreases by dt·200 |
| Simulation.Scan | src/main/java/com/example/ruth202305final/DinoGame.java:123-138 | the scan never adds a coin, and a pickup removes at least one |
| Simulation.CoinPass | src/main/java/com/example/ruth202305final/DinoGame.java:123-138 | the coin pass never adds a coin, and a pickup removes at least one |
| Simulation.ScanPicked | src/main/java/com/example/ruth202305final/DinoGame.java:123-138 | the scan picks up a coin exactly when some coin's verdict is Collected; when none is picked up, exactly the Burnt coins are dropped |
| Simulation.ScanLastCollected | src/main/java/com/example/ruth202305final/DinoGame.java:123-138 | the last coin the player touches is the one picked up: every coin before it stays, and after it only the Burnt coins are dropped |
| Simulation.PickedLeavesPrefix | src/main/java/com/example/ruth202305final/DinoGame.java:125-130 | once a coin is picked up, no earlier coin is looked at |
| Simulation.ScanKeepsOrder | src/main/java/com/example/ruth202305final/DinoGame.java:123-138 | the surviving coins are a subsequence of the old list |
| Simulation.ScanRemovesOnlyHits | src/main/java/com/example/ruth202305final/DinoGame.java:123-138 | the scan adds no coin, and every Clear coin survives |
| Simulation.CoinPassPicksIff | src/main/java/com/example/ruth202305final/DinoGame.java:123-138 | the coin pass picks up a coin exactly when the player touches some coin |
| Simulation.CoinPassRemovesOnlyHits | src/main/java/com/example/ruth202305final/DinoGame.java:123-138 | the coin pass adds no coin, and a coin touching neither the player nor a fire survives it |
| Simulation.CollectedDistinct | src/main/java/com/example/ruth202305final/DinoGame.java:123-138 | a coin list without repetitions stays without repetitions |
| Simulation.Scroll | src/main/java/com/example/ruth202305final/DinoGame.java:163-168 | the offset moves left by the step or wraps by WIDTH, and stays in [0, 800) when it starts there and the step is at most 800 |
| Simulation.CountDown | src/main/java/com/example/ruth202305final/DinoGame.java:148-161 | an entity is due exactly when the countdown minus the step goes negative; the new countdown is the old minus the step, plus the draw only when due |
| Simulation.CountDownInRange | src/main/java/com/example/ruth202305final/DinoGame.java:148-161 | a countdown in [0, max draw) stays there when the step is at most the smallest draw |
| Simulation.Game.constructor | src/main/java/com/example/ruth202305final/DinoGame.java:44-55 | the initial field values are the restarted state with floor offsets 0 |
| Simulation.Game.Restart | src/main/java/com/example/ruth202305final/DinoGame.java:93-103 | t = 0, speed 1, score 0, both lists empty, clearances 0 and 240, player on the floor at rest, not over; floor offsets and sprite untouched |
| Simulation.Game.UpdateFloor | src/main/java/com/example/ruth202305final/DinoGame.java:163-168 | ground and mountains scroll by dt·200 and dt·20, wrapping at WIDTH |
| Simulation.Game.UpdateSpawn | src/main/java/com/example/ruth202305final/DinoGame.java:148-161 | each countdown follows `CountDown`; a due countdown appends exactly one fresh entity at x = 800 with the drawn height or kind, otherwise its list is unchanged |
| Simulation.Game.UpdateObstacles | src/main/java/com/example/ruth202305final/DinoGame.java:115 | every fire moves left by dt·200 |
| Simulation.Game.UpdateCoins | src/main/java/com/example/ruth202305final/DinoGame.java:116 | every coin moves left by dt·200 |
| Simulation.Game.Advance | src/main/java/com/example/ruth202305final/DinoGame.java:106-112 | t grows by dt, the floor scrolls, and each list gains at most one fresh entity at its end |
| Simulation.Game.UpdateEntities | src/main/java/com/example/ruth202305final/DinoGame.java:113-116 | the player follows `Fall` and `Animate`, and every fire and coin moves left by dt·200 |
| Simulation.Game.Update | src/main/java/com/example/ruth202305final/DinoGame.java:105-119 | dt = speed / 60; time, floor, countdowns and player follow their specifications for dt; either score and speed are unchanged, or the score rises by 1000 and the speed is multiplied by 1.05; the game is over exactly when it was or a fire touches the player; the fire list gains one fresh fire of the drawn kind at its end exactly when the obstacle countdown runs out, and is otherwise unchanged |
| Simulation.Game.Tick | src/main/java/com/example/ruth202305final/DinoGame.java:66-71 | a finished game does not change at all; a running one advances its time by speed / 60 and moves the player by `Fall`; either way score and speed are unchanged or rise by 1000 and ×1.05 together, and the game is over exactly when it was or a fire touches the player |
| Simulation.Game.OnSpace | src/main/java/com/example/ruth202305final/DinoGame.java:78-86 | space restarts a finished game, leaving the floor offsets and the sprite frame alone, and makes a running one jump, changing nothing else |
| Simulation.Game.UpdateCollision | src/main/java/com/example/ruth202305final/DinoGame.java:121-146 | the coins become the coin pass's survivors; a pickup adds 1000 to the score and multiplies the speed by 1.05, once; the game is over exactly when it was or a fire touches the player; the fires are unchanged |
| Simulation.Game.CollectCoins | src/main/java/com/example/ruth202305final/DinoGame.java:122-138 | the reverse scan with index-based removal from the scanned list and `break` yields exactly `CoinPass`'s survivors, score and speed |
| Simulation.Game.VisitCoin | src/main/java/com/example/ruth202305final/DinoGame.java:124-137 | one step of the scan: the coin is picked up if the player touches it, and the pass is then finished; otherwise the scan extends to this coin |
| Simulation.Game.DropIfBurnt | src/main/java/com/example/ruth202305final/DinoGame.java:131-137 | the coin at index i is removed exactly when some fire touches it |
| Simulation.Game.CheckObstacleHits | src/main/java/com/example/ruth202305final/DinoGame.java:139-144 | the game is over exactly when it was already or some fire touches the player |

## Left out

- The JavaFX window, scene, canvas and animation timer, all `draw` methods,
  and image and font loading. They are rendering and foreign library calls.
  The timer handler and the space-key handler keep only their game-state
  logic (`Tick`, `OnSpace`).
- The score display `score + Math.round(t * 50)`, which is rendering and
  floating-point rounding.
- `RandomGenerator.getDefault()` (DinoGame.java:153, 159, 393, 468). Each
  draw is a parameter whose range is a precondition. Uniformity, and the
  long-run spawn rate it gives, are not modelled.
- IEEE-754 doubles, `Math.pow` and `Math.sqrt`. Coordinates and times are
  exact reals, and the square root is replaced by comparing squares.
- `score` is a 32-bit Java int. The model uses an unbounded integer, so
  overflow after about two million coins is not modelled.
- The coin's `pos_y` is a mutable field in the source but is never written
  after construction, so the model makes it a constant. An obstacle's kind
  is `final` in both.
- Off-screen culling does not exist in the source: fires and coins that
  leave the screen stay in their lists until a restart, and the model
  keeps them too.
- CollectCoins: the scan works on a local copy of the list and writes
  `coins` back once at the end. The score and speed change at the point of
  collection, as in the source. Nothing else can observe the list during
  the scan, so only the aliasing of the `ArrayList` is not modelled.
- Geometry.BoxBoxCollide: the closed-interval characterisation is stated
  only for boxes without negative sides. Every entity of the game has
  positive sides.
- Geometry.CollideSymmetric: needs non-negative sides for a box-box pair.
  Every entity of the game has them (the `Hitbox` of each class ensures it).
- Geometry.CircleBoxSound: stated for circles of positive diameter, which
  every coin has.
- Geometry.CircleBoxComplete: stated for circles of positive diameter, which
  every coin has.
- Entities.JumpLands: stated for a constant tick length. The game's tick
  length grows when a coin raises the speed in mid-jump. `ArcAdvance`
  holds for a tick of any length, so a jump with varying ticks follows the
  parabola step by step, but no lemma states the landing tick for that case.
- Simulation.Game.Update: the new position of each fire and coin is
  stated by `UpdateEntities`, and the new coin list by `UpdateCollision`.
  `Update`'s own contract does not repeat them. It also does not tie the
  speed-up to the player touching a coin, which `UpdateCollision` and
  `CoinPassPicksIff` state for the positions after the move.
- Simulation.Game.Tick: for a running game it states the time, the
  player's motion, the score and the game-over flag. The rest is what
  `Update` states.
