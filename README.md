# Platformer game-state model

This project is a Dafny model of the game-state core of a small pygame platformer. It covers four parts:

- The player's per-frame physics. This is gravity with a fall-speed cap, then a horizontal move and collision pass, then a vertical move and collision pass with respawn, then the coyote timer, then the horizontal screen clamp.
- The guarded jump and the left/right/stop intent setters.
- The platforms. Each is a rectangle whose colour is a kind tag: RED is a hazard, GOLD is a goal, anything else is normal.
- The stage controller. It holds the stage number (starting at 2), rebuilds the platform list from a fixed catalogue, and steps the number up or down.

Layout:

- `config.dfy` (`Config`): the game constants.
- `geometry.dfy` (`Geometry`): integer rectangles, `colliderect`, and the float-to-int truncation applied when a rectangle coordinate is given a fractional value.
- `stages.dfy` (`Stages`): `Kind`, `Platform`, the catalogue, stage numbering, and the `Stage` class. The `Stage` class has `number` and `platforms` fields that its methods reassign.
- `physics.dfy` (`Physics`): the player's state as a value (`Body`). It has one function per step of `update`, the two collision passes as left folds over the platform list, the whole frame (`Tick`), the jump, and the lemmas about them.
- `player.dfy` (`Players`): the `Player` class, whose fields are updated in place. Each method is proved to produce the state that the matching `Physics` function computes. The module-level `stage` that `collide_vertical` calls becomes a `Stage` argument that `Update` and `CollideVertical` may modify.

Modelling choices and assumptions:

- `colliderect` is taken to be strict overlap of open intervals on both axes. This is pygame's documented behaviour, but the library itself is not part of this model.
- `change_y` and `coyote_timer` are Dafny `real`s, so their arithmetic is exact rational arithmetic, not IEEE doubles.
- `rect.y += change_y` is modelled as `Trunc(y + change_y)`, truncating toward zero. This is the integer pygame stores when a coordinate is assigned a float.
- Each collision pass walks the platform list as it was when the pass started. A goal landing can rebuild the stage in the middle of the vertical pass; the rest of that pass still sees the old platforms, and `update` reads the new list only on the next frame.

Behaviour kept exactly as the code has it, where one might expect otherwise:

- A dead or fallen player respawns at (100, 100), not at the starting position (100, 500).
- `stage_up` does not move the player. After a goal landing the player stays on the goal's top (`GoalLandingScenario`).
- `stage_down` stops at 0, not at 1, and always rebuilds.
- Stage numbers other than 1 and 2 build an empty stage.
- A hazard hit in the horizontal pass still pushes the player out.
- The death/fall-off check runs inside `collide_vertical`, before the coyote timer and the screen clamp. So an airborne respawn ends the frame with the timer at 1/60, not 0.

## Model

| member | source | states |
|---|---|---|
| `Geometry.Trunc` | platformer.py:62 | the integer coordinate stored for a real value is that value truncated toward zero: within one unit of it, on its side of 0 |
| `Stages.Catalogue` | platformer.py:151-171 | stage 1 has 6 platforms, stage 2 has 9, every other number has none; every catalogue platform has positive width and height |
| `Stages.CatalogueHasOneGoal` | platformer.py:155-171 | stages 1 and 2 each contain exactly one goal platform |
| `Stages.Down` | platformer.py:178-180 | `stage_down` lowers the number by one except at 0, and never takes a non-negative number below 0 |
| `Stages.DownTimesFloors` | platformer.py:178-180 | k consecutive `stage_down` calls from n >= 0 give n - k, or 0 once k >= n |
| `Stages.UpThenDown` | platformer.py:173-180 | `stage_down` undoes `stage_up` for every non-negative stage number |
| `Stages.Stage.constructor` | platformer.py:146-149 | the controller keeps the given platform list and starts at stage 2 |
| `Stages.Stage.CreateStage` | platformer.py:151-171 | the platform list is replaced by the catalogue entry of the current number, and the number is unchanged |
| `Stages.Stage.StageUp` | platformer.py:173-175 | the number increases by exactly 1, the list is rebuilt for it, and the number stays non-negative |
| `Stages.Stage.StageDown` | platformer.py:178-181 | the number becomes `Down` of the old number, and the list is always rebuilt, even at 0 |
| `Physics.Accelerate` | platformer.py:50-53 | after gravity the vertical speed is at most 10, at most `vy + 0.8`, and equal to one of the two (the minimum) |
| `Physics.Fall` | platformer.py:51-53 | the gravity step changes only `change_y`, which ends at most 10 and at most 0.8 above its old value |
| `Physics.MoveX` | platformer.py:56 | the horizontal move changes only x, and the left edge moves by exactly `change_x` |
| `Physics.MoveY` | platformer.py:62 | the vertical move changes only y, which ends within one unit of `y + change_y` |
| `Physics.Moved` | platformer.py:49-62 | up to the vertical pass, a frame changes only the rect's position, `change_y` and `death`; the size is kept, `change_y` is gravity's capped value, and a pending death stays pending |
| `Physics.HStep` | platformer.py:84-90 | one horizontal platform check changes only x and `death`; an overlapping platform no longer overlaps after a push, and a push never moves the player further in its direction of motion |
| `Physics.HorizontalPass` | platformer.py:81-90 | the horizontal pass changes only x and `death`, never clears `death`, leaves the rect unchanged when `change_x == 0`, and only moves the player back against its motion |
| `Physics.HorizontalDeath` | platformer.py:83-86 | the horizontal pass sets `death` exactly when some RED platform overlaps the player at the moment it is examined |
| `Physics.HorizontalLastPushWins` | platformer.py:83-90 | when platform i is the last one that overlaps the player at its turn, the final right edge is its left edge (moving right) or the final left edge is its right edge (moving left) |
| `Physics.HorizontalNoContact` | platformer.py:83-84 | a pass over platforms that do not overlap the player leaves it unchanged |
| `Physics.VStep` | platformer.py:96-108 | one vertical platform check changes only y, `change_y`, `death` and `on_ground`, adds a stage-up only on a goal, and a RED platform only sets `death`; a falling player overlapping a non-RED platform lands on its top, with speed 0 and on the ground, and a stage-up happens exactly when that platform is a goal; a rising player overlapping a non-RED platform gets its top set to that platform's bottom and speed 0, with nothing else changed; a player at rest is left alone by a non-RED platform |
| `Physics.VerticalPass` | platformer.py:96-108 | the vertical pass changes only y, `change_y`, `death` and `on_ground`; `change_y` ends unchanged or 0; at most one stage-up happens per pass, and after one the speed is 0 |
| `Physics.VerticalLanding` | platformer.py:95-105 | starting off the ground, the pass ends on the ground iff the player was falling and overlapped some non-RED platform; then its bottom is on such a platform's top and its speed is 0; a stage-up implies a landing on a goal's top; a player that is not falling never lands |
| `Physics.VerticalFirstLanding` | platformer.py:96-105 | a falling player lands on the first non-RED platform it overlaps in list order: the pass ends with its bottom on that platform's top, speed 0, on the ground, and with one stage-up if that platform is a goal and none otherwise |
| `Physics.VerticalBump` | platformer.py:106-108 | a rising player that overlaps a non-RED platform ends with speed 0 and its top on such a platform's bottom |
| `Physics.VerticalFirstBump` | platformer.py:96-108 | a rising player is stopped by the first non-RED platform it overlaps in list order: the pass ends with its top on that platform's bottom, the rest of the rect unchanged, speed 0, and no stage-up |
| `Physics.VerticalRisingUntouched` | platformer.py:106-108 | a rising player that overlaps no non-RED platform keeps its rect and speed |
| `Physics.VerticalDeath` | platformer.py:96-99 | the vertical pass sets `death` exactly when some RED platform overlaps the player at the moment it is examined |
| `Physics.VerticalNoContact` | platformer.py:96-97 | a pass over platforms that do not overlap the player changes nothing and triggers no stage-up |
| `Physics.Respawn` | platformer.py:110-117 | after the check `death` is false and the top is on screen; a dead or fallen player is at (100, 100) with speed 0, off the ground, timer 0 and `change_x` kept; otherwise nothing changes |
| `Physics.CollideVertical` | platformer.py:92-117 | after `collide_vertical` no death is pending and the top is on screen; a respawn puts the player at (100, 100) with speed 0, off the ground and timer 0, otherwise x and the timer are kept; the player ends on the ground iff there was no respawn, it was falling, and it overlapped some non-RED platform; `change_x` and the size are kept; at most one stage-up happens |
| `Physics.CoyoteStep` | platformer.py:67-73 | the coyote timer becomes 0 on the ground and grows by exactly 1/60 in the air; nothing else changes |
| `Physics.ClampX` | platformer.py:75-79 | after the clamp only x has changed and the right edge is within the screen, and so is the left edge when the player is no wider than the screen; a rect already inside is unchanged; a rect sticking out on the left ends with its left edge exactly at 0 (when it fits), and one sticking out on the right ends with its right edge exactly at 800 |
| `Physics.Tick` | platformer.py:49-79 | after a frame no death is pending and the player is within the screen horizontally; the timer is 0 on the ground, and in the air it is the old value plus 1/60, or 1/60 after a respawn; at most one stage-up happened, `change_x` is kept, and the player invariant is preserved |
| `Physics.TickRespawn` | platformer.py:110-117 | a death or fall-off ends the frame at (100, 100) with speed 0, off the ground, and timer 1/60 |
| `Physics.TickHazardRespawn` | platformer.py:85-117 | a RED platform that overlaps the player when either pass examines it sends the player to the spawn point for that frame |
| `Physics.TickFreeFall` | platformer.py:50-73 | with no contact and no respawn, the speed is gravity's capped value, y moves by it, the player stays airborne, the timer grows by one frame, and there is no stage-up |
| `Physics.GoalLandingScenario` | platformer.py:100-105 | on stage 2 a player falling onto the goal lands (speed 0, on the ground), triggers exactly one stage-up and stays where it landed |
| `Physics.LeftEdgeScenario` | platformer.py:75-77 | a player at the left edge moving left with no platforms ends at x = 0 and keeps `change_x` |
| `Physics.Jumped` | platformer.py:128-133 | a jump succeeds iff the player is on the ground or the timer is below 0.1; success sets speed -15, off the ground and timer 0.1 and changes nothing else; failure changes nothing; afterwards no jump is possible |
| `Physics.JumpTwice` | platformer.py:128-133 | a second jump right after the first is a no-op |
| `Physics.CoyoteWindow` | platformer.py:69-73 | after leaving the ground with the timer at 0, the timer after k airborne frames is k/60, and a jump is possible exactly for k < 6 |
| `Players.Player.constructor` | platformer.py:37-47 | a new player has size 40x60 at the given top-left corner, is at rest and off the ground, has no death pending and has timer 0 |
| `Players.Player.Update` | platformer.py:49-79 | the new player state and stage number are those of `Tick` on the old state and the platform list; the list is rebuilt for the new number iff it changed; the invariant holds and the player is within the screen horizontally |
| `Players.Player.CollideHorizontal` | platformer.py:81-90 | the new state is `HorizontalPass` of the old state over the list |
| `Players.Player.CollideVertical` | platformer.py:92-117 | the new state and stage number are those of clearing `on_ground`, walking the list captured at entry, and the respawn check; the list is rebuilt for the new number iff it changed |
| `Players.Player.GoLeft` | platformer.py:119-120 | only `change_x` changes, to -5 |
| `Players.Player.GoRight` | platformer.py:122-123 | only `change_x` changes, to 5 |
| `Players.Player.Stop` | platformer.py:125-126 | only `change_x` changes, to 0 |
| `Players.Player.Jump` | platformer.py:128-133 | the new state is `Jumped` of the old state, and the invariant is kept |
| `Players.NewGame` | platformer.py:185-192 | the player starts at (100, 500) and the controller starts on stage 2 with its catalogue platforms |

## Left out

- pygame initialisation, the display, the clock, the event loop, key handling and `sys.exit` (platformer.py:1-5, 28-33, 203-242) are I/O and user-interface code. So is the operator-precedence quirk of the KEYUP conditions (platformer.py:221-223).
- `reset()` and the `all_sprites` group (platformer.py:194-201) are not modelled. They only rebuild the draw list and have no effect on the physics, so `StageUp` and `StageDown` do not call them.
- Surfaces, `image.fill` and colour values are not modelled; a colour survives only as the platform's `Kind`. The `moving` and `speed` parameters of `Platform` (platformer.py:137) are unused and not modelled.
- Floating point: `GRAVITY = 0.8` and the `1/FPS` timer increments are exact rationals here, not IEEE doubles.
- `CoyoteWindow`: in IEEE doubles six additions of `1.0 / 60` give 0.09999999999999999, which is below 0.1. So the program accepts a jump after up to 6 airborne frames (k < 7), one frame more than the k < 6 that `CoyoteWindow` states with exact rationals.
- `Geometry.Trunc` assumes pygame truncates a float coordinate toward zero. pygame itself is not part of this model.
- pygame stores Rect coordinates as C integers. Wrap-around at 32 bits is not modelled; coordinates are unbounded `int`s.
- `colliderect` is modelled only for the rectangles the game uses. pygame's special handling of zero-size or negative-size rectangles is not modelled.
