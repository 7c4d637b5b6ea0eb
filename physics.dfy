/** The player's physics as functions on values: one function per step of a frame update,
    the two collision passes as folds over the platform list, the whole update (`Tick`),
    the guarded jump, and the properties they keep. The `Player` class is proved against
    these definitions. */
module Physics {
  import opened Config
  import opened Geometry
  import opened Stages

  /** The player's state: its rectangle and the scalar fields the update reads and writes. */
  datatype Body = Body(rect: Rect, vx: int, vy: real, death: bool, onGround: bool, coyote: real)

  /** A body together with the number of stage-ups (goal landings) a pass triggered. */
  datatype Step = Step(body: Body, stageUps: nat)

  /** What holds of the player between operations: its size is fixed, its fall speed is
      capped, the coyote timer is non-negative and zero whenever the player stands on
      ground, and no death is pending. */
  predicate Invariant(b: Body) {
    && b.rect.w == PLAYER_WIDTH && b.rect.h == PLAYER_HEIGHT
    && b.vy <= MAX_FALL_SPEED
    && 0.0 <= b.coyote
    && (b.onGround ==> b.coyote == 0.0)
    && !b.death
  }

  // ---------------------------------------------------------------- gravity and moves

  /** The vertical speed after gravity: `vy + GRAVITY`, capped at the maximum fall speed. */
  function Accelerate(vy: real): (r: real)
    ensures r <= MAX_FALL_SPEED
    ensures r <= vy + GRAVITY
    ensures r == vy + GRAVITY || r == MAX_FALL_SPEED
  {
    if vy + GRAVITY > MAX_FALL_SPEED then MAX_FALL_SPEED else vy + GRAVITY
  }

  /** The gravity step: only the vertical speed changes, and it ends capped. */
  function Fall(b: Body): (r: Body)
    ensures r == b.(vy := r.vy)
    ensures r.vy <= MAX_FALL_SPEED && r.vy <= b.vy + GRAVITY
  {
    b.(vy := Accelerate(b.vy))
  }

  /** The horizontal move: only x changes, by exactly the horizontal speed. */
  function MoveX(b: Body): (r: Body)
    ensures r == b.(rect := b.rect.(x := r.rect.x))
    ensures r.rect.Left() - b.rect.Left() == b.vx
  {
    b.(rect := b.rect.(x := b.rect.x + b.vx))
  }

  /** The vertical move: only y changes, to within one unit of `y + vy`, rounded toward
      zero since the coordinate is truncated to an integer. */
  function MoveY(b: Body): (r: Body)
    ensures r == b.(rect := b.rect.(y := r.rect.y))
    ensures b.rect.y as real + b.vy - 1.0 < r.rect.y as real < b.rect.y as real + b.vy + 1.0
  {
    b.(rect := b.rect.(y := Trunc(b.rect.y as real + b.vy)))
  }

  // ---------------------------------------------------------------- horizontal pass

  /** One platform of the horizontal pass: on overlap a hazard flags death, and in any case
      the player is pushed back out against its direction of motion. */
  function HStep(b: Body, p: Platform): (r: Body)
    ensures r == b.(rect := b.rect.(x := r.rect.x), death := r.death)
    ensures Collide(b.rect, p.rect) && b.vx != 0 ==> !Collide(r.rect, p.rect)
    ensures 0 < b.vx ==> r.rect.x <= b.rect.x
    ensures b.vx < 0 ==> b.rect.x <= r.rect.x
  {
    if !Collide(b.rect, p.rect) then b
    else
      var dead := b.death || p.kind == Hazard;
      if b.vx > 0 then b.(rect := b.rect.WithRight(p.rect.Left()), death := dead)
      else if b.vx < 0 then b.(rect := b.rect.WithLeft(p.rect.Right()), death := dead)
      else b.(death := dead)
  }

  /** The horizontal pass over the platforms in list order. */
  function HorizontalPass(b: Body, ps: seq<Platform>): (r: Body)
    decreases |ps|
    ensures r == b.(rect := b.rect.(x := r.rect.x), death := r.death)
    ensures b.death ==> r.death
    ensures b.vx == 0 ==> r.rect == b.rect
    ensures 0 < b.vx ==> r.rect.x <= b.rect.x
    ensures b.vx < 0 ==> b.rect.x <= r.rect.x
  {
    if ps == [] then b else HStep(HorizontalPass(b, ps[..|ps| - 1]), ps[|ps| - 1])
  }

  lemma PrefixOfPrefix<T>(s: seq<T>, i: nat)
    requires i < |s|
    ensures s[..|s| - 1][..i] == s[..i]
  {
  }

  /** The horizontal pass flags death exactly when some hazard overlaps the player at the
      moment it is examined. */
  lemma {:induction false} HorizontalDeath(b: Body, ps: seq<Platform>)
    ensures HorizontalPass(b, ps).death <==>
      b.death || exists i :: 0 <= i < |ps| && ps[i].kind == Hazard && Collide(HorizontalPass(b, ps[..i]).rect, ps[i].rect)
  {
    if ps != [] {
      var n := |ps| - 1;
      var init := ps[..n];
      HorizontalDeath(b, init);
      forall i | 0 <= i < n ensures init[..i] == ps[..i] && init[i] == ps[i] {
        PrefixOfPrefix(ps, i);
      }
      assert ps[..n] == init;
    }
  }

  /** The last platform the player overlaps when it is examined decides where the player
      ends: later pushes overwrite earlier ones. */
  lemma {:induction false} HorizontalLastPushWins(b: Body, ps: seq<Platform>, i: nat)
    requires i < |ps| && b.vx != 0
    requires Collide(HorizontalPass(b, ps[..i]).rect, ps[i].rect)
    requires forall j :: i < j < |ps| ==> !Collide(HorizontalPass(b, ps[..j]).rect, ps[j].rect)
    ensures 0 < b.vx ==> HorizontalPass(b, ps).rect.Right() == ps[i].rect.Left()
    ensures b.vx < 0 ==> HorizontalPass(b, ps).rect.Left() == ps[i].rect.Right()
  {
    var n := |ps| - 1;
    if i < n {
      var init := ps[..n];
      forall j | 0 <= j < n ensures init[..j] == ps[..j] && init[j] == ps[j] {
        PrefixOfPrefix(ps, j);
      }
      HorizontalLastPushWins(b, init, i);
    }
  }

  /** A pass over platforms none of which overlaps the player changes nothing. */
  lemma {:induction false} HorizontalNoContact(b: Body, ps: seq<Platform>)
    requires forall p :: p in ps ==> !Collide(b.rect, p.rect)
    ensures HorizontalPass(b, ps) == b
  {
    if ps != [] {
      var n := |ps| - 1;
      assert ps[n] in ps;
      forall p | p in ps[..n] ensures !Collide(b.rect, p.rect) {
        assert p in ps;
      }
      HorizontalNoContact(b, ps[..n]);
    }
  }

  // ---------------------------------------------------------------- vertical pass

  /** One platform of the vertical pass: a hazard flags death; otherwise a falling player
      lands on the platform's top (a goal platform also triggers a stage-up) and a rising
      player is stopped at its bottom. */
  function VStep(s: Step, p: Platform): (r: Step)
    ensures r.body == s.body.(rect := s.body.rect.(y := r.body.rect.y), vy := r.body.vy,
                              death := r.body.death, onGround := r.body.onGround)
    ensures r.stageUps == s.stageUps || (r.stageUps == s.stageUps + 1 && p.kind == Goal)
    ensures p.kind == Hazard ==> r == Step(s.body.(death := Collide(s.body.rect, p.rect) || s.body.death), s.stageUps)
    ensures Collide(s.body.rect, p.rect) && p.kind != Hazard && 0.0 < s.body.vy ==>
      r.body.onGround && r.body.vy == 0.0 && r.body.rect.Bottom() == p.rect.Top() &&
      r.stageUps == s.stageUps + (if p.kind == Goal then 1 else 0)
    ensures Collide(s.body.rect, p.rect) && p.kind != Hazard && s.body.vy < 0.0 ==>
      r == Step(s.body.(rect := s.body.rect.WithTop(p.rect.Bottom()), vy := 0.0), s.stageUps)
    ensures p.kind != Hazard && s.body.vy == 0.0 ==> r == s
  {
    var b := s.body;
    if !Collide(b.rect, p.rect) then s
    else if p.kind == Hazard then Step(b.(death := true), s.stageUps)
    else if b.vy > 0.0 then
      Step(b.(rect := b.rect.WithBottom(p.rect.Top()), vy := 0.0, onGround := true),
           if p.kind == Goal then s.stageUps + 1 else s.stageUps)
    else if b.vy < 0.0 then
      Step(b.(rect := b.rect.WithTop(p.rect.Bottom()), vy := 0.0), s.stageUps)
    else s
  }

  /** The vertical pass over the platforms in list order. A stage-up during the pass does not
      change the list being walked. */
  function VerticalPass(b: Body, ps: seq<Platform>): (r: Step)
    decreases |ps|
    ensures r.body == b.(rect := b.rect.(y := r.body.rect.y), vy := r.body.vy,
                         death := r.body.death, onGround := r.body.onGround)
    ensures b.death ==> r.body.death
    ensures b.onGround ==> r.body.onGround
    ensures r.body.vy == b.vy || r.body.vy == 0.0
    ensures r.stageUps <= 1
    ensures r.stageUps == 1 ==> r.body.vy == 0.0
  {
    if ps == [] then Step(b, 0) else VStep(VerticalPass(b, ps[..|ps| - 1]), ps[|ps| - 1])
  }

  /** Landing: starting off the ground, the pass ends on the ground exactly when the player
      was falling and overlaps some non-hazard platform. Then its bottom sits on such a
      platform's top and its speed is 0; a stage-up happens only through a goal landing. */
  lemma {:induction false} VerticalLanding(b: Body, ps: seq<Platform>)
    requires !b.onGround
    ensures var r := VerticalPass(b, ps);
      r.body.onGround <==> 0.0 < b.vy && exists p :: p in ps && p.kind != Hazard && Collide(b.rect, p.rect)
    ensures var r := VerticalPass(b, ps);
      r.body.onGround ==> r.body.vy == 0.0 && exists p :: p in ps && p.kind != Hazard && r.body.rect.Bottom() == p.rect.Top()
    ensures var r := VerticalPass(b, ps);
      r.stageUps == 1 ==> r.body.onGround && exists p :: p in ps && p.kind == Goal && r.body.rect.Bottom() == p.rect.Top()
    ensures var r := VerticalPass(b, ps);
      !r.body.onGround && 0.0 < b.vy ==> r.body.rect == b.rect && r.body.vy == b.vy && r.stageUps == 0
    ensures var r := VerticalPass(b, ps);
      b.vy <= 0.0 ==> r.body.vy <= 0.0 && r.stageUps == 0
  {
    if ps != [] {
      var n := |ps| - 1;
      var init, p := ps[..n], ps[n];
      assert ps == init + [p];
      VerticalLanding(b, init);
    }
  }

  /** The first non-hazard platform a falling player overlaps is the one it lands on: the
      pass ends with the player's bottom on that platform's top, and with one stage-up
      exactly when that platform is a goal. */
  lemma {:induction false} VerticalFirstLanding(b: Body, ps: seq<Platform>, i: nat)
    requires !b.onGround && 0.0 < b.vy
    requires i < |ps| && ps[i].kind != Hazard && Collide(b.rect, ps[i].rect)
    requires forall j :: 0 <= j < i ==> ps[j].kind == Hazard || !Collide(b.rect, ps[j].rect)
    ensures var r := VerticalPass(b, ps);
      && r.body.onGround && r.body.vy == 0.0
      && r.body.rect.Bottom() == ps[i].rect.Top()
      && r.stageUps == (if ps[i].kind == Goal then 1 else 0)
  {
    var n := |ps| - 1;
    var init := ps[..n];
    if i < n {
      forall j | 0 <= j < i ensures init[j] == ps[j] {
      }
      VerticalFirstLanding(b, init, i);
    } else {
      forall p | p in init && p.kind != Hazard ensures !Collide(b.rect, p.rect) {
        var j :| 0 <= j < n && init[j] == p;
      }
      VerticalLanding(b, init);
    }
  }

  /** Bump: a rising player that overlaps some non-hazard platform ends the pass stopped
      (speed 0) with its top at such a platform's bottom. */
  lemma {:induction false} VerticalBump(b: Body, ps: seq<Platform>)
    requires b.vy < 0.0
    requires exists p :: p in ps && p.kind != Hazard && Collide(b.rect, p.rect)
    ensures var r := VerticalPass(b, ps).body;
      r.vy == 0.0 && exists p :: p in ps && p.kind != Hazard && r.rect.Top() == p.rect.Bottom()
  {
    var n := |ps| - 1;
    var init, last := ps[..n], ps[n];
    assert ps == init + [last];
    if exists p :: p in init && p.kind != Hazard && Collide(b.rect, p.rect) {
      VerticalBump(b, init);
    } else {
      VerticalRisingUntouched(b, init);
    }
  }

  /** The first non-hazard platform a rising player overlaps is the one that stops it: the
      pass ends with the player's top at that platform's bottom and its speed 0, with
      nothing else about the rectangle changed and no stage-up. */
  lemma {:induction false} VerticalFirstBump(b: Body, ps: seq<Platform>, i: nat)
    requires b.vy < 0.0
    requires i < |ps| && ps[i].kind != Hazard && Collide(b.rect, ps[i].rect)
    requires forall j :: 0 <= j < i ==> ps[j].kind == Hazard || !Collide(b.rect, ps[j].rect)
    ensures var r := VerticalPass(b, ps);
      && r.body.vy == 0.0
      && r.body.rect == b.rect.WithTop(ps[i].rect.Bottom())
      && r.stageUps == 0
  {
    var n := |ps| - 1;
    var init := ps[..n];
    if i < n {
      forall j | 0 <= j < i ensures init[j] == ps[j] {
      }
      VerticalFirstBump(b, init, i);
    } else {
      forall p | p in init && p.kind != Hazard ensures !Collide(b.rect, p.rect) {
        var j :| 0 <= j < n && init[j] == p;
      }
      VerticalRisingUntouched(b, init);
      VerticalNoStageUpRising(b, init);
    }
  }

  /** A player that is not falling triggers no stage-up. */
  lemma {:induction false} VerticalNoStageUpRising(b: Body, ps: seq<Platform>)
    requires b.vy <= 0.0
    ensures VerticalPass(b, ps).stageUps == 0
  {
    if ps != [] {
      VerticalNoStageUpRising(b, ps[..|ps| - 1]);
    }
  }

  /** A rising player that overlaps no non-hazard platform keeps its rectangle and speed. */
  lemma {:induction false} VerticalRisingUntouched(b: Body, ps: seq<Platform>)
    requires b.vy < 0.0
    requires forall p :: p in ps && p.kind != Hazard ==> !Collide(b.rect, p.rect)
    ensures VerticalPass(b, ps).body.rect == b.rect && VerticalPass(b, ps).body.vy == b.vy
  {
    if ps != [] {
      var n := |ps| - 1;
      assert ps == ps[..n] + [ps[n]];
      VerticalRisingUntouched(b, ps[..n]);
    }
  }

  /** The vertical pass flags death exactly when some hazard overlaps the player at the
      moment it is examined. */
  lemma {:induction false} VerticalDeath(b: Body, ps: seq<Platform>)
    ensures VerticalPass(b, ps).body.death <==>
      b.death || exists i :: 0 <= i < |ps| && ps[i].kind == Hazard && Collide(VerticalPass(b, ps[..i]).body.rect, ps[i].rect)
  {
    if ps != [] {
      var n := |ps| - 1;
      var init := ps[..n];
      VerticalDeath(b, init);
      forall i | 0 <= i < n ensures init[..i] == ps[..i] && init[i] == ps[i] {
        PrefixOfPrefix(ps, i);
      }
      assert ps[..n] == init;
    }
  }

  /** A pass over platforms none of which overlaps the player changes nothing. */
  lemma {:induction false} VerticalNoContact(b: Body, ps: seq<Platform>)
    requires forall p :: p in ps ==> !Collide(b.rect, p.rect)
    ensures VerticalPass(b, ps) == Step(b, 0)
  {
    if ps != [] {
      var n := |ps| - 1;
      assert ps[n] in ps;
      forall p | p in ps[..n] ensures !Collide(b.rect, p.rect) {
        assert p in ps;
      }
      VerticalNoContact(b, ps[..n]);
    }
  }

  /** The condition of the check that ends `collide_vertical`: dead, or fallen below the screen. */
  predicate Fatal(b: Body) {
    b.rect.Top() > SCREEN_HEIGHT || b.death
  }

  /** The death or fall-off check that ends `collide_vertical`. */
  function Respawn(b: Body): (r: Body)
    ensures !r.death
    ensures r.rect.Top() <= SCREEN_HEIGHT
    ensures r.vx == b.vx && r.rect.w == b.rect.w && r.rect.h == b.rect.h
    ensures Fatal(b) ==>
      r.rect.x == SPAWN_X && r.rect.y == SPAWN_Y && r.vy == 0.0 && !r.onGround && r.coyote == 0.0
    ensures !Fatal(b) ==> r == b
  {
    if Fatal(b) then
      b.(rect := b.rect.(x := SPAWN_X, y := SPAWN_Y), vy := 0.0, onGround := false, death := false, coyote := 0.0)
    else b
  }

  /** Whether `collide_vertical` ends in a respawn for the player `b` entering it. */
  predicate Respawns(b: Body, ps: seq<Platform>) {
    Fatal(VerticalPass(b.(onGround := false), ps).body)
  }

  /** `collide_vertical`: clear `onGround`, run the vertical pass, then the respawn check.
      A respawn puts the player at the spawn point with the timer at 0; otherwise x and the
      timer are kept. The player ends on the ground only by landing, which needs a fall and
      a non-hazard overlap; no death stays pending. */
  function CollideVertical(b: Body, ps: seq<Platform>): (r: Step)
    ensures r.body.vx == b.vx && r.body.rect.w == b.rect.w && r.body.rect.h == b.rect.h
    ensures !r.body.death && r.body.rect.Top() <= SCREEN_HEIGHT
    ensures r.body.rect.x == (if Respawns(b, ps) then SPAWN_X else b.rect.x)
    ensures r.body.coyote == (if Respawns(b, ps) then 0.0 else b.coyote)
    ensures Respawns(b, ps) ==> r.body.rect.y == SPAWN_Y && r.body.vy == 0.0 && !r.body.onGround
    ensures r.body.onGround <==>
      !Respawns(b, ps) && 0.0 < b.vy && exists p :: p in ps && p.kind != Hazard && Collide(b.rect, p.rect)
    ensures r.stageUps <= 1
  {
    var s := VerticalPass(b.(onGround := false), ps);
    VerticalLanding(b.(onGround := false), ps);
    Step(Respawn(s.body), s.stageUps)
  }

  // ---------------------------------------------------------------- timer, clamp, update

  /** The coyote timer: zero on the ground, one frame longer in the air. */
  function CoyoteStep(b: Body): (r: Body)
    ensures r == b.(coyote := r.coyote)
    ensures b.onGround ==> r.coyote == 0.0
    ensures !b.onGround ==> r.coyote == b.coyote + FRAME_TIME
  {
    if b.onGround then b.(coyote := 0.0) else b.(coyote := b.coyote + FRAME_TIME)
  }

  /** The horizontal screen clamp. */
  function ClampX(r: Rect): (c: Rect)
    ensures c == r.(x := c.x)
    ensures c.Right() <= SCREEN_WIDTH
    ensures r.w <= SCREEN_WIDTH ==> 0 <= c.Left()
    ensures 0 <= r.Left() && r.Right() <= SCREEN_WIDTH ==> c == r
    ensures r.Left() < 0 && r.w <= SCREEN_WIDTH ==> c.Left() == 0
    ensures SCREEN_WIDTH < r.Right() ==> c.Right() == SCREEN_WIDTH
  {
    var r1 := if r.Left() < 0 then r.WithLeft(0) else r;
    if r1.Right() > SCREEN_WIDTH then r1.WithRight(SCREEN_WIDTH) else r1
  }

  /** The player as it enters `collide_vertical`: after gravity, the horizontal move and
      pass, and the vertical move. */
  function Moved(b: Body, ps: seq<Platform>): (r: Body)
    ensures r == b.(rect := r.rect, vy := r.vy, death := r.death)
    ensures r.rect.w == b.rect.w && r.rect.h == b.rect.h
    ensures r.vy == Accelerate(b.vy)
    ensures b.death ==> r.death
  {
    MoveY(HorizontalPass(MoveX(Fall(b)), ps))
  }

  /** One frame of `update` against the platform list `ps`. */
  function Tick(b: Body, ps: seq<Platform>): (r: Step)
    ensures !r.body.death
    ensures r.body.rect.Right() <= SCREEN_WIDTH
    ensures b.rect.w <= SCREEN_WIDTH ==> 0 <= r.body.rect.Left()
    ensures r.body.onGround ==> r.body.coyote == 0.0
    ensures !r.body.onGround ==>
      r.body.coyote == (if Respawns(Moved(b, ps), ps) then 0.0 else b.coyote) + FRAME_TIME
    ensures r.stageUps <= 1
    ensures r.body.vx == b.vx
    ensures Invariant(b) ==> Invariant(r.body)
  {
    var v := CollideVertical(Moved(b, ps), ps);
    var c := CoyoteStep(v.body);
    Step(c.(rect := ClampX(c.rect)), v.stageUps)
  }

  /** A death or a fall off the screen ends the frame at the spawn point, at rest, in the
      air, with the coyote timer one frame past 0. */
  lemma TickRespawn(b: Body, ps: seq<Platform>)
    requires Invariant(b)
    requires Respawns(Moved(b, ps), ps)
    ensures var r := Tick(b, ps).body;
      && r.rect == Rect(SPAWN_X, SPAWN_Y, PLAYER_WIDTH, PLAYER_HEIGHT)
      && r.vy == 0.0 && !r.onGround && !r.death && r.coyote == FRAME_TIME && r.vx == b.vx
  {
  }

  /** A hazard that overlaps the player when either pass examines it ends the frame at the
      spawn point. */
  lemma {:induction false} TickHazardRespawn(b: Body, ps: seq<Platform>, i: nat)
    requires Invariant(b)
    requires i < |ps| && ps[i].kind == Hazard
    requires Collide(HorizontalPass(MoveX(Fall(b)), ps[..i]).rect, ps[i].rect)
          || Collide(VerticalPass(Moved(b, ps).(onGround := false), ps[..i]).body.rect, ps[i].rect)
    ensures var r := Tick(b, ps).body;
      r.rect == Rect(SPAWN_X, SPAWN_Y, PLAYER_WIDTH, PLAYER_HEIGHT) && r.vy == 0.0 && !r.onGround && r.coyote == FRAME_TIME
  {
    var m := MoveX(Fall(b));
    HorizontalDeath(m, ps);
    VerticalDeath(Moved(b, ps).(onGround := false), ps);
    TickRespawn(b, ps);
  }

  /** Without any contact and without respawn, a frame is free fall: the speed is gravity's
      capped value, the player moves by it, stays in the air, and the coyote timer grows by
      one frame. */
  lemma TickFreeFall(b: Body, ps: seq<Platform>)
    requires Invariant(b)
    requires forall p :: p in ps ==> !Collide(MoveX(Fall(b)).rect, p.rect)
    requires forall p :: p in ps ==> !Collide(MoveY(MoveX(Fall(b))).rect, p.rect)
    requires Trunc(b.rect.y as real + Accelerate(b.vy)) <= SCREEN_HEIGHT
    ensures var r := Tick(b, ps);
      && r.body.vy == Accelerate(b.vy)
      && r.body.rect.y == Trunc(b.rect.y as real + Accelerate(b.vy))
      && !r.body.onGround
      && r.body.coyote == b.coyote + FRAME_TIME
      && r.stageUps == 0
  {
    HorizontalNoContact(MoveX(Fall(b)), ps);
    VerticalNoContact(Moved(b, ps).(onGround := false), ps);
  }

  /** On stage 2, a player falling at speed 5 whose bottom touches the goal's top lands on
      the goal and triggers one stage-up. The landing stands: the player keeps its place
      on the goal's top instead of moving to a spawn point. */
  lemma GoalLandingScenario()
    ensures var b := Body(Rect(760, 90, PLAYER_WIDTH, PLAYER_HEIGHT), 0, 5.0, false, false, 0.05);
      Tick(b, Catalogue(2)) == Step(b.(vy := 0.0, onGround := true, coyote := 0.0), 1)
  {
    var b := Body(Rect(760, 90, PLAYER_WIDTH, PLAYER_HEIGHT), 0, 5.0, false, false, 0.05);
    var ps := Catalogue(2);
    var h := MoveX(Fall(b));
    assert h == b.(vy := 5.8);
    assert forall p :: p in ps ==> !Collide(h.rect, p.rect);
    HorizontalNoContact(h, ps);
    var m := Moved(b, ps).(onGround := false);
    assert m == h.(rect := Rect(760, 95, PLAYER_WIDTH, PLAYER_HEIGHT));
    var init := ps[..8];
    assert forall p :: p in init ==> !Collide(m.rect, p.rect);
    VerticalNoContact(m, init);
    assert ps == init + [ps[8]];
    var v := VerticalPass(m, ps);
    assert v == Step(m.(rect := Rect(760, 90, PLAYER_WIDTH, PLAYER_HEIGHT), vy := 0.0, onGround := true), 1);
  }

  /** At the left edge, moving left with nothing in the way, the player stays at x = 0 and
      keeps its horizontal speed. */
  lemma LeftEdgeScenario()
    ensures var b := Body(Rect(0, 100, PLAYER_WIDTH, PLAYER_HEIGHT), -PLAYER_SPEED, 0.0, false, false, 0.0);
      var r := Tick(b, []).body;
      r.rect.Left() == 0 && r.vx == -PLAYER_SPEED
  {
  }

  // ---------------------------------------------------------------- jump

  /** The jump guard: on the ground, or still inside the coyote window. */
  predicate CanJump(b: Body) {
    b.onGround || b.coyote < COYOTE_TIME_LIMIT
  }

  /** `jump`: when allowed, launch upward, leave the ground and consume the coyote window;
      otherwise nothing changes. */
  function Jumped(b: Body): (r: Body)
    ensures CanJump(b) ==> r == b.(vy := JUMP_STRENGTH, onGround := false, coyote := COYOTE_TIME_LIMIT)
    ensures !CanJump(b) ==> r == b
    ensures r != b <==> CanJump(b)
    ensures !CanJump(r)
    ensures Invariant(b) ==> Invariant(r)
  {
    if CanJump(b) then b.(vy := JUMP_STRENGTH, onGround := false, coyote := COYOTE_TIME_LIMIT) else b
  }

  /** A second jump right after the first is a no-op. */
  lemma JumpTwice(b: Body)
    ensures Jumped(Jumped(b)) == Jumped(b)
  {
  }

  /** The coyote timer after `k` frames in the air. */
  function Airborne(b: Body, k: nat): Body {
    if k == 0 then b else CoyoteStep(Airborne(b, k - 1))
  }

  /** Having left the ground with the timer at 0, the player can still jump during the
      first 6 frames in the air (0.1 s at 60 frames per second) and not after. */
  lemma {:induction false} CoyoteWindow(b: Body, k: nat)
    requires !b.onGround && b.coyote == 0.0
    ensures !Airborne(b, k).onGround
    ensures Airborne(b, k).coyote == k as real * FRAME_TIME
    ensures CanJump(Airborne(b, k)) <==> k < 6
  {
    if k > 0 {
      CoyoteWindow(b, k - 1);
    }
  }
}
