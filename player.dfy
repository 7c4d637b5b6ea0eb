/** The player object: its fields are updated in place, step by step, by `Update`, the two
    collision passes and the input setters. Every method is proved to leave the object in
    the state the corresponding function of `Physics` computes. */
module Players {
  import opened Config
  import opened Geometry
  import opened Stages
  import opened Physics

  class Player {
    var rect: Rect
    var changeX: int
    var changeY: real
    var death: bool
    var onGround: bool
    var coyoteTimer: real

    /** The fields as a `Physics.Body` value. */
    function State(): Body
      reads this
    {
      Body(rect, changeX, changeY, death, onGround, coyoteTimer)
    }

    predicate Valid()
      reads this
    {
      Invariant(State())
    }

    /** A player of the fixed size with its top-left corner at (x, y), at rest, in the air. */
    constructor (x: int, y: int)
      ensures State() == Body(Rect(x, y, PLAYER_WIDTH, PLAYER_HEIGHT), 0, 0.0, false, false, 0.0)
      ensures Valid()
    {
      rect := Rect(x, y, PLAYER_WIDTH, PLAYER_HEIGHT);
      changeX := 0;
      changeY := 0.0;
      death := false;
      onGround := false;
      coyoteTimer := 0.0;
    }

    /** One frame: gravity, horizontal move and pass, vertical move and pass (which may
        advance the stage), coyote timer, horizontal screen clamp. Both passes walk the
        stage's platform list as it is when the pass starts. */
    method Update(stage: Stage)
      requires Valid()
      modifies this, stage
      ensures var t := Tick(old(State()), old(stage.platforms));
        State() == t.body && stage.number == old(stage.number) + t.stageUps
      ensures stage.platforms == if stage.number == old(stage.number) then old(stage.platforms) else Catalogue(stage.number)
      ensures Valid()
      ensures 0 <= rect.Left() && rect.Right() <= SCREEN_WIDTH
    {
      ghost var b := State();
      ghost var ps := stage.platforms;

      changeY := changeY + GRAVITY;
      if changeY > MAX_FALL_SPEED {
        changeY := MAX_FALL_SPEED;
      }
      rect := rect.(x := rect.x + changeX);
      assert State() == MoveX(Fall(b));

      CollideHorizontal(stage.platforms);
      rect := rect.(y := Trunc(rect.y as real + changeY));
      assert State() == Moved(b, ps);

      CollideVertical(stage);
      assert State() == Physics.CollideVertical(Moved(b, ps), ps).body;

      if onGround {
        coyoteTimer := 0.0;
      } else {
        coyoteTimer := coyoteTimer + FRAME_TIME;
      }
      if rect.Left() < 0 {
        rect := rect.WithLeft(0);
      }
      if rect.Right() > SCREEN_WIDTH {
        rect := rect.WithRight(SCREEN_WIDTH);
      }
    }

    /** The horizontal pass over `platforms`, in list order. */
    method CollideHorizontal(platforms: seq<Platform>)
      modifies this`rect, this`death
      ensures State() == HorizontalPass(old(State()), platforms)
    {
      ghost var start := State();
      for i := 0 to |platforms|
        invariant State() == HorizontalPass(start, platforms[..i])
      {
        var platform := platforms[i];
        if Collide(rect, platform.rect) {
          if platform.kind == Hazard {
            death := true;
          }
          if changeX > 0 {
            rect := rect.WithRight(platform.rect.Left());
          } else if changeX < 0 {
            rect := rect.WithLeft(platform.rect.Right());
          }
        }
        assert platforms[..i + 1][..i] == platforms[..i];
      }
      assert platforms[..|platforms|] == platforms;
    }

    /** Clears `onGround`, walks the stage's platforms as they are on entry (a goal landing
        advances the stage, and the rest of the walk still sees the old list), then moves a
        dead or fallen player back to the spawn point. */
    method CollideVertical(stage: Stage)
      modifies this, stage
      ensures var s := Physics.CollideVertical(old(State()), old(stage.platforms));
        State() == s.body && stage.number == old(stage.number) + s.stageUps
      ensures stage.platforms == if stage.number == old(stage.number) then old(stage.platforms) else Catalogue(stage.number)
    {
      onGround := false;
      ghost var start := State();
      ghost var ups: nat := 0;
      var platforms := stage.platforms;
      for i := 0 to |platforms|
        invariant Step(State(), ups) == VerticalPass(start, platforms[..i])
        invariant stage.number == old(stage.number) + ups
        invariant stage.platforms == if ups == 0 then platforms else Catalogue(stage.number)
      {
        ghost var before := Step(State(), ups);
        var platform := platforms[i];
        if Collide(rect, platform.rect) {
          if platform.kind == Hazard {
            death := true;
          } else if changeY > 0.0 {
            rect := rect.WithBottom(platform.rect.Top());
            changeY := 0.0;
            onGround := true;
            if platform.kind == Goal {
              stage.StageUp();
              ups := ups + 1;
            }
          } else if changeY < 0.0 {
            rect := rect.WithTop(platform.rect.Bottom());
            changeY := 0.0;
          }
        }
        assert Step(State(), ups) == VStep(before, platform);
        assert platforms[..i + 1][..i] == platforms[..i];
      }
      assert platforms[..|platforms|] == platforms;

      if rect.Top() > SCREEN_HEIGHT || death {
        rect := rect.(x := SPAWN_X, y := SPAWN_Y);
        changeY := 0.0;
        onGround := false;
        death := false;
        coyoteTimer := 0.0;
      }
    }

    method GoLeft()
      modifies this`changeX
      ensures State() == old(State()).(vx := -PLAYER_SPEED)
      ensures old(Valid()) ==> Valid()
    {
      changeX := -PLAYER_SPEED;
    }

    method GoRight()
      modifies this`changeX
      ensures State() == old(State()).(vx := PLAYER_SPEED)
      ensures old(Valid()) ==> Valid()
    {
      changeX := PLAYER_SPEED;
    }

    method Stop()
      modifies this`changeX
      ensures State() == old(State()).(vx := 0)
      ensures old(Valid()) ==> Valid()
    {
      changeX := 0;
    }

    /** Jumps when on the ground or inside the coyote window; otherwise does nothing. */
    method Jump()
      modifies this`changeY, this`onGround, this`coyoteTimer
      ensures State() == Jumped(old(State()))
      ensures old(Valid()) ==> Valid()
    {
      if onGround || coyoteTimer < COYOTE_TIME_LIMIT {
        changeY := JUMP_STRENGTH;
        onGround := false;
        coyoteTimer := COYOTE_TIME_LIMIT;
      }
    }
  }

  /** The game setup: the player at its starting position and the controller on stage 2,
      built from the catalogue. */
  method NewGame() returns (player: Player, stage: Stage)
    ensures fresh(player) && fresh(stage)
    ensures player.State() == Body(Rect(100, SCREEN_HEIGHT - 100, PLAYER_WIDTH, PLAYER_HEIGHT), 0, 0.0, false, false, 0.0)
    ensures player.Valid() && stage.Valid()
    ensures stage.number == 2 && stage.platforms == Catalogue(2)
  {
    player := new Player(100, SCREEN_HEIGHT - 100);
    stage := new Stage([]);
    stage.CreateStage();
  }
}
