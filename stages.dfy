/** Platforms, the fixed stage catalogue and the stage controller. */
module Stages {
  import opened Config
  import opened Geometry

  /** The behaviour a platform's colour stands for: RED is a hazard, GOLD a goal,
      every other colour (GREEN in the catalogue) a normal platform. */
  datatype Kind = Normal | Hazard | Goal

  /** A static rectangle with its kind; never modified once built. */
  datatype Platform = Platform(rect: Rect, kind: Kind)

  /** How many platforms of `ps` have kind `k`. */
  function CountKind(ps: seq<Platform>, k: Kind): (n: nat)
    ensures n <= |ps|
    ensures n == 0 <==> forall p :: p in ps ==> p.kind != k
  {
    if ps == [] then 0
    else (if ps[0].kind == k then 1 else 0) + CountKind(ps[1..], k)
  }

  /** The platforms `create_stage` builds for a stage number, in the order they are added. */
  function Catalogue(number: int): (ps: seq<Platform>)
    ensures number == 1 ==> |ps| == 6
    ensures number == 2 ==> |ps| == 9
    ensures number != 1 && number != 2 ==> ps == []
    ensures forall p :: p in ps ==> 0 < p.rect.w && 0 < p.rect.h
  {
    if number == 1 then
      [ Platform(Rect(0, SCREEN_HEIGHT - 20, SCREEN_WIDTH - 150, 20), Normal),
        Platform(Rect(700, SCREEN_HEIGHT - 20, 150, 20), Goal),
        Platform(Rect(150, SCREEN_HEIGHT - 100, 150, 20), Normal),
        Platform(Rect(350, SCREEN_HEIGHT - 200, 100, 20), Normal),
        Platform(Rect(550, SCREEN_HEIGHT - 100, 150, 20), Hazard),
        Platform(Rect(50, SCREEN_HEIGHT - 250, 80, 20), Normal) ]
    else if number == 2 then
      [ Platform(Rect(50, SCREEN_HEIGHT - 100, 150, 20), Normal),
        Platform(Rect(200, SCREEN_HEIGHT - 200, 150, 20), Normal),
        Platform(Rect(200, SCREEN_HEIGHT - 450, 20, 250), Hazard),
        Platform(Rect(300, SCREEN_HEIGHT - 100, 50, 20), Normal),
        Platform(Rect(275, SCREEN_HEIGHT - 290, 50, 20), Hazard),
        Platform(Rect(275, SCREEN_HEIGHT - 320, 90, 20), Normal),
        Platform(Rect(550, SCREEN_HEIGHT - 350, 100, 20), Normal),
        Platform(Rect(350, SCREEN_HEIGHT - 320, 100, 20), Hazard),
        Platform(Rect(750, SCREEN_HEIGHT - 450, 100, 20), Goal) ]
    else
      []
  }

  /** Every stage the catalogue builds has exactly one goal platform. */
  lemma {:induction false} CatalogueHasOneGoal(number: int)
    requires number == 1 || number == 2
    ensures CountKind(Catalogue(number), Goal) == 1
  {
    CountKindSingle(Catalogue(number), Goal, if number == 1 then 1 else 8);
  }

  /** A list in which exactly one platform, at index `i`, has kind `k` counts one of that kind. */
  lemma {:induction false} CountKindSingle(ps: seq<Platform>, k: Kind, i: nat)
    requires i < |ps| && ps[i].kind == k
    requires forall j :: 0 <= j < |ps| && j != i ==> ps[j].kind != k
    ensures CountKind(ps, k) == 1
  {
    if i == 0 {
      forall p | p in ps[1..] ensures p.kind != k {
        var j :| 0 <= j < |ps| - 1 && ps[1..][j] == p;
        assert ps[j + 1] == p;
      }
    } else {
      CountKindSingle(ps[1..], k, i - 1);
    }
  }

  /** The stage number after `stage_down`: one less, except that 0 stays 0. */
  function Down(number: int): (r: int)
    ensures 0 <= number ==> 0 <= r <= number
    ensures r == number - 1 || r == number == 0
  {
    if number != 0 then number - 1 else number
  }

  /** The stage number after `k` consecutive `stage_down` calls. */
  function DownTimes(number: int, k: nat): int {
    if k == 0 then number else Down(DownTimes(number, k - 1))
  }

  /** Repeated `stage_down` counts down to 0 and stays there. */
  lemma {:induction false} DownTimesFloors(number: int, k: nat)
    requires 0 <= number
    ensures DownTimes(number, k) == if k <= number then number - k else 0
  {
    if k > 0 {
      DownTimesFloors(number, k - 1);
    }
  }

  /** `stage_down` undoes `stage_up` on every reachable stage number. */
  lemma UpThenDown(number: int)
    requires 0 <= number
    ensures Down(number + 1) == number
  {
  }

  /** The stage controller: the current stage number and the live platform list. */
  class Stage {
    var platforms: seq<Platform>
    var number: int

    /** The stage number never goes below 0. */
    predicate Valid()
      reads this
    {
      0 <= number
    }

    /** A controller over the (so far unbuilt) platform list, starting at stage 2. */
    constructor (platforms: seq<Platform>)
      ensures this.platforms == platforms && number == 2
      ensures Valid()
    {
      this.platforms := platforms;
      number := 2;
    }

    /** Empties the platform list and refills it from the catalogue entry of the current number. */
    method CreateStage()
      modifies this`platforms
      ensures platforms == Catalogue(number)
    {
      platforms := [];
      platforms := platforms + Catalogue(number);
    }

    /** Advances to the next stage and rebuilds it; the player is not touched. */
    method StageUp()
      modifies this
      ensures number == old(number) + 1
      ensures platforms == Catalogue(number)
      ensures old(Valid()) ==> Valid()
    {
      number := number + 1;
      CreateStage();
    }

    /** Goes back one stage, stopping at 0, and always rebuilds. */
    method StageDown()
      modifies this
      ensures number == Down(old(number))
      ensures platforms == Catalogue(number)
      ensures old(Valid()) ==> Valid()
    {
      if number != 0 {
        number := number - 1;
      }
      CreateStage();
    }
  }
}
