/** The game's constants: screen, frame rate, player size and the physics numbers. */
module Config {
  const SCREEN_WIDTH: int := 800
  const SCREEN_HEIGHT: int := 600
  const FPS: int := 60

  /** Seconds after leaving a platform during which a jump is still accepted. */
  const COYOTE_TIME_LIMIT: real := 0.1

  /** One frame's time quantum, the coyote timer's increment. */
  const FRAME_TIME: real := 1.0 / (FPS as real)

  const PLAYER_WIDTH: int := 40
  const PLAYER_HEIGHT: int := 60
  const PLAYER_SPEED: int := 5
  const JUMP_STRENGTH: real := -15.0
  const GRAVITY: real := 0.8

  /** The cap on the falling speed applied after gravity. */
  const MAX_FALL_SPEED: real := 10.0

  /** Where a dead or fallen player is put back. */
  const SPAWN_X: int := 100
  const SPAWN_Y: int := 100
}
