/** Fixed configuration of the playfield, the bird, physics and pipes.
    All lengths are in pixels, all speeds in pixels per frame. Every value is a
    dyadic rational, so each constant is represented exactly as a `real`. */
module GameConstants {
  // Game area
  const GAME_WIDTH: real := 500.0
  const GAME_HEIGHT: real := 800.0

  // Bird
  const BIRD_SIZE: real := 30.0
  const BIRD_START_X: real := GAME_WIDTH / 4.0
  const BIRD_START_Y: real := GAME_HEIGHT / 2.0

  // Physics
  const GRAVITY: real := 0.5
  const JUMP_STRENGTH: real := -8.0

  // Pipes
  const PIPE_WIDTH: real := 80.0
  const PIPE_GAP: real := 200.0
  const PIPE_SPEED: real := -3.0
  /** A new pipe is spawned every this many frames. */
  const PIPE_SPAWN_FRAME_COUNT: nat := 100
}
