/** The game store's state and its transitions as pure functions on values.
    The class in module GameStore is proved to change its fields exactly as
    these functions say; the properties of the game are lemmas about them
    (module GameRulesProperties). */
module GameRules {
  import opened GameConstants

  datatype Option<T> = None | Some(value: T)

  datatype GameStatus = Idle | Playing | GameOver

  datatype Bird = Bird(x: real, y: real, velocityY: real)

  /** `id` only keeps the rendered list stable; no rule reads it. */
  datatype Pipe = Pipe(id: int, x: real, topHeight: real, scored: bool)

  datatype GameState = GameState(
    status: GameStatus,
    bird: Bird,
    pipes: seq<Pipe>,
    score: nat,
    highScore: nat,
    frameCount: nat)

  /** A value that Math.random() can return. */
  type RandomValue = r: real | 0.0 <= r < 1.0

  // ---------------------------------------------------------------------------
  // Starting and flapping
  // ---------------------------------------------------------------------------

  function StartBird(): Bird {
    Bird(BIRD_START_X, BIRD_START_Y, 0.0)
  }

  /** The store as created: the initial run state and a high score of 0. */
  function Initial(): GameState {
    GameState(Idle, StartBird(), [], 0, 0, 0)
  }

  /** startGame: a fresh run that keeps the high score, whatever the status. */
  function Started(s: GameState): GameState {
    GameState(Playing, StartBird(), [], 0, s.highScore, 0)
  }

  /** flap: the jump impulse replaces the vertical velocity, only while playing. */
  function Flapped(s: GameState): GameState {
    if s.status == Playing then s.(bird := s.bird.(velocityY := JUMP_STRENGTH)) else s
  }

  // ---------------------------------------------------------------------------
  // One frame: physics, pipes, spawning, scoring, collision
  // ---------------------------------------------------------------------------

  /** Semi-implicit step: the new velocity moves the bird. */
  function Fall(b: Bird): Bird {
    var v := b.velocityY + GRAVITY;
    b.(y := b.y + v, velocityY := v)
  }

  function Scroll(p: Pipe): Pipe {
    p.(x := p.x + PIPE_SPEED)
  }

  /** Every pipe moved left by the pipe speed (the `map`). */
  function Scrolled(ps: seq<Pipe>): seq<Pipe> {
    seq(|ps|, i requires 0 <= i < |ps| => Scroll(ps[i]))
  }

  /** A pipe is kept while its left edge is strictly right of -PIPE_WIDTH. */
  predicate OnScreen(p: Pipe) {
    p.x > -PIPE_WIDTH
  }

  /** The pipes that are kept, in their original order (the `filter`). */
  function Visible(ps: seq<Pipe>): (r: seq<Pipe>)
    ensures |r| <= |ps|
    ensures forall p :: p in r <==> p in ps && OnScreen(p)
  {
    if ps == [] then []
    else
      var last := ps[|ps| - 1];
      assert ps == ps[..|ps| - 1] + [last];
      Visible(ps[..|ps| - 1]) + (if OnScreen(last) then [last] else [])
  }

  /** The gap height `runGameLoop` draws from a random value. */
  function TopHeight(random: RandomValue): (h: real)
    ensures 100.0 <= h < GAME_HEIGHT - PIPE_GAP - 100.0
    ensures 100.0 <= h && h + PIPE_GAP < GAME_HEIGHT - 100.0
  {
    random * (GAME_HEIGHT - PIPE_GAP - 200.0) + 100.0
  }

  function NewPipe(random: RandomValue, now: int): Pipe {
    Pipe(now, GAME_WIDTH, TopHeight(random), false)
  }

  predicate SpawnDue(frame: nat) {
    frame % PIPE_SPAWN_FRAME_COUNT == 0
  }

  /** The pipe list after spawning on frame `frame`. */
  function Spawn(ps: seq<Pipe>, frame: nat, random: RandomValue, now: int): seq<Pipe> {
    if SpawnDue(frame) then ps + [NewPipe(random, now)] else ps
  }

  /** An unscored pipe whose right edge is strictly left of the bird's x. */
  predicate Passed(p: Pipe, birdX: real) {
    !p.scored && p.x + PIPE_WIDTH < birdX
  }

  function ScoreOne(p: Pipe, birdX: real): Pipe {
    if Passed(p, birdX) then p.(scored := true) else p
  }

  /** The pipe list after the scoring pass. */
  function Scored(ps: seq<Pipe>, birdX: real): seq<Pipe> {
    seq(|ps|, i requires 0 <= i < |ps| => ScoreOne(ps[i], birdX))
  }

  /** How many pipes the scoring pass credits. */
  function NewlyScored(ps: seq<Pipe>, birdX: real): nat {
    if ps == [] then 0
    else NewlyScored(ps[..|ps| - 1], birdX) + (if Passed(ps[|ps| - 1], birdX) then 1 else 0)
  }

  /** How many pipes of a list carry the scored flag. */
  function CountScored(ps: seq<Pipe>): nat {
    if ps == [] then 0
    else CountScored(ps[..|ps| - 1]) + (if ps[|ps| - 1].scored then 1 else 0)
  }

  /** Ground or ceiling: the bird's box sticks strictly out of the playfield. */
  predicate OutOfBounds(birdY: real) {
    birdY + BIRD_SIZE / 2.0 > GAME_HEIGHT || birdY - BIRD_SIZE / 2.0 < 0.0
  }

  /** The bird's box overlaps the pipe horizontally and does not fit in its gap. */
  predicate HitsPipe(p: Pipe, birdX: real, birdY: real) {
    var birdRight := birdX + BIRD_SIZE / 2.0;
    var birdLeft := birdX - BIRD_SIZE / 2.0;
    var birdTop := birdY - BIRD_SIZE / 2.0;
    var birdBottom := birdY + BIRD_SIZE / 2.0;
    && birdRight > p.x
    && birdLeft < p.x + PIPE_WIDTH
    && (birdTop < p.topHeight || birdBottom > p.topHeight + PIPE_GAP)
  }

  predicate HitsSomePipe(ps: seq<Pipe>, birdX: real, birdY: real) {
    exists i :: 0 <= i < |ps| && HitsPipe(ps[i], birdX, birdY)
  }

  predicate Crashed(ps: seq<Pipe>, birdX: real, birdY: real) {
    OutOfBounds(birdY) || HitsSomePipe(ps, birdX, birdY)
  }

  /** Everything a frame computes before the collision check decides whether
      it is committed. */
  function Candidate(s: GameState, random: RandomValue, now: int): GameState {
    var frame := s.frameCount + 1;
    var moved := Spawn(Visible(Scrolled(s.pipes)), frame, random, now);
    s.(bird := Fall(s.bird),
       pipes := Scored(moved, s.bird.x),
       score := s.score + NewlyScored(moved, s.bird.x),
       frameCount := frame)
  }

  /** runGameLoop: nothing happens unless playing; a crash keeps the old run
      state, ends the run and raises the high score to the frame's score;
      otherwise the candidate is committed. */
  function Tick(s: GameState, random: RandomValue, now: int): GameState {
    if s.status != Playing then s
    else
      var c := Candidate(s, random, now);
      if Crashed(c.pipes, s.bird.x, c.bird.y) then
        s.(status := GameOver, highScore := if c.score > s.highScore then c.score else s.highScore)
      else c
  }

  // ---------------------------------------------------------------------------
  // The invariant every reachable state keeps
  // ---------------------------------------------------------------------------

  /** A pipe between the playfield's edges with a gap the spawner can draw. */
  ghost predicate PipeInRange(p: Pipe) {
    && -PIPE_WIDTH < p.x <= GAME_WIDTH
    && 100.0 <= p.topHeight < GAME_HEIGHT - PIPE_GAP - 100.0
  }

  /** Bird x at its start column; every pipe on screen, spawned with an
      in-range gap; the score at least the number of scored pipes still shown;
      an idle store holds no run; a finished run never beats the high score. */
  ghost predicate Inv(s: GameState) {
    && s.bird.x == BIRD_START_X
    && (forall p :: p in s.pipes ==> PipeInRange(p))
    && CountScored(s.pipes) <= s.score
    && (s.status == Idle ==> s.pipes == [] && s.score == 0 && s.frameCount == 0)
    && (s.status == GameOver ==> s.score <= s.highScore)
  }
}
