/** The zustand store: one mutable object whose fields the three actions
    overwrite. Each action is proved to change the fields exactly as its pure
    counterpart in GameRules says, and to keep the invariant GameRules.Inv. */
module GameStore {
  import opened GameConstants
  import opened GameRules
  import opened GameRulesProperties

  /** The scoring pass of a frame: every unscored pipe whose right edge is
      strictly left of the bird is flagged, and each one flagged adds a point. */
  method ScorePipes(pipes: seq<Pipe>, birdX: real, score: nat) returns (newPipes: seq<Pipe>, newScore: nat)
    ensures newPipes == Scored(pipes, birdX)
    ensures newScore == score + NewlyScored(pipes, birdX)
  {
    newPipes := pipes;
    newScore := score;
    var i := 0;
    while i < |newPipes|
      invariant 0 <= i <= |pipes| == |newPipes|
      invariant forall k :: 0 <= k < i ==> newPipes[k] == ScoreOne(pipes[k], birdX)
      invariant forall k :: i <= k < |pipes| ==> newPipes[k] == pipes[k]
      invariant newScore == score + NewlyScored(pipes[..i], birdX)
    {
      var pipe := newPipes[i];
      if !pipe.scored && pipe.x + PIPE_WIDTH < birdX {
        newPipes := newPipes[i := pipe.(scored := true)];
        newScore := newScore + 1;
      }
      assert pipes[..i + 1][..i] == pipes[..i];
      i := i + 1;
    }
    assert pipes[..|pipes|] == pipes;
  }

  /** The collision check of a frame: ground and ceiling first, then the pipes
      in list order, stopping at the first one the bird hits. */
  method DetectCollision(pipes: seq<Pipe>, birdX: real, newBirdY: real) returns (isGameOver: bool)
    ensures isGameOver <==> Crashed(pipes, birdX, newBirdY)
  {
    isGameOver := false;
    if newBirdY + BIRD_SIZE / 2.0 > GAME_HEIGHT || newBirdY - BIRD_SIZE / 2.0 < 0.0 {
      isGameOver := true;
    }
    var i := 0;
    while i < |pipes|
      invariant 0 <= i <= |pipes|
      invariant isGameOver <==> OutOfBounds(newBirdY) || exists k :: 0 <= k < i && HitsPipe(pipes[k], birdX, newBirdY)
    {
      var pipe := pipes[i];
      var birdRight := birdX + BIRD_SIZE / 2.0;
      var birdLeft := birdX - BIRD_SIZE / 2.0;
      var birdTop := newBirdY - BIRD_SIZE / 2.0;
      var birdBottom := newBirdY + BIRD_SIZE / 2.0;
      var pipeRight := pipe.x + PIPE_WIDTH;
      var pipeLeft := pipe.x;
      var pipeTopEnd := pipe.topHeight;
      var pipeBottomStart := pipe.topHeight + PIPE_GAP;
      if birdRight > pipeLeft && birdLeft < pipeRight && (birdTop < pipeTopEnd || birdBottom > pipeBottomStart) {
        assert HitsPipe(pipes[i], birdX, newBirdY);
        isGameOver := true;
        break;
      }
      i := i + 1;
    }
  }

  class Store {
    var status: GameStatus
    var bird: Bird
    var pipes: seq<Pipe>
    var score: nat
    var highScore: nat
    var frameCount: nat

    /** The fields as one value. */
    function State(): GameState
      reads this
    {
      GameState(status, bird, pipes, score, highScore, frameCount)
    }

    ghost predicate Valid()
      reads this
    {
      Inv(State())
    }

    /** The store as created, before any saved high score is loaded. */
    constructor ()
      ensures State() == Initial()
      ensures Valid()
    {
      status := Idle;
      bird := Bird(BIRD_START_X, BIRD_START_Y, 0.0);
      pipes := [];
      score := 0;
      highScore := 0;
      frameCount := 0;
      InitialInv();
    }

    method StartGame()
      modifies this
      ensures State() == Started(old(State()))
      ensures Valid()
    {
      status := Playing;
      bird := Bird(BIRD_START_X, BIRD_START_Y, 0.0);
      pipes := [];
      score := 0;
      frameCount := 0;
      StartedInv(State());
    }

    method Flap()
      requires Valid()
      modifies this
      ensures State() == Flapped(old(State()))
      ensures Valid()
    {
      ghost var before := State();
      if status == Playing {
        bird := bird.(velocityY := JUMP_STRENGTH);
      }
      FlappedInv(before);
    }

    /** One frame. `random` is the frame's draw of Math.random() and `now` the
        clock reading used as a new pipe's id. `stored` is the value written to
        the saved high score, written exactly when the high score rises. */
    method RunGameLoop(random: RandomValue, now: int) returns (stored: Option<nat>)
      requires Valid()
      modifies this
      ensures State() == Tick(old(State()), random, now)
      ensures Valid()
      ensures stored == if highScore > old(highScore) then Some(highScore) else None
    {
      ghost var before := State();
      TickInv(before, random, now);
      stored := None;
      if status != Playing {
        return;
      }
      // Bird physics
      var newVelocityY := bird.velocityY + GRAVITY;
      var newBirdY := bird.y + newVelocityY;
      // Pipes
      var newPipes := Visible(Scrolled(pipes));
      var newFrameCount := frameCount + 1;
      if newFrameCount % PIPE_SPAWN_FRAME_COUNT == 0 {
        var topHeight := random * (GAME_HEIGHT - PIPE_GAP - 200.0) + 100.0;
        newPipes := newPipes + [Pipe(now, GAME_WIDTH, topHeight, false)];
      }
      // Scoring
      var newScore;
      newPipes, newScore := ScorePipes(newPipes, bird.x, score);
      // Collision
      var isGameOver := DetectCollision(newPipes, bird.x, newBirdY);
      if isGameOver {
        if newScore > highScore {
          stored := Some(newScore);
          highScore := newScore;
        }
        status := GameOver;
        return;
      }
      bird := bird.(y := newBirdY, velocityY := newVelocityY);
      pipes := newPipes;
      score := newScore;
      frameCount := newFrameCount;
    }
  }
}
