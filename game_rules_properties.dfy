/** What the store's transitions promise, proved about the pure model. */
module GameRulesProperties {
  import opened GameConstants
  import opened GameRules

  // ---------------------------------------------------------------------------
  // startGame and flap
  // ---------------------------------------------------------------------------

  lemma InitialState()
    ensures Initial().status == Idle && Initial().highScore == 0
    ensures Initial().bird == Bird(125.0, 400.0, 0.0)
    ensures Initial().pipes == [] && Initial().score == 0 && Initial().frameCount == 0
  {
  }

  /** From any status: a fresh run with the high score kept; doing it twice is
      doing it once, and the run being discarded makes no difference. */
  lemma StartGameResets(s: GameState, t: GameState)
    ensures Started(s).status == Playing
    ensures Started(s).bird == Bird(BIRD_START_X, BIRD_START_Y, 0.0)
    ensures Started(s).pipes == [] && Started(s).score == 0 && Started(s).frameCount == 0
    ensures Started(s).highScore == s.highScore
    ensures Started(Started(s)) == Started(s)
    ensures t.highScore == s.highScore ==> Started(t) == Started(s)
  {
  }

  /** Flap and the frame step do nothing outside `playing`. */
  lemma InactiveIsFrozen(s: GameState, random: RandomValue, now: int)
    requires s.status != Playing
    ensures Flapped(s) == s
    ensures Tick(s, random, now) == s
  {
  }

  /** The impulse replaces the velocity (it does not add to it), leaves the
      position alone, and a second flap changes nothing more. */
  lemma FlapReplacesVelocity(s: GameState)
    requires s.status == Playing
    ensures Flapped(s).bird == Bird(s.bird.x, s.bird.y, JUMP_STRENGTH)
    ensures Flapped(s) == s.(bird := Flapped(s).bird)
    ensures Flapped(Flapped(s)) == Flapped(s)
  {
  }

  // ---------------------------------------------------------------------------
  // Physics
  // ---------------------------------------------------------------------------

  lemma FallFromStart()
    ensures Fall(Bird(125.0, 400.0, 0.0)) == Bird(125.0, 400.5, 0.5)
  {
  }

  // ---------------------------------------------------------------------------
  // Pipe scrolling and removal
  // ---------------------------------------------------------------------------

  lemma ScrolledMovesEach(ps: seq<Pipe>, i: int)
    requires 0 <= i < |ps|
    ensures |Scrolled(ps)| == |ps|
    ensures Scrolled(ps)[i].x == ps[i].x - 3.0
    ensures Scrolled(ps)[i] == ps[i].(x := Scrolled(ps)[i].x)
  {
  }

  /** Filtering distributes over concatenation: survivors keep their order. */
  lemma {:induction false} VisibleAppend(a: seq<Pipe>, b: seq<Pipe>)
    ensures Visible(a + b) == Visible(a) + Visible(b)
    decreases |b|
  {
    if b == [] {
      assert a + b == a;
    } else {
      var b' := b[..|b| - 1];
      var last := b[|b| - 1];
      assert (a + b)[..|a + b| - 1] == a + b';
      assert (a + b)[|a + b| - 1] == last;
      VisibleAppend(a, b');
    }
  }

  /** A list whose pipes are all on screen is kept whole. */
  lemma {:induction false} VisibleKeepsOnScreen(ps: seq<Pipe>)
    requires forall p :: p in ps ==> OnScreen(p)
    ensures Visible(ps) == ps
    decreases |ps|
  {
    if ps != [] {
      VisibleKeepsOnScreen(ps[..|ps| - 1]);
      assert ps == ps[..|ps| - 1] + [ps[|ps| - 1]];
    }
  }

  /** Removing pipes never adds scored flags. */
  lemma {:induction false} VisibleCountScored(ps: seq<Pipe>)
    ensures CountScored(Visible(ps)) <= CountScored(ps)
    decreases |ps|
  {
    if ps != [] {
      var init := ps[..|ps| - 1];
      var last := ps[|ps| - 1];
      VisibleCountScored(init);
      assert ps == init + [last];
      if OnScreen(last) {
        CountScoredAppend(Visible(init), last);
      } else {
        assert Visible(ps) == Visible(init) + [];
        assert Visible(init) + [] == Visible(init);
      }
    }
  }

  /** The trailing-edge boundary: a pipe that lands on x = -PIPE_WIDTH goes,
      one that lands a unit to the right stays. */
  lemma RemovalBoundary()
    ensures Visible(Scrolled([Pipe(0, -77.0, 300.0, false)])) == []
    ensures Visible(Scrolled([Pipe(0, -76.0, 300.0, false)])) == [Pipe(0, -79.0, 300.0, false)]
    ensures Scrolled([Pipe(0, 80.0, 300.0, false)]) == [Pipe(0, 77.0, 300.0, false)]
  {
    assert Scrolled([Pipe(0, -77.0, 300.0, false)]) == [Pipe(0, -80.0, 300.0, false)];
    assert Scrolled([Pipe(0, -76.0, 300.0, false)]) == [Pipe(0, -79.0, 300.0, false)];
  }

  // ---------------------------------------------------------------------------
  // Spawning
  // ---------------------------------------------------------------------------

  lemma {:induction false} CountScoredAppend(ps: seq<Pipe>, p: Pipe)
    ensures CountScored(ps + [p]) == CountScored(ps) + (if p.scored then 1 else 0)
  {
    assert (ps + [p])[..|ps|] == ps;
  }

  /** A spawn appends exactly one unscored pipe at the right edge, with its
      gap inside [100, GAME_HEIGHT - 100]; otherwise the list is unchanged. */
  lemma SpawnAppendsOne(ps: seq<Pipe>, frame: nat, random: RandomValue, now: int)
    ensures SpawnDue(frame) ==>
      && Spawn(ps, frame, random, now)[..|ps|] == ps
      && |Spawn(ps, frame, random, now)| == |ps| + 1
      && var p := Spawn(ps, frame, random, now)[|ps|];
         p.x == GAME_WIDTH && !p.scored && p.id == now
         && 100.0 <= p.topHeight && p.topHeight + PIPE_GAP <= GAME_HEIGHT - 100.0
    ensures !SpawnDue(frame) ==> Spawn(ps, frame, random, now) == ps
  {
  }

  // ---------------------------------------------------------------------------
  // Scoring
  // ---------------------------------------------------------------------------

  /** Scoring touches only the flag: a passed pipe becomes scored, a scored
      pipe stays as it is, and nothing is reordered. */
  lemma ScoredFlags(ps: seq<Pipe>, birdX: real, i: int)
    requires 0 <= i < |ps|
    ensures |Scored(ps, birdX)| == |ps|
    ensures Scored(ps, birdX)[i].scored == (ps[i].scored || ps[i].x + PIPE_WIDTH < birdX)
    ensures Scored(ps, birdX)[i] == ps[i].(scored := Scored(ps, birdX)[i].scored)
    ensures ps[i].scored ==> Scored(ps, birdX)[i] == ps[i]
  {
  }

  /** The points credited equal the number of flags the pass turns on. */
  lemma {:induction false} ScoreCountsNewFlags(ps: seq<Pipe>, birdX: real)
    ensures CountScored(Scored(ps, birdX)) == CountScored(ps) + NewlyScored(ps, birdX)
    decreases |ps|
  {
    if ps != [] {
      var init := ps[..|ps| - 1];
      assert Scored(ps, birdX)[..|ps| - 1] == Scored(init, birdX);
      ScoreCountsNewFlags(init, birdX);
    }
  }

  lemma ScoringExample()
    ensures NewlyScored([Pipe(0, 44.0, 300.0, false)], 125.0) == 1
    ensures Scored([Pipe(0, 44.0, 300.0, false)], 125.0) == [Pipe(0, 44.0, 300.0, true)]
    ensures NewlyScored([Pipe(0, 45.0, 300.0, false)], 125.0) == 0
  {
    assert [Pipe(0, 44.0, 300.0, false)][..0] == [];
    assert [Pipe(0, 45.0, 300.0, false)][..0] == [];
  }

  // ---------------------------------------------------------------------------
  // Collision and the outcome of a frame
  // ---------------------------------------------------------------------------

  /** Touching the ceiling or the ground exactly is not a crash; one unit
      beyond is. */
  lemma BoundsAreStrict()
    ensures !OutOfBounds(15.0) && !OutOfBounds(785.0)
    ensures OutOfBounds(14.0) && OutOfBounds(786.0)
  {
  }

  /** A frame's two outcomes. On a crash only status and high score change,
      and the high score becomes the larger of itself and the frame's score.
      Otherwise the candidate is committed: semi-implicit physics, x fixed,
      one more frame, a score that has not dropped. */
  lemma TickOutcome(s: GameState, random: RandomValue, now: int)
    requires s.status == Playing
    ensures var c := Candidate(s, random, now);
      Crashed(c.pipes, s.bird.x, c.bird.y) ==>
        && Tick(s, random, now) == s.(status := GameOver, highScore := Tick(s, random, now).highScore)
        && Tick(s, random, now).status == GameOver
        && Tick(s, random, now).highScore >= s.highScore
        && Tick(s, random, now).highScore >= c.score
        && (Tick(s, random, now).highScore == s.highScore || Tick(s, random, now).highScore == c.score)
    ensures var c := Candidate(s, random, now);
      !Crashed(c.pipes, s.bird.x, c.bird.y) ==>
        && Tick(s, random, now) == c
        && c.status == Playing && c.highScore == s.highScore
        && c.bird.velocityY == s.bird.velocityY + GRAVITY
        && c.bird.y == s.bird.y + c.bird.velocityY
        && c.bird.x == s.bird.x
        && c.frameCount == s.frameCount + 1
        && c.score >= s.score
  {
  }

  lemma TickHighScoreMonotone(s: GameState, random: RandomValue, now: int)
    ensures Tick(s, random, now).highScore >= s.highScore
    ensures Tick(s, random, now).bird.x == s.bird.x
  {
  }

  /** A pipe passed on the fatal frame still counts toward the high score. */
  lemma ScoreBeforeCrash()
    ensures var s := GameState(Playing, Bird(125.0, 780.0, 10.0), [Pipe(1, 40.0, 300.0, false)], 0, 0, 0);
      Tick(s, 0.0, 0) == s.(status := GameOver, highScore := 1)
  {
    var s := GameState(Playing, Bird(125.0, 780.0, 10.0), [Pipe(1, 40.0, 300.0, false)], 0, 0, 0);
    var moved := [Pipe(1, 37.0, 300.0, false)];
    assert Scrolled(s.pipes) == moved;
    assert Visible(moved) == moved by {
      VisibleKeepsOnScreen(moved);
    }
    assert moved[..0] == [];
    assert NewlyScored(moved, 125.0) == 1;
    assert OutOfBounds(790.5);
  }

  // ---------------------------------------------------------------------------
  // The invariant
  // ---------------------------------------------------------------------------

  lemma InitialInv()
    ensures Inv(Initial())
  {
  }

  lemma StartedInv(s: GameState)
    ensures Inv(Started(s))
  {
  }

  lemma FlappedInv(s: GameState)
    requires Inv(s)
    ensures Inv(Flapped(s))
  {
  }

  /** Pipes that a frame keeps or spawns stay in range. */
  lemma MovedInRange(ps: seq<Pipe>, frame: nat, random: RandomValue, now: int)
    requires forall p :: p in ps ==> PipeInRange(p)
    ensures forall p :: p in Spawn(Visible(Scrolled(ps)), frame, random, now) ==> PipeInRange(p)
  {
    var scrolled := Scrolled(ps);
    var visible := Visible(scrolled);
    forall p | p in visible ensures PipeInRange(p) {
      var i :| 0 <= i < |scrolled| && scrolled[i] == p;
      assert ps[i] in ps;
    }
  }

  lemma ScoredInRange(ps: seq<Pipe>, birdX: real)
    requires forall p :: p in ps ==> PipeInRange(p)
    ensures forall p :: p in Scored(ps, birdX) ==> PipeInRange(p)
  {
    forall p | p in Scored(ps, birdX) ensures PipeInRange(p) {
      var i :| 0 <= i < |ps| && Scored(ps, birdX)[i] == p;
      assert ps[i] in ps;
    }
  }

  /** The score of a frame's candidate keeps up with its scored flags. */
  lemma CandidateCountScored(s: GameState, random: RandomValue, now: int)
    requires CountScored(s.pipes) <= s.score
    ensures CountScored(Candidate(s, random, now).pipes) <= Candidate(s, random, now).score
  {
    var frame := s.frameCount + 1;
    var scrolled := Scrolled(s.pipes);
    var visible := Visible(scrolled);
    var moved := Spawn(visible, frame, random, now);
    ScoreCountsNewFlags(moved, s.bird.x);
    VisibleCountScored(scrolled);
    ScrolledCountScored(s.pipes);
    if SpawnDue(frame) {
      CountScoredAppend(visible, NewPipe(random, now));
    }
  }

  lemma CandidateInv(s: GameState, random: RandomValue, now: int)
    requires Inv(s)
    ensures var c := Candidate(s, random, now);
      && c.bird.x == BIRD_START_X
      && (forall p :: p in c.pipes ==> PipeInRange(p))
      && CountScored(c.pipes) <= c.score
  {
    var moved := Spawn(Visible(Scrolled(s.pipes)), s.frameCount + 1, random, now);
    MovedInRange(s.pipes, s.frameCount + 1, random, now);
    ScoredInRange(moved, s.bird.x);
    CandidateCountScored(s, random, now);
  }

  /** Moving pipes never changes their flags. */
  lemma {:induction false} ScrolledCountScored(ps: seq<Pipe>)
    ensures CountScored(Scrolled(ps)) == CountScored(ps)
    decreases |ps|
  {
    if ps != [] {
      assert Scrolled(ps)[..|ps| - 1] == Scrolled(ps[..|ps| - 1]);
      ScrolledCountScored(ps[..|ps| - 1]);
    }
  }

  lemma TickInv(s: GameState, random: RandomValue, now: int)
    requires Inv(s)
    ensures Inv(Tick(s, random, now))
  {
    if s.status == Playing {
      CandidateInv(s, random, now);
    }
  }

  /** In a reachable state a pipe at the right edge exists after a frame
      iff the frame spawned one: it is then the last pipe, unscored. */
  lemma SpawnIffDue(s: GameState, random: RandomValue, now: int)
    requires Inv(s) && s.status == Playing
    ensures var c := Candidate(s, random, now);
      (exists i :: 0 <= i < |c.pipes| && c.pipes[i].x == GAME_WIDTH) <==> SpawnDue(c.frameCount)
    ensures var c := Candidate(s, random, now);
      SpawnDue(c.frameCount) ==>
        && |c.pipes| == |Visible(Scrolled(s.pipes))| + 1
        && c.pipes[|c.pipes| - 1] == NewPipe(random, now)
  {
    var c := Candidate(s, random, now);
    var scrolled := Scrolled(s.pipes);
    var visible := Visible(scrolled);
    var moved := Spawn(visible, c.frameCount, random, now);
    forall p | p in visible ensures p.x < GAME_WIDTH {
      var i :| 0 <= i < |scrolled| && scrolled[i] == p;
      assert s.pipes[i] in s.pipes;
    }
    if exists i :: 0 <= i < |c.pipes| && c.pipes[i].x == GAME_WIDTH {
      var i :| 0 <= i < |c.pipes| && c.pipes[i].x == GAME_WIDTH;
      if !SpawnDue(c.frameCount) {
        assert false;
      }
    }
    if SpawnDue(c.frameCount) {
      assert c.pipes[|c.pipes| - 1].x == GAME_WIDTH;
    }
  }
}
