/** What the page adds to the store: the geometry it draws, the tilt of the
    bird, and the dispatch of a user action (pointer press or Space) to the
    store. A run of the whole game is a sequence of such actions and frames. */
module HomePage {
  import opened GameConstants
  import opened GameRules
  import opened GameRulesProperties
  import opened GameStore

  function Min(a: real, b: real): real {
    if a <= b then a else b
  }

  function Max(a: real, b: real): real {
    if a >= b then a else b
  }

  /** The bird's tilt in degrees: five times its vertical speed, clamped. */
  function Rotation(velocityY: real): (r: real)
    ensures -25.0 <= r <= 90.0
    ensures -25.0 <= velocityY * 5.0 <= 90.0 ==> r == velocityY * 5.0
    ensures velocityY * 5.0 < -25.0 ==> r == -25.0
    ensures velocityY * 5.0 > 90.0 ==> r == 90.0
  {
    Min(Max(-25.0, velocityY * 5.0), 90.0)
  }

  /** An axis-aligned box: left and top edges, width and height. */
  datatype Rect = Rect(left: real, top: real, width: real, height: real)

  /** Two boxes share interior points. */
  predicate Overlaps(a: Rect, b: Rect) {
    && a.left < b.left + b.width && b.left < a.left + a.width
    && a.top < b.top + b.height && b.top < a.top + a.height
  }

  /** The bird's box, centred on its position. */
  function BirdBox(b: Bird): (r: Rect)
    ensures r.width == BIRD_SIZE && r.height == BIRD_SIZE
    ensures r.left + r.width / 2.0 == b.x && r.top + r.height / 2.0 == b.y
  {
    Rect(b.x - BIRD_SIZE / 2.0, b.y - BIRD_SIZE / 2.0, BIRD_SIZE, BIRD_SIZE)
  }

  /** The upper and lower pipe of an obstacle: they tile the column from the
      top of the playfield to the gap and from the gap to the ground. */
  function PipeRects(p: Pipe): (r: (Rect, Rect))
    ensures r.0.left == p.x && r.1.left == p.x
    ensures r.0.width == PIPE_WIDTH && r.1.width == PIPE_WIDTH
    ensures r.0.top == 0.0 && r.0.top + r.0.height == p.topHeight
    ensures r.1.top == r.0.top + r.0.height + PIPE_GAP
    ensures r.1.top + r.1.height == GAME_HEIGHT
    ensures r.0.height + PIPE_GAP + r.1.height == GAME_HEIGHT
  {
    (Rect(p.x, 0.0, PIPE_WIDTH, p.topHeight),
     Rect(p.x, p.topHeight + PIPE_GAP, PIPE_WIDTH, GAME_HEIGHT - p.topHeight - PIPE_GAP))
  }

  /** The drawn bird box has the edges the collision check uses. */
  lemma BirdBoxMatchesCollision(b: Bird, p: Pipe)
    ensures BirdBox(b).left == b.x - BIRD_SIZE / 2.0 && BirdBox(b).top == b.y - BIRD_SIZE / 2.0
    ensures OutOfBounds(b.y) <==> BirdBox(b).top < 0.0 || BirdBox(b).top + BirdBox(b).height > GAME_HEIGHT
  {
  }

  /** While the bird is inside the playfield, it hits a pipe exactly when its
      drawn box overlaps one of the two drawn pipe rectangles. */
  lemma HitsPipeIffDrawnOverlap(b: Bird, p: Pipe)
    requires !OutOfBounds(b.y)
    ensures HitsPipe(p, b.x, b.y) <==> Overlaps(BirdBox(b), PipeRects(p).0) || Overlaps(BirdBox(b), PipeRects(p).1)
  {
  }

  // ---------------------------------------------------------------------------
  // User actions
  // ---------------------------------------------------------------------------

  /** A user action: flap while playing, otherwise start a new run. */
  function UserAction(s: GameState): GameState {
    match s.status
    case Playing => Flapped(s)
    case Idle | GameOver => Started(s)
  }

  method HandleUserAction(store: Store)
    requires store.Valid()
    modifies store
    ensures store.State() == UserAction(old(store.State()))
    ensures store.Valid()
  {
    if store.status == Playing {
      store.Flap();
    } else if store.status == Idle || store.status == GameOver {
      store.StartGame();
    }
  }

  /** While playing an action only flaps; from idle or game over it only
      starts, so it always leads to `playing`. */
  lemma UserActionDispatch(s: GameState)
    ensures s.status == Playing ==> UserAction(s) == Flapped(s)
    ensures s.status != Playing ==> UserAction(s) == Started(s)
    ensures UserAction(s).status == Playing
    ensures UserAction(s).highScore == s.highScore
  {
  }

  // ---------------------------------------------------------------------------
  // Runs of the game
  // ---------------------------------------------------------------------------

  /** What drives the store: a user action, or an animation frame with that
      frame's random draw and clock reading. */
  datatype Event = Press | Frame(random: RandomValue, now: int)

  function Step(s: GameState, e: Event): GameState {
    match e
    case Press => UserAction(s)
    case Frame(random, now) => Tick(s, random, now)
  }

  function Run(s: GameState, events: seq<Event>): GameState
    decreases |events|
  {
    if events == [] then s else Run(Step(s, events[0]), events[1..])
  }

  /** The event ends a run. */
  predicate EndsRun(s: GameState, e: Event) {
    s.status == Playing && Step(s, e).status == GameOver
  }

  /** The score a run reached on the frame that ended it. */
  function FinalScore(s: GameState, e: Event): nat
    requires e.Frame?
  {
    Candidate(s, e.random, e.now).score
  }

  /** The scores computed on the frames that end runs during the events, in
      order (on such a frame the committed `score` keeps its old value). */
  function FinalScores(s: GameState, events: seq<Event>): seq<nat>
    decreases |events|
  {
    if events == [] then []
    else
      var e := events[0];
      (if EndsRun(s, e) && e.Frame? then [FinalScore(s, e)] else [])
      + FinalScores(Step(s, e), events[1..])
  }

  /** The largest of `h` and the elements of `xs`. */
  function MaxOf(h: nat, xs: seq<nat>): (r: nat)
    ensures r >= h
    ensures forall x :: x in xs ==> r >= x
    ensures r == h || r in xs
    decreases |xs|
  {
    if xs == [] then h
    else
      assert xs == [xs[0]] + xs[1..];
      MaxOf(if xs[0] > h then xs[0] else h, xs[1..])
  }

  lemma {:induction false} RunKeepsInv(s: GameState, events: seq<Event>)
    requires Inv(s)
    ensures Inv(Run(s, events))
    decreases |events|
  {
    if events != [] {
      var e := events[0];
      match e {
        case Press =>
          if s.status == Playing { FlappedInv(s); } else { StartedInv(s); }
        case Frame(random, now) =>
          TickInv(s, random, now);
      }
      RunKeepsInv(Step(s, e), events[1..]);
    }
  }

  /** Every state the page can reach keeps the invariant: in particular the
      bird never leaves its start column. */
  lemma ReachableInv(events: seq<Event>)
    ensures Inv(Run(Initial(), events))
    ensures Run(Initial(), events).bird.x == BIRD_START_X
  {
    InitialInv();
    RunKeepsInv(Initial(), events);
  }

  /** The high score after any events is the best of the starting high score
      and the scores computed on the frames that ended runs; so it never
      decreases. */
  lemma {:induction false} RunHighScoreIsBest(s: GameState, events: seq<Event>)
    ensures Run(s, events).highScore == MaxOf(s.highScore, FinalScores(s, events))
    ensures Run(s, events).highScore >= s.highScore
    decreases |events|
  {
    if events != [] {
      var e := events[0];
      var rest := events[1..];
      var t := Step(s, e);
      RunHighScoreIsBest(t, rest);
      if EndsRun(s, e) && e.Frame? {
        var f := FinalScore(s, e);
        assert t.highScore == if f > s.highScore then f else s.highScore;
        var xs := [f] + FinalScores(t, rest);
        assert xs[1..] == FinalScores(t, rest);
      } else {
        assert t.highScore == s.highScore;
        assert [] + FinalScores(t, rest) == FinalScores(t, rest);
      }
    }
  }
}
