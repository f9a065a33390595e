# Flappy Funster game store, modelled in Dafny

This project models the simulation core of a single-screen Flappy-Bird-style game.
The core is a store with three actions:

- `startGame` begins a fresh run.
- `flap` gives the bird its upward impulse.
- `runGameLoop` advances one animation frame. It integrates gravity, scrolls and removes pipes, spawns a pipe every 100 frames, credits passed pipes, and checks ground, ceiling and pipe collisions. It then commits the frame, or ends the run and raises the high score.

The model also covers the page's side of the contract with the store:

- the dispatch of a user action to `flap` or `startGame`;
- the clamp on the bird's tilt;
- the rectangles each pipe is drawn as.

Files and modules:

- `game_constants.dfy` (`GameConstants`): the configuration constants, as exact `real`s.
- `game_rules.dfy` (`GameRules`): the types `GameStatus`, `Bird`, `Pipe` and `GameState`, and each transition as a pure function on states.
  - `Started`, `Flapped` and `Tick` are the three actions.
  - `Candidate` is everything a frame computes before its collision check.
  - `Inv` is the invariant every reachable state keeps.
- `game_rules_properties.dfy` (`GameRulesProperties`): the lemmas that state what those transitions promise.
- `game_store.dfy` (`GameStore`): the store as a class `Store`. Its fields are those of `GameState`, and it has one method per action.
  - Each method is proved to change the fields exactly as its pure counterpart says, and to keep `Inv`.
  - The frame's two loops are the methods `ScorePipes` and `DetectCollision`. `ScorePipes` is the `forEach` that flags pipes and counts points. `DetectCollision` is the `for … break` collision scan.
- `home_page.dfy` (`HomePage`): the rotation clamp, the bird and pipe rectangles, and `HandleUserAction`.
  - `Run` replays a sequence of user actions and frames through the store. Lemmas about it cover whole games.

Non-determinism is passed in as parameters:

- `random` stands for the frame's `Math.random()` draw. It has the subset type `RandomValue`, which is `0 <= r < 1`. The gap height is computed from it with the formula `runGameLoop` uses, and the range `[100, 500)` is proved, not assumed.
- `now` stands for `Date.now()`, which is used only as the new pipe's id.
- The high-score write to `localStorage` is the out-parameter `stored` of `RunGameLoop`. It is `Some(h)` exactly when the high score rises, where `h` is the new high score (the score the fatal frame computed).

Two behaviours of the code worth noting:

- The score can exceed the number of pipes still flagged scored. Scored pipes scroll off and are filtered out, but their points stay. So `Inv` carries `CountScored(pipes) <= score`, and `TickInv` proves it is preserved.
- On the frame that ends a run, the points credited that frame reach `highScore` but not `score`, because `score` is not committed. So the Game Over card can show Score 0 beside High Score 1 (`ScoreBeforeCrash`). The model keeps this behaviour as written.

## Model

| member | source | states |
|---|---|---|
| `GameStore.Store.constructor` | src/hooks/useGameStore.ts:41-54 | a new store is idle, with the bird at (125, 400) at rest, no pipes, and score, frame count and high score 0; it satisfies the invariant |
| `GameStore.Store.StartGame` | src/hooks/useGameStore.ts:61-68 | from any status the fields become a fresh playing run; only the high score is kept |
| `GameStore.Store.Flap` | src/hooks/useGameStore.ts:69-79 | while playing, only the bird's vertical velocity changes, and it becomes JUMP_STRENGTH; otherwise nothing changes |
| `GameStore.Store.RunGameLoop` | src/hooks/useGameStore.ts:80-145 | the fields change exactly as one frame of `Tick` says, and the invariant is kept; the saved high score is written, with the new value, exactly when the high score rises |
| `GameStore.ScorePipes` | src/hooks/useGameStore.ts:96-102 | the loop flags every unscored pipe whose right edge is strictly left of the bird, and adds one point per flag |
| `GameStore.DetectCollision` | src/hooks/useGameStore.ts:104-130 | the result is true iff the bird is out of bounds or some pipe overlaps it horizontally while the bird sticks out of that pipe's gap |
| `GameRules.Visible` | src/hooks/useGameStore.ts:89 | a pipe is kept iff it is in the list and its x is strictly greater than -PIPE_WIDTH; the list never grows |
| `GameRules.TopHeight` | src/hooks/useGameStore.ts:92 | a spawned gap starts in [100, 500), so the gap [top, top + 200] lies within [100, 700] |
| `GameRulesProperties.InitialState` | src/hooks/useGameStore.ts:41-51 | the initial status is idle, with the bird at (125, 400) at rest, no pipes, and zero score, frame count and high score |
| `GameRulesProperties.StartGameResets` | src/hooks/useGameStore.ts:61-68 | startGame yields a playing run with zero score and frames, no pipes, and the bird at its start at rest, keeping the high score; starting twice equals starting once; the discarded run makes no difference |
| `GameRulesProperties.InactiveIsFrozen` | src/hooks/useGameStore.ts:69-82 | when not playing, both flap and the frame step leave the state unchanged |
| `GameRulesProperties.FlapReplacesVelocity` | src/hooks/useGameStore.ts:69-79 | while playing, flap sets the velocity to -8 whatever it was, keeps x and y and every other field, and a second flap changes nothing |
| `GameRulesProperties.FallFromStart` | src/hooks/useGameStore.ts:84-85 | one gravity step from y=400, v=0 gives v=0.5 and y=400.5 |
| `GameRulesProperties.ScrolledMovesEach` | src/hooks/useGameStore.ts:88 | every pipe's x decreases by exactly 3, and nothing else about it changes |
| `GameRulesProperties.VisibleAppend` | src/hooks/useGameStore.ts:87-89 | filtering commutes with concatenation, so survivors keep their relative order |
| `GameRulesProperties.VisibleKeepsOnScreen` | src/hooks/useGameStore.ts:89 | when every pipe passes the test, the filter keeps the whole list |
| `GameRulesProperties.VisibleCountScored` | src/hooks/useGameStore.ts:89 | removing pipes never increases the number of scored flags |
| `GameRulesProperties.RemovalBoundary` | src/hooks/useGameStore.ts:87-89 | a pipe at x=80 moves to 77; a pipe landing exactly on x=-80 is removed; one landing on -79 stays |
| `GameRulesProperties.CountScoredAppend` | src/hooks/useGameStore.ts:93 | appending a pipe adds one scored flag if it is scored, and none otherwise |
| `GameRulesProperties.SpawnAppendsOne` | src/hooks/useGameStore.ts:90-94 | on a spawn frame, exactly one unscored pipe is appended after the old list, at x=GAME_WIDTH with id `now`, its gap within [100, 700]; on any other frame the list is unchanged |
| `GameRulesProperties.SpawnIffDue` | src/hooks/useGameStore.ts:90-94 | in a reachable playing state, a frame's pipes include one at the right edge iff the new frame count is a multiple of 100; that pipe is then the last one, and exactly one was added |
| `GameRulesProperties.ScoredFlags` | src/hooks/useGameStore.ts:97-101 | scoring keeps the length and order; a pipe's flag becomes true iff it was already set or the pipe's right edge is strictly left of the bird; scored pipes are untouched and no other field changes |
| `GameRulesProperties.ScoreCountsNewFlags` | src/hooks/useGameStore.ts:96-102 | the points a frame adds equal the number of flags the pass turns on |
| `GameRulesProperties.ScoringExample` | src/hooks/useGameStore.ts:98-100 | a pipe with right edge 124 and the bird at x=125 is flagged and gives one point; a pipe with right edge 125 gives none |
| `GameRulesProperties.BoundsAreStrict` | src/hooks/useGameStore.ts:106-111 | a bird box exactly touching the ceiling (y=15) or the ground (y=785) has not crashed; one unit beyond has |
| `GameRulesProperties.TickOutcome` | src/hooks/useGameStore.ts:104-144 | on a crash only the status changes, to gameOver, and the high score becomes max(old high score, frame score); otherwise the frame is committed: v' = v + 0.5, y' = y + v', x unchanged, frame count + 1, score not lower, high score kept |
| `GameRulesProperties.TickHighScoreMonotone` | src/hooks/useGameStore.ts:131-136 | a frame never lowers the high score and never moves the bird's x |
| `GameRulesProperties.ScoreBeforeCrash` | src/hooks/useGameStore.ts:96-136 | a pipe passed on the frame the bird hits the ground still raises the high score, while the committed score stays at its old value |
| `GameRulesProperties.InitialInv` | src/hooks/useGameStore.ts:41-54 | the initial state satisfies the invariant |
| `GameRulesProperties.StartedInv` | src/hooks/useGameStore.ts:61-68 | startGame establishes the invariant from any state |
| `GameRulesProperties.FlappedInv` | src/hooks/useGameStore.ts:69-79 | flap keeps the invariant |
| `GameRulesProperties.MovedInRange` | src/hooks/useGameStore.ts:87-94 | pipes that survive scrolling or are spawned stay within (-80, 500] with a gap start in [100, 500) |
| `GameRulesProperties.CandidateCountScored` | src/hooks/useGameStore.ts:87-102 | after a frame's pipe and scoring steps, the score is still at least the number of scored pipes shown |
| `GameRulesProperties.CandidateInv` | src/hooks/useGameStore.ts:84-102 | the state a frame computes keeps the bird at x=125, every pipe in range, and the score at least the number of scored pipes |
| `GameRulesProperties.TickInv` | src/hooks/useGameStore.ts:80-145 | a frame keeps the invariant, including after a crash, where the final score is at most the high score |
| `HomePage.Rotation` | src/pages/HomePage.tsx:15 | the tilt always lies in [-25, 90]; it equals 5 times the velocity when that is in range, and otherwise the nearer bound |
| `HomePage.BirdBox` | src/pages/HomePage.tsx:19-23 | the drawn bird is a BIRD_SIZE square centred on the bird's position |
| `HomePage.PipeRects` | src/pages/HomePage.tsx:36-51 | the top rectangle spans [0, topHeight) and the bottom one starts at topHeight + PIPE_GAP and reaches the ground, so top + gap + bottom heights sum to GAME_HEIGHT |
| `HomePage.BirdBoxMatchesCollision` | src/pages/HomePage.tsx:20-21 | the drawn box has the left and top edges the collision check uses, and leaves the playfield exactly when the bounds check fires |
| `HomePage.HitsPipeIffDrawnOverlap` | src/pages/HomePage.tsx:34-52 | while the bird is inside the playfield, the pipe collision test fires iff the drawn bird box overlaps one of the two drawn pipe rectangles |
| `HomePage.HandleUserAction` | src/pages/HomePage.tsx:171-178 | an action while playing only flaps; from idle or game over it only starts a run; the invariant is kept |
| `HomePage.UserActionDispatch` | src/pages/HomePage.tsx:173-176 | the action is the flap while playing and the start otherwise, so it always leads to playing with the high score kept |
| `HomePage.MaxOf` | src/hooks/useGameStore.ts:132-135 | the result is at least the start value and every element, and is one of them |
| `HomePage.RunKeepsInv` | src/pages/HomePage.tsx:157-178 | any sequence of user actions and frames keeps the invariant |
| `HomePage.ReachableInv` | src/hooks/useGameStore.ts:139-144 | every state reachable from the initial one satisfies the invariant; in particular the bird's x stays at 125 |
| `HomePage.RunHighScoreIsBest` | src/hooks/useGameStore.ts:131-136 | after any sequence of actions and frames, the high score is the maximum of the starting high score and the score computed on each fatal frame (which can exceed the `score` shown at game over, see `ScoreBeforeCrash`), so it never decreases |

## Left out

- `loadHighScore` (src/hooks/useGameStore.ts:55-60) is left out. It reads browser storage and parses the result with `parseInt`, which is a foreign call with a NaN case. The model starts from a high score of 0.
- The `localStorage.setItem` call on game over is modelled only as the value `stored` that `RunGameLoop` returns. Storage failures are not modelled.
- `Math.random()` and `Date.now()` are foreign calls. They become the parameters `random` and `now`.
- The zustand `create`, `set` and `get` machinery and subscriptions are left out. `set` is modelled as field assignment on one `Store` object.
- The `requestAnimationFrame` loop, its cancellation, the keyboard and pointer listeners, and `preventDefault` are browser scheduling and event plumbing. `Run` models their effect as an arbitrary sequence of frames and user actions.
- React, framer-motion and UI rendering are left out, apart from the rectangle and rotation arithmetic.
- IEEE-754 doubles are modelled as exact `real`s, and counters as unbounded `nat`s. Every constant is dyadic, but rounding after many frames, NaN, and precision loss past 2^53 are not modelled.
- HomePage.HandleUserAction reads the store's current status. The page's `handleUserAction` reads the status captured at the page's last render, and the model does not capture that a stale status can differ from the store's.
