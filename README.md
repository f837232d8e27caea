# Apple-catching game and leaderboard — a Dafny model

This project models the logic of a small browser game in which the player
moves a basket to catch falling apples. Finished scores go to an on-chain
leaderboard. Three parts are modelled:

- **The game session** (`GameCanvas.Game`, module `GameCanvas`). A class
  holds the component's state: running and paused flags, score, lives, the
  apples, basket position, field width, fall speed, spawn interval, elapsed
  seconds and whether the elapsed-seconds interval is installed. The class
  has one method per handler: start or restart, pause toggle, key press, tap,
  spawn, physics tick, elapsed tick, difficulty recompute, hearts indicator
  and end of the pop animation. Timers are not modelled; each timer run is a
  call to the matching method. `reported` logs every score passed to the
  game-over callback (and to the on-chain submission next to it).
- **The dashboard's leaderboard bookkeeping** (module `Dashboard`). The
  sort by score and cut to ten rows is a stable insertion sort followed by a
  slice. The class `Dashboard.Dashboard` keeps the board a top-ten list
  (at most ten rows, by non-increasing score) and covers the fetch loop, the
  registration check, the register guard and `addScore`'s submit and
  high-score rule. The medal of a list position and the name a row is listed
  under are also modelled.
- **The top-10 page's display helpers** (module `Leaderboard`): the wallet
  shortening, the rank cell and the row's CSS class.

Module `JsMath` holds `Math.max` and `Math.min` on the reals used for
positions.

The model follows the code, including these behaviours that are easy to
miss:

- The catch test is strict on both sides. An apple exactly half a basket
  width from the basket is missed.
- The elapsed-seconds interval keeps running while the game is paused. Only
  the difficulty recompute and the other handlers check the pause flag.
- `togglePause` has no guard of its own, so the model also flips the flag
  while the game is idle or over. In the page the pause button that calls it
  is shown only while the game is running, so in play that does not happen.
- The game-over callback receives the score held when the physics tick
  began. If several misses in one tick take lives to zero, it is called once
  for each of them (`GameCanvas.Game.PhysicsTick`, `GameOverCalls`).
- A caught apple stays in the list and is resolved again on every later
  tick until its animation removes it, without its caught flag being read.
  If it is still inside the basket, it scores again
  (`GameCanvas.CaughtAppleScoresAgain`). If the basket has moved away, it
  counts as a miss and costs a life (`GameCanvas.CaughtAppleMissedLater`).
- In the model, with exact reals, a spawned apple's position lies in
  `[90, width - 90)`, since the random draw is below 1. With the browser's
  double rounding the upper end can be reached (see "## Left out").

## Model

| member | source | states |
|---|---|---|
| JsMath.Max | src/components/GameCanvas.jsx:88 | `Math.max`: the result is at least both arguments and is one of them |
| JsMath.Min | src/components/GameCanvas.jsx:91 | `Math.min`: the result is at most both arguments and is one of them |
| GameCanvas.Difficulty | src/components/GameCanvas.jsx:191-200 | the tier for any elapsed time is one of the three tiers, with positive speed and interval |
| GameCanvas.DifficultyMonotone | src/components/GameCanvas.jsx:191-200 | as time goes on, fall speed never decreases and the spawn interval never increases |
| GameCanvas.DifficultyThresholds | src/components/GameCanvas.jsx:191-200 | 0 and 59 s give (3, 1500); 60 and 119 s give (5, 1000); 120 s gives (7, 700) |
| GameCanvas.KeyStep | src/components/GameCanvas.jsx:83-92 | a left key gives `max(0, x - step)`; a right key gives `min(width - 90, x + step)`; other keys leave x; an in-bounds basket stays in bounds and moves at most one step |
| GameCanvas.TapTarget | src/components/GameCanvas.jsx:102-103 | the basket goes to the tap minus the field's left edge minus 45, clamped to `[0, width - 90]`; an in-range target is taken as is, one past an edge lands on that edge |
| GameCanvas.SpawnX | src/components/GameCanvas.jsx:121-126 | for a draw in [0, 1) the new apple lies in `[90, width - 90)` |
| GameCanvas.SpawnReachesEveryPosition | src/components/GameCanvas.jsx:126 | every position in `[90, width - 90)` is the spawn position of some draw in [0, 1) |
| GameCanvas.Fall | src/components/GameCanvas.jsx:146-181 | one physics pass keeps every apple except the misses, and no more apples are caught than kept |
| GameCanvas.FallOne | src/components/GameCanvas.jsx:150-177 | an apple above the line moves down by the fall speed; one reaching the line strictly inside the basket is kept, flagged caught and scores 1; any other is dropped and counts as a miss |
| GameCanvas.FallAppend | src/components/GameCanvas.jsx:149-178 | the pass handles each apple on its own: kept apples stay in their original order, and catches and misses add up over the parts of the list |
| GameCanvas.FallKeepsWellPlaced | src/components/GameCanvas.jsx:149-178 | no apple is ever above the top of the field, and a caught apple is always at or below the catch line |
| GameCanvas.FallAboveLine | src/components/GameCanvas.jsx:175-177 | while no apple reaches the line, a tick moves every apple down and changes nothing else |
| GameCanvas.CaughtAppleScoresAgain | src/components/GameCanvas.jsx:149-158 | an apple caught on one tick and still under the basket scores again on the next tick |
| GameCanvas.CaughtAppleMissedLater | src/components/GameCanvas.jsx:152-161 | an apple caught on one tick, with the basket moved away by the next tick, is dropped as a miss and costs a life |
| GameCanvas.CatchBoundary | src/components/GameCanvas.jsx:153-155 | with the basket at 200: x = 200 and x = 156 are caught, x = 100 and x = 155 are missed |
| GameCanvas.FallPass | src/components/GameCanvas.jsx:146-181 | the updater's loop, pushing kept apples onto a fresh list, computes exactly `Fall` |
| GameCanvas.HeartSlots | src/components/GameCanvas.jsx:108-112 | four slots; slot i is a filled heart iff i < lives and an empty heart otherwise |
| GameCanvas.FilledHeartsFirst | src/components/GameCanvas.jsx:110-112 | every filled heart comes before every empty one |
| GameCanvas.FilledHeartsCount | src/components/GameCanvas.jsx:110-112 | the number of filled hearts is lives clamped to [0, 4] |
| GameCanvas.Without | src/components/GameCanvas.jsx:258 | the index filter removes exactly index i and keeps the rest in order; an index outside the list removes nothing |
| GameCanvas.Game.constructor | src/components/GameCanvas.jsx:11-21 | the initial state: idle, unpaused, score 0, lives 4, no apples, basket at 210, tier (3, 1500), no timer, nothing reported |
| GameCanvas.Game.StartGame | src/components/GameCanvas.jsx:47-61 | from any state: running, unpaused, score 0, lives 4, no apples, (3, 1500), elapsed 0, timer installed; nothing else changes and the tier matches the difficulty rule |
| GameCanvas.Game.TogglePause | src/components/GameCanvas.jsx:63-65 | only the pause flag changes, and it flips |
| GameCanvas.Game.PauseThenResume | src/components/GameCanvas.jsx:63-65 | toggling twice restores the whole state |
| GameCanvas.Game.KeyDown | src/components/GameCanvas.jsx:81-92 | idle or paused: nothing changes; otherwise only the basket moves, by `KeyStep`; the session invariant is kept |
| GameCanvas.Game.HandleTap | src/components/GameCanvas.jsx:98-104 | idle or paused: nothing changes; otherwise only the basket moves, to `TapTarget` |
| GameCanvas.Game.SpawnApple | src/components/GameCanvas.jsx:118-131 | idle or paused: nothing changes; otherwise one apple at `SpawnX`, height 0, not caught, is appended and every older apple is unchanged |
| GameCanvas.Game.LoseLife | src/components/GameCanvas.jsx:161-173 | lives drop by one and never go below 0; reaching 0 stops the game and its timer and reports the tick's score once |
| GameCanvas.Game.PhysicsTick | src/components/GameCanvas.jsx:143-182 | idle or paused: nothing changes. Otherwise the apples become `Fall`'s kept list, score rises by the catches, lives drop by the misses clamped at 0, and the game stops iff the misses reach the lives. The tick-start score is reported once per miss at or past the last life. The session invariant is kept |
| GameCanvas.Game.ElapsedTick | src/components/GameCanvas.jsx:58-60 | elapsed time rises by one while the timer is installed, paused or not; nothing else changes |
| GameCanvas.Game.ApplyDifficulty | src/components/GameCanvas.jsx:188-201 | idle or paused: nothing changes; otherwise fall speed and spawn interval become `Difficulty(elapsedTime)` |
| GameCanvas.Game.RenderHearts | src/components/GameCanvas.jsx:107-114 | the loop builds exactly the four heart slots, joined with spaces |
| GameCanvas.Game.AnimationEnd | src/components/GameCanvas.jsx:256-259 | a caught apple at index i is removed and every other apple keeps its place; otherwise nothing changes |
| Leaderboard.ShortenWallet | src/components/Leaderboard.jsx:8-10 | the first 6 characters, then `...`, then the last 4, each clamped to the address length; 13 characters for an address of 10 or more |
| Leaderboard.ShortenedWalletsEqual | src/components/Leaderboard.jsx:8-10 | for addresses of 10 or more characters, two shortened forms are equal iff the addresses share their first 6 and last 4 characters |
| Leaderboard.RankDisplay | src/components/Leaderboard.jsx:12-17 | ranks 0-2, and only those, show a medal text: exactly their medal, a space and the digit rank + 1 ("🥇 1", "🥈 2", "🥉 3"); every other rank shows the number rank + 1 |
| Leaderboard.RankClass | src/components/Leaderboard.jsx:47-52 | gold, silver and bronze for ranks 0-2, and "" for every other rank |
| Leaderboard.MedalRanksAgree | src/components/Leaderboard.jsx:12-17 | the rank cell shows a medal iff the row has a class; gold goes with the first medal |
| Dashboard.Insert | src/components/Dashboard.jsx:47 | one insertion step adds one row at the front or after the first row |
| Dashboard.InsertPermutes | src/components/Dashboard.jsx:47 | an insertion adds exactly the new row |
| Dashboard.InsertKeepsDescending | src/components/Dashboard.jsx:47 | inserting into a list sorted by non-increasing score keeps it sorted |
| Dashboard.SortByScore | src/components/Dashboard.jsx:47 | sorting keeps the length |
| Dashboard.SortByScoreDescending | src/components/Dashboard.jsx:47 | the sorted list has non-increasing scores |
| Dashboard.SortByScorePermutes | src/components/Dashboard.jsx:47 | the sorted list is a permutation of the input |
| Dashboard.SortSortedUnchanged | src/components/Dashboard.jsx:150-151 | sorting an already sorted list changes nothing |
| Dashboard.SortKeepsTies | src/components/Dashboard.jsx:47 | the sort is stable: for every score, the rows with that score come out in their input order, which decides which tied rows survive the cut at ten |
| Dashboard.InsertKeepsTies | src/components/Dashboard.jsx:47 | inserting into a sorted list puts the new row after every row with the same score and keeps those rows in order |
| Dashboard.SpliceKeepsTies | src/components/Dashboard.jsx:47 | a row spliced in front of rows that all score less comes after every row with its score |
| Dashboard.RowsAfterPositionScoreLess | src/components/Dashboard.jsx:150-151 | in a sorted list, every row from the new row's position on scores less than the new row |
| Dashboard.TopTen | src/components/Dashboard.jsx:47 | min(n, 10) rows, sorted by non-increasing score, all taken from the input |
| Dashboard.TopTenDropsOnlyLower | src/components/Dashboard.jsx:150-152 | every row the cut drops scores no more than every row it keeps |
| Dashboard.CutKeepsHighest | src/components/Dashboard.jsx:150-152 | cutting a sorted list keeps rows of the list, and each dropped row scores no more than each kept row |
| Dashboard.FrontOutscoresBack | src/components/Dashboard.jsx:150-152 | when every front row outscores every back row, so does every row counted in the back |
| Dashboard.InsertPosition | src/components/Dashboard.jsx:150-151 | the new row's rank: every row before it scores at least as much, and the row after it scores less |
| Dashboard.InsertSplices | src/components/Dashboard.jsx:150-151 | insertion splices the row in at that rank and moves nothing else |
| Dashboard.InsertLowest | src/components/Dashboard.jsx:150-151 | a row scoring no more than every row goes at the end |
| Dashboard.AddToSortedBoard | src/components/Dashboard.jsx:150-152 | on a sorted board the new list is the old one with the new row spliced in at its rank (`InsertPosition`), cut to min(n + 1, 10); rows before it score at least as much, rows after it less |
| Dashboard.Records | src/components/Dashboard.jsx:37-44 | one row per listed player, in list order, with that player's score and flag |
| Dashboard.Medal | src/components/Dashboard.jsx:211-214 | a medal for positions 0-2 only: the same medal and the same positions as the top-10 page's rank cell and class |
| Dashboard.ListedNameAsWritten | src/components/Dashboard.jsx:219 | the name on the leaderboard tab as written: only fetched rows have one, their shortened address |
| Dashboard.AddedRowCannotBeListed | src/components/Dashboard.jsx:219 | on any board of fewer than ten rows, the row a finished game adds is kept, and as written the tab has no name for it |
| Dashboard.ListedName | src/components/Dashboard.jsx:219 | the corrected name: a fetched row's shortened address (13 characters for a full address), an added row's stored name |
| Dashboard.ListedNameAgrees | src/components/Dashboard.jsx:146 | an added row is listed under the same name as the fetched row of its wallet, and the corrected name agrees wherever the original one exists |
| Dashboard.Dashboard.constructor | src/components/Dashboard.jsx:18-21 | no wallet, not registered, an empty board, high score 0; the board invariant (at most ten rows, sorted by non-increasing score) holds |
| Dashboard.Dashboard.FetchLeaderboard | src/components/Dashboard.jsx:29-52 | the loop collects one row per player; the board becomes the top ten of those rows and keeps the board invariant; nothing else changes |
| Dashboard.Dashboard.SyncRegistration | src/components/Dashboard.jsx:89-112 | logged out or no wallet: nothing changes; otherwise the wallet is taken, and a successful lookup sets the flag and the high score; the board is untouched |
| Dashboard.Dashboard.HandleRegister | src/components/Dashboard.jsx:116-138 | a registration is attempted iff there is a wallet and the player is not registered; the flag is set only by a paid attempt; nothing else changes |
| Dashboard.Dashboard.AddScore | src/components/Dashboard.jsx:142-181 | without a wallet nothing changes. Otherwise the board becomes the top ten of the old board plus the new row, which is the old board with the new row spliced in at its rank and cut to min(n + 1, 10); the board invariant is kept. A submission happens iff the player is registered and beats the high score, and the high score changes only to a confirmed submitted score, so it never decreases |

## Findings

| source | as written | input that shows it | evidently intended | confidence | as-written member | corrected member |
|---|---|---|---|---|---|---|
| src/components/Dashboard.jsx:219 | the leaderboard tab reads `player.address` of every row, but a row added by `addScore` has a `name` and no `address`, so `slice` is called on undefined and the tab throws | a connected player finishes a game, with any score, while the board has fewer than ten rows; then opens the leaderboard tab | list an added row under its stored name, which is already the shortened address | high, not executed | Dashboard.AddedRowCannotBeListed | Dashboard.ListedName |

## Left out

- Timers and React scheduling (`setInterval`, `useEffect`, batching of state updates, interleaving of the three intervals) are not modelled. Each interval run or handler is one method call in an order the caller chooses.
- GameCanvas.Game.PhysicsTick: the score and lives updaters the tick queues are applied straight after the apples updater, as React would apply them in one batch. Separately scheduled updates are not modelled.
- GameCanvas.Game.PhysicsTick: the stale closure is modelled only as far as the game-over report: it is the score when the tick began. Closures that see an older basket position or fall speed are not modelled.
- The resize listener is not modelled. The field width is fixed when the session is constructed.
- `getBoundingClientRect` and the DOM event are replaced by two numbers: the tap's x and the field's left edge. `Math.random()` is replaced by a parameter in [0, 1).
- GameCanvas.Game.AnimationEnd: the check uses the caught flag of the apple now at index i, not the flag captured when the apple was drawn.
- `submitScore` and the ethers, Privy, `window.ethereum`, `alert` and `console` calls are foreign I/O and are not modelled. Only the argument of the game-over report is recorded, in `reported`.
- `Date().toLocaleString()` is not modelled; the date text is a parameter of `AddScore`.
- Dashboard.Dashboard.SyncRegistration: `wallets[0] || user?.wallet` is one optional wallet parameter. A failed signer or contract call is `player = None`.
- Dashboard.Dashboard.HandleRegister: a rejected or failed transaction is `paid = false`. The alert and the refetch after a successful registration are not modelled.
- Dashboard.Dashboard.AddScore: a failed or rejected transaction is `confirmed = false`. The console messages and the refetch after a confirmed submission are not modelled.
- Dashboard.Dashboard.FetchLeaderboard: the contract lookup is a function parameter. A failure of the fetch, which leaves the board unchanged, is not modelled.
- Positions, the fall step and the random draw are exact reals, so IEEE double rounding is not modelled.
- GameCanvas.SpawnX: its bound `x < width - 90` holds for exact reals only; in the browser the largest draw, 1 - 2^-53, rounds `r * (width - 180) + 90` to exactly `width - 90` for widths such as 420.
- `Number()` of the contract's integers is an unbounded integer, so precision loss above 2^53 is not modelled.
- Strings are sequences of Unicode characters, while JavaScript slices UTF-16 code units. Wallet addresses are ASCII, so the two agree.
- The rest of the rendering (tabs, profile page, JSX markup), `src/main.jsx`, `hardhat.config.cjs` and `scripts/deploy.cjs` are not part of this model. They hold no logic beyond markup, provider set-up, configuration and deployment I/O.
