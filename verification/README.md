# MIDI memory game: the game engine and the leaderboard, in Dafny

This project models the core of a layered memory game. It proves properties of that model.

**The board.** A difficulty picks a stack of square layers:
- easy: 4×4 then 2×2;
- medium: 6×6, 4×4, 2×2;
- hard: 6×6, 6×6, 4×4, 2×2.

Each layer is filled with pairs of MIDI numbers drawn without replacement from 1..128, then Fisher–Yates shuffled. Play starts on the last (outermost) layer. The player flips two tiles, and 800 ms later the pair is evaluated:
- A match marks both tiles matched and records the note in the discovered notes. After 500 ms, if every tile of the current layer is matched, the layer is cleared and play moves to the layer below. Clearing layer 0 schedules the end of the game 1000 ms later.
- A mismatch flips both tiles back after 600 ms.

A busy flag blocks flips while a pair is being resolved.

**The leaderboard** is kept in browser local storage as one record mapping team ids to their best (lowest) score.

Modules, one per concern:

| module | file | what it holds |
|---|---|---|
| `Optional` | optional.dfy | `Option`, for `null`, `undefined` and failed lookups |
| `Decimal` | decimal.dfy | decimal numerals of naturals, as template literals print them, and their injectivity |
| `Board` | board.dfy | tiles and layers, the difficulty table, the pair draw, the shuffle, tile ids, layer generation |
| `Engine` | engine.dfy | the session record and every store action and timer callback as a pure transition |
| `Protocol` | protocol.dfy | the session plus its scheduled callbacks as one state machine, and the invariant it keeps |
| `Rounds` | rounds.dfy | whole rounds (two flips, evaluation, continuation) run from an idle session |
| `Leaderboard` | leaderboard.dfy | reading, saving, sorting and clearing the leaderboard |

How the model treats time, randomness and storage:
- **Timers.** A store action returns a `Transition`: the next session plus the callback it schedules, if any. `Protocol.World` pairs the session with the multiset of callbacks scheduled but not yet run. Its events are the player's actions and the firing of a scheduled callback.
- **Randomness.** Every `Math.random()` call is a real in [0, 1) that the caller supplies, in the order the generator consumes them (`Board.LayerDraws`).
- **The note catalogue.** It is a parameter (`catalog: seq<Note>`), searched first-match like `Array.find`.
- **Local storage.** It is modelled by what reading the key yields: nothing (`Missing`), an unparsable item (`Unreadable`), or a map from team to score (`Stored`).

Where the code does something surprising, the model follows the code:
- A flip of an unknown, inactive or matched id is not rejected: it appends the id and counts a move. An id that names no tile takes the evaluation's not-found branch. An inactive or matched tile is evaluated like any other, so two inactive tiles with equal MIDI numbers can be matched without ever being face up.
- Neither `resetGame` nor `initGame` cancels a scheduled callback, and no callback checks whether its session is still current, so a callback that fires after a reset acts on the new session. `Protocol.ResetDuringResolutionBreaksLock` shows the effect. After a reset with an evaluation still scheduled, the next flip is accepted while that evaluation is pending, so the busy flag no longer guards the pair. For this reason, `Protocol.StepPreservesInv` requires new boards and resets to happen while no pair is being resolved. The rest of the invariant, `Protocol.Shape`, holds on every run: at most two distinct pending ids, at most one active layer (the current one), and no duplicate discovered notes. `Protocol.StepKeepsShape` proves this with no condition on when events come.
- `initGame` leaves `phase`, `isBusy` and `teamId` as they were.
- A stored score of 0 is falsy, so any later score replaces it, even a worse one.

## Model

| member | source | states |
|---|---|---|
| Board.GridSizes | client/src/lib/stores/useMemoryGame.tsx:53-62 | every difficulty has 2 to 4 layers. Every side is even and between 2 and 6, so every square is even. A layer needs at most 18 pairs, well within the 128-number pool. Sides never grow towards the outermost layer |
| Board.RandomIndex | client/src/lib/stores/useMemoryGame.tsx:76 | `floor(random * n)` is a valid index below n for every random value in [0, 1) |
| Board.RemoveAt | client/src/lib/stores/useMemoryGame.tsx:77 | the splice shortens the pool by one and adds nothing. On a duplicate-free pool it removes exactly the drawn number and keeps the rest duplicate-free |
| Board.DrawPairs | client/src/lib/stores/useMemoryGame.tsx:71-79 | the draw loop yields two numbers per draw, all taken from the pool |
| Board.DrawPairsArePairs | client/src/lib/stores/useMemoryGame.tsx:69-79 | every drawn number occurs exactly twice, and there are as many different numbers as draws: the draw is without replacement |
| Board.ShuffleDown | client/src/lib/stores/useMemoryGame.tsx:82-85 | each Fisher–Yates pass from index i down to 1 permutes its input (same multiset, same length) |
| Board.Swap | client/src/lib/stores/useMemoryGame.tsx:84 | the destructuring swap puts entry j at i and entry i at j and keeps every other entry, so the multiset of numbers is unchanged |
| Board.Shuffle | client/src/lib/stores/useMemoryGame.tsx:81-85 | the whole shuffle is a permutation of the drawn numbers |
| Decimal.Digits | client/src/lib/stores/useMemoryGame.tsx:98 | a natural prints as a non-empty string of decimal digits, one digit exactly when it is below 10 |
| Decimal.DigitsInjective | client/src/lib/stores/useMemoryGame.tsx:98 | different naturals print differently |
| Board.TileIdInjective | client/src/lib/stores/useMemoryGame.tsx:98 | `layer{i}-tile{k}` determines both i and k, so ids are unique across all layers of a board |
| Board.Deal | client/src/lib/stores/useMemoryGame.tsx:64-85 | a layer's MIDI numbers: gridSize² of them, all in 1..128, each occurring exactly twice, with gridSize²/2 different ones |
| Board.GenerateTilesForLayer | client/src/lib/stores/useMemoryGame.tsx:64-111 | exactly gridSize² tiles with ids `layer{i}-tile{k}` for k in order, layer index i, none flipped, matched or active. MIDI numbers are in 1..128, each occurring exactly twice, with gridSize²/2 distinct values |
| Board.GenerateLayers | client/src/lib/stores/useMemoryGame.tsx:136-142 | one layer per configured size, with index k, that size, tile count size², inactive and uncleared, holding exact pairs |
| Engine.InitGame | client/src/lib/stores/useMemoryGame.tsx:132-165 | a new board for the difficulty with at least two layers. Layer k has index k and the configured size. Only the last layer and its tiles are active, nothing is cleared, flipped or matched, and every tile's id is its position id. The layer index is on the last layer; moves, pending ids, discovered and matched notes are reset; phase, busy flag and team are kept |
| Engine.InitGameUniqueIds | client/src/lib/stores/useMemoryGame.tsx:97-105 | no two tiles of a new board share an id |
| Engine.InitGamePairs | client/src/lib/stores/useMemoryGame.tsx:136-152 | activating the outermost layer keeps every layer's exact pairs |
| Engine.FlipTile | client/src/lib/stores/useMemoryGame.tsx:169-217 | dropped (state unchanged, nothing scheduled) exactly when busy, two ids pending or the id already pending. Otherwise the id is appended and one move counted. The second pending id sets the busy flag and schedules the evaluation. Only the tile with that id turns face up, and only if active and unmatched; nothing else on the board changes |
| Engine.AllTiles | client/src/lib/stores/useMemoryGame.tsx:227-230 | the lookup loop visits every tile of the board and no other, one visit per tile position |
| Engine.AllTilesOrder | client/src/lib/stores/useMemoryGame.tsx:227-230 | the visits go layer by layer and, within a layer, tile by tile: tile j of layer k is visited right after the tiles of the layers before k and the first j tiles of layer k |
| Engine.FindLast | client/src/lib/stores/useMemoryGame.tsx:228-233 | the lookup loop finds a tile exactly when one has the id, and then the last one in visiting order |
| Engine.FindTile | client/src/lib/stores/useMemoryGame.tsx:222-233 | a pending id finds a tile of the board with that id exactly when the board has one. A missing (`undefined`) id finds nothing |
| Engine.FindNote | client/src/lib/stores/useMemoryGame.tsx:247 | the catalogue lookup finds a note exactly when one has the MIDI number, and then the first |
| Engine.Discover | client/src/lib/stores/useMemoryGame.tsx:250-253 | the discovered notes keep their prefix and grow by at most one. They grow exactly when a note was found whose MIDI number is not yet known, and they stay free of duplicate MIDI numbers |
| Engine.MarkMatched | client/src/lib/stores/useMemoryGame.tsx:256-264 | exactly the tiles whose id is one of the pending ids become matched, every other field and tile is kept, and the layer structure is unchanged |
| Engine.SettleMatch | client/src/lib/stores/useMemoryGame.tsx:245-271 | a found pair marks exactly the tiles with a pending id matched (flip flags untouched), clears the pending ids, appends the catalogue note to the discovered notes exactly when its MIDI number is new, shows it, and changes nothing else |
| Engine.CheckMatch | client/src/lib/stores/useMemoryGame.tsx:220-295 | a pending id naming no tile abandons the pair and releases the lock, with layers unchanged and nothing scheduled. Different MIDI numbers change nothing yet and schedule the flip-back. Equal ones settle the match and schedule the layer check |
| Engine.ResetFlippedTiles | client/src/lib/stores/useMemoryGame.tsx:298-311 | every pending unmatched tile turns face down, every other tile keeps its flags, and the pending ids are cleared |
| Engine.ResetFlippedTilesIdempotent | client/src/lib/stores/useMemoryGame.tsx:298-311 | flipping back twice is the same as flipping back once |
| Engine.AfterMismatch | client/src/lib/stores/useMemoryGame.tsx:288-293 | the flip-back followed by releasing the lock. Matched tiles are untouched and nothing stays pending |
| Engine.ClearLayer | client/src/lib/stores/useMemoryGame.tsx:313-348 | layer i is cleared and deactivated with its tiles. For i > 0, layer i-1 and its tiles are activated and the layer index moves to i-1. For i = 0, the layer index stays and the end of the game is scheduled. Other layers and fields are unchanged |
| Engine.AfterMatch | client/src/lib/stores/useMemoryGame.tsx:274-285 | the lock is released. The current layer is cleared exactly when all its tiles are matched, and play moves to the layer below; clearing layer 0 instead schedules the end. With the layer index off the board the callback throws and changes nothing |
| Engine.EndGame | client/src/lib/stores/useMemoryGame.tsx:354-356 | the phase becomes ended and nothing else changes |
| Engine.ResetGame | client/src/lib/stores/useMemoryGame.tsx:358-372 | the session becomes the initial one (menu, no layers, layer index 0, nothing pending, no moves, notes or team, not busy), keeping only the difficulty |
| Engine.StartPlaying | client/src/lib/stores/useMemoryGame.tsx:374-376 | the phase becomes playing and nothing else changes |
| Engine.ClearMatchedNote | client/src/lib/stores/useMemoryGame.tsx:378-380 | only the matched note is cleared |
| Engine.SetTeamId | client/src/lib/stores/useMemoryGame.tsx:128-130 | only the team is set |
| Protocol.InitialInv | client/src/lib/stores/useMemoryGame.tsx:115-126 | the store as created, with nothing scheduled, satisfies the invariant |
| Protocol.AtMostOneActiveLayer | client/src/lib/stores/useMemoryGame.tsx:313-348 | under the invariant, no two layers are active at once |
| Protocol.Run | client/src/lib/stores/useMemoryGame.tsx:212-346 | a fired callback leaves the pending callbacks and schedules at most one more: the evaluation only the layer check or the flip-back, the layer check only the end of the game, the flip-back and the end nothing |
| Protocol.FlipPreservesInv | client/src/lib/stores/useMemoryGame.tsx:169-217 | a flip keeps the invariant: at most two distinct pending ids; busy exactly while one resolution callback is scheduled; at most one active layer, the current one, with active tiles exactly on it; no duplicate discovered notes |
| Protocol.CheckMatchPreservesInv | client/src/lib/stores/useMemoryGame.tsx:220-295 | the evaluation keeps the invariant, handing the lock to the continuation it schedules or releasing it |
| Protocol.MatchedPairKeepsInv | client/src/lib/stores/useMemoryGame.tsx:245-285 | a found matching pair keeps the invariant and hands the lock to the layer check |
| Protocol.AfterMatchPreservesInv | client/src/lib/stores/useMemoryGame.tsx:274-285 | the layer check keeps the invariant: the active mark moves down one layer together with the layer index |
| Protocol.ClearLayerKeepsLayersOk | client/src/lib/stores/useMemoryGame.tsx:313-340 | clearing the current layer keeps one active layer at most, on the layer index, with tile activity matching layer activity |
| Protocol.AfterMismatchPreservesInv | client/src/lib/stores/useMemoryGame.tsx:288-311 | the flip-back keeps the invariant and releases the lock |
| Protocol.InitLayersOk | client/src/lib/stores/useMemoryGame.tsx:144-157 | a new board has exactly one active layer, the one the layer index is on, with all its tiles active and no others |
| Protocol.InitPreservesInv | client/src/lib/stores/useMemoryGame.tsx:132-165 | a new board, requested while no pair is being resolved, satisfies the invariant |
| Protocol.StepPreservesInv | client/src/lib/stores/useMemoryGame.tsx:128-380 | every action and every callback firing keeps the invariant, provided new boards and resets come while no pair is being resolved |
| Protocol.FlipKeepsShape | client/src/lib/stores/useMemoryGame.tsx:169-217 | a flip keeps at most two distinct pending ids and the layer invariant, whatever the lock state |
| Protocol.CheckMatchKeepsShape | client/src/lib/stores/useMemoryGame.tsx:220-295 | an evaluation, even one left over from an earlier session, keeps the pending ids, the layer invariant and the discovered notes in shape |
| Protocol.AfterMatchKeepsShape | client/src/lib/stores/useMemoryGame.tsx:274-285 | a layer check, even a stale one, keeps the pending ids, the layer invariant and the discovered notes in shape |
| Protocol.AfterMismatchKeepsShape | client/src/lib/stores/useMemoryGame.tsx:288-311 | a flip-back, even a stale one, keeps the pending ids, the layer invariant and the discovered notes in shape |
| Protocol.StepKeepsShape | client/src/lib/stores/useMemoryGame.tsx:128-380 | on every run, including new boards, resets and stale callbacks at any time, there are at most two distinct pending ids, at most one active layer (the current one, with its tiles active exactly when it is), and no duplicate discovered notes |
| Protocol.ResetDuringResolutionBreaksLock | client/src/lib/stores/useMemoryGame.tsx:358-372 | a reset while the evaluation is scheduled releases the lock but not the callback. The next flip is accepted and counted as the first move while the evaluation is still pending, and the invariant is broken |
| Rounds.FindTileByUniqueId | client/src/lib/stores/useMemoryGame.tsx:228-233 | with unique ids, the lookup of a tile's id finds that very tile |
| Rounds.FlipOne | client/src/lib/stores/useMemoryGame.tsx:188-211 | an accepted flip of an active unmatched tile turns it face up. It appends its id, counts one move, keeps the invariant and unique ids, and only turns tiles face up |
| Rounds.TwoFlipsLock | client/src/lib/stores/useMemoryGame.tsx:169-217 | two flips of different playable tiles from an idle session leave both face up and both ids pending. Two moves are counted, the lock is held, only the evaluation is scheduled, and the invariant holds |
| Rounds.EvaluateMatchingPair | client/src/lib/stores/useMemoryGame.tsx:242-273 | evaluating a pending pair with equal MIDI numbers marks exactly those two tiles matched and clears the pending ids. The discovered notes grow by at most one, and only the layer check is scheduled |
| Rounds.SettleMarksPair | client/src/lib/stores/useMemoryGame.tsx:256-264 | with unique ids, settling the pending pair marks exactly its two tiles matched and leaves every other tile as it was |
| Rounds.EvaluateMismatchingPair | client/src/lib/stores/useMemoryGame.tsx:242-294 | evaluating a pending pair with different MIDI numbers changes nothing but replaces the evaluation by the flip-back |
| Rounds.AfterMatchReleases | client/src/lib/stores/useMemoryGame.tsx:274-285 | the layer check releases the lock, leaves no resolution scheduled, and keeps every tile's matched and flipped flags |
| Rounds.AfterMismatchReleases | client/src/lib/stores/useMemoryGame.tsx:288-311 | the flip-back turns the two pending tiles face down, releases the lock and leaves nothing scheduled |
| Rounds.MatchingRound | client/src/lib/stores/useMemoryGame.tsx:169-285 | a whole round with a matching pair leaves both tiles matched and face up. Two moves are counted, the lock is released, no resolution is scheduled, and the invariant holds |
| Rounds.MismatchingRound | client/src/lib/stores/useMemoryGame.tsx:169-311 | a whole round with a mismatching pair leaves both tiles face down and unmatched and the discovered notes as they were. Two moves are counted, the lock is released, nothing is scheduled, and the invariant holds |
| Rounds.ClearLayerKeepsFlags | client/src/lib/stores/useMemoryGame.tsx:318-335 | clearing a layer changes no tile's matched or flipped flag |
| Leaderboard.GetLeaderboard | client/src/lib/leaderboardStorage.ts:16-27 | a stored record reads as itself; a missing, empty or unparsable item reads as the empty leaderboard |
| Leaderboard.SaveScore | client/src/lib/leaderboardStorage.ts:33-45 | a first score is stored. The replacement test `Replaces` (no stored score, a falsy stored score, or a lower new score) decides the rest: a stored non-zero score is replaced by a lower one and otherwise left, with storage untouched. A stored 0 is falsy and is replaced by any score. Other teams are never affected |
| Leaderboard.SaveAllKeepsMinimum | client/src/lib/leaderboardStorage.ts:37-41 | with positive scores, any sequence of saves leaves the team's minimum and every other team's entry as it was |
| Leaderboard.SaveSequenceExample | client/src/lib/leaderboardStorage.ts:29-45 | saving 5, 3 and 7 for one team keeps 3 |
| Leaderboard.ClearLeaderboard | client/src/lib/leaderboardStorage.ts:59-65 | after clearing, a read is empty and the next save leaves exactly that one entry |
| Leaderboard.Insert | client/src/lib/leaderboardStorage.ts:53 | inserting into a list sorted by score keeps it sorted and adds exactly the one entry |
| Leaderboard.GetSortedLeaderboard | client/src/lib/leaderboardStorage.ts:51-54 | the entries listed once each (a permutation of the stored record), non-decreasing by score |
| Leaderboard.SortedExample | client/src/lib/leaderboardStorage.ts:47-54 | {A: 5, B: 2, C: 8} is listed as B, A, C |

## Left out

- Timers as time: the 800, 500, 600 and 1000 ms delays, `startTime` (set from `Date.now()` on the first flip), `elapsedTime` and `updateTimer`. Scheduled callbacks are events that run when the caller fires them, in any order.
- `Math.random()`: its values are parameters. Uniformity and other distribution properties are not stated.
- Tile positions and the layer height: these are floating-point rendering data.
- The MIDI note catalogue: it comes from a data module (`@/lib/midiData`) that is not part of this model. Its entries are a parameter and `Note.name` stands for all their other fields.
- The Zustand store plumbing (`create`, `subscribeWithSelector`, `get`/`set`) and console output.
- `localStorage` and JSON: failures on write or clear (swallowed by the code), JSON parsing itself, a stored record that parses to something other than an object of numbers, and inherited object keys such as `constructor`.
- IEEE floats: scores are reals, and NaN, infinities and `-0` are not modelled.
- The React components (EndScreen.tsx, LeaderboardPage.tsx, App.tsx), including how a score is computed from time and moves, and the note tables of midiNoteMapping.ts.
- Board.GenerateTilesForLayer: requires an even grid side whose pairs fit in the pool. For an odd side g the code draws ⌈g²/2⌉ pairs and leaves one tile without a partner. Past 128 pairs the pool runs out and the code pushes `undefined` as a pair. No difficulty produces such a side.
- Leaderboard.GetSortedLeaderboard: does not fix the order of entries with equal scores. The code's stable sort keeps the record's key order, which depends on JavaScript object key ordering.
- Leaderboard.SaveAllKeepsMinimum: stated for positive scores only. With zeros, the falsy test makes the result depend on the order of saves (see `Leaderboard.SaveScore`).
- Protocol.StepPreservesInv: does not cover a new board or a reset while a pair is being resolved. The code does not cancel the scheduled callbacks, and the lock part of the invariant (`Protocol.LockOk`: busy exactly while one resolution is scheduled) does not survive it (see `Protocol.ResetDuringResolutionBreaksLock`). The other parts hold on every run (`Protocol.StepKeepsShape`).
- Engine.AfterMatch: when the layer index is off the layer list, the code throws a TypeError and the model leaves the session unchanged; the exception itself is not modelled. It cannot happen under `Protocol.Inv`.
