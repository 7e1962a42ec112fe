# Papope: a verified model of the game, its score route and its page

Papope is a browser arcade game. Heads bounce around a canvas. Clicking one
scores a point and splits it into two smaller heads, until a cap on the
number of heads is reached. A ten-second countdown ends the game. The
score then goes to a server route, which stores it, decides whether it is
the player's new personal best, and ranks it against every player's best.

This project models three parts of the repository, in Dafny.

- `papope_game.dfy` (module `PapopeGame`) models the simulation of
  `components/PapopeGame.tsx`.
  - The game is a class `Game` holding a `seq<Head>`, a score, the time
    left, an "active" flag and the global id counter.
  - `Tick(dt)` is one animation frame; `Click(px, py, …)` is the click
    handler.
  - The class invariant says:
    - there are between 1 and `MAX_HEADS` heads;
    - every head is at least `MIN_SIZE`;
    - no live head carries the flash flag;
    - ids are distinct and below the counter;
    - the end of the game is reported at most once.
  - The tuning constants are a `Config` parameter, constrained as the
    shipped values are.
  - Random draws are parameters.
- `scores_route.dfy` (module `ScoresRoute`) models the `POST` handler of
  `app/api/scores/route.ts`.
  - Both 400 checks and name sanitisation are modelled.
  - So is the `isNewBest` rule.
  - So is the dedupe-then-rank computation.
  - The three database answers are inputs.
  - `Dedupe` keeps the handler's loop as a loop, proved against the
    functions `FirstScores` and `FirstNames`.
- `papope_page.dfy` (module `PapopePage`) models the page
  `app/game/papope/page.tsx`.
  - The five-phase session machine is a class `Page` with one method per
    handler or timer.
  - The request body the page posts is modelled, and proved to pass the
    route's validation unchanged.
  - The result screen's message (`getMessage`) and its clic/clics label
    are modelled.
- `js_text.dfy` (module `JsText`) models JavaScript strings as UTF-16 code
  units, with `slice` and `trim` and their whitespace set.
- `options.dfy` (module `Options`) holds `Option` and `Result`.

The model follows the code in a few places where a prose description of
the game might read differently:

- The time left is decremented without clamping. Only the display clamps
  it at 0.
- Heads move one velocity step per frame, whatever `dt` is.
- The flash flag is set on the hit head, which the same call then always
  removes. So no head in the list is ever flashed.
- The rank is `findIndex(best <= score) + 1`, computed over every player's
  best, including the submitting player's older best. So the rank is 0 when
  every best, the player's own included, exceeds the new score.
  `RankZeroExample` shows such an input: the player has an earlier 10 and
  now scores 5. The page then shows "#0".

## Model

| member | source | states |
|---|---|---|
| JsText.Slice | app/api/scores/route.ts:49 | `slice(0, n)` keeps the first `min(n, length)` code units, a prefix of the input |
| JsText.FirstKept | app/api/scores/route.ts:49 | the first non-white-space index at or after `from`, with only white space before it |
| JsText.EndKept | app/api/scores/route.ts:49 | one past the last non-white-space index in a range, with only white space after it |
| JsText.Trim | app/api/scores/route.ts:49 | `trim` keeps one contiguous piece of the input; only white space is dropped on either side; a nonempty result neither starts nor ends with white space |
| JsText.TrimEmptyIff | app/api/scores/route.ts:50 | `trim` gives the empty string exactly when the input is all white space |
| JsText.TrimIdempotent | app/game/papope/page.tsx:59-60 | trimming twice equals trimming once |
| PapopeGame.ShippedIsValid | components/PapopeGame.tsx:29-33 | the shipped constants satisfy `0 <= MIN_SIZE <= HEAD_SIZE` and `MAX_HEADS >= 1` |
| PapopeGame.CreateHead | components/PapopeGame.tsx:35-49 | a new head has the given id, position and size, and is not flashed |
| PapopeGame.CreateHeadMotion | components/PapopeGame.tsx:36-46 | for random draws in [0, 1) and a unit direction: speed between 0.8 and 1.2 times the base, rotation in [0, 360), spin in [-2, 2) |
| PapopeGame.Jitter | components/PapopeGame.tsx:240-241 | the child position offset lies in [-10, 10) |
| PapopeGame.ChildSize | components/PapopeGame.tsx:239 | a child's size is `max(MIN_SIZE, size * CHILD_SIZE_FACTOR)` |
| PapopeGame.Child | components/PapopeGame.tsx:239-241 | a child gets the fresh id, the child size and no flash |
| PapopeGame.Bounce | components/PapopeGame.tsx:140-146 | one axis of the wall bounce; see the note after this table |
| PapopeGame.StepHead | components/PapopeGame.tsx:135-147 | the per-frame head update bounces each axis with `Bounce` (so it gets the free move and the bounce signs), keeps id, size, flag and speeds and adds the spin; when the arena is at least the head's size, the head ends inside the walls |
| PapopeGame.Covers | components/PapopeGame.tsx:227-229 | the hit test on squared distances; what it means is stated by `CoversIsDistanceTest` |
| PapopeGame.CoversIsDistanceTest | components/PapopeGame.tsx:227-229 | the squared comparison equals `dist < size / 2` |
| PapopeGame.LastCovering | components/PapopeGame.tsx:225-229 | the hit index is the highest whose circle covers the point; None exactly when no head covers it |
| PapopeGame.Game.constructor | components/PapopeGame.tsx:98-113 | starts with one head of `HEAD_SIZE` at the centre, score 0, full time, active, invariant established |
| PapopeGame.Game.Tick | components/PapopeGame.tsx:116-147 | see the note after this table |
| PapopeGame.Game.Click | components/PapopeGame.tsx:204-275 | see the note after this table |
| PapopeGame.Game.Resolve | components/PapopeGame.tsx:233-252 | the hit head is flashed and then replaced by the two children (under the cap), or removed (at the cap); the invariant is kept |
| PapopeGame.Game.Dispose | components/PapopeGame.tsx:184-187 | the cleanup deactivates the game and changes nothing else |
| PapopeGame.SpliceKeepsIds | components/PapopeGame.tsx:243 | `splice(i, 1, c1, c2)` with fresh-id children keeps the head-list invariant, with the counter two higher |
| PapopeGame.RemoveKeepsIds | components/PapopeGame.tsx:246 | `splice(i, 1)` keeps the head-list invariant |
| ScoresRoute.Sanitize | app/api/scores/route.ts:49 | at most 64 code units; no white space at either end; unchanged by `trim`; empty exactly when the first 64 code units are all white space |
| ScoresRoute.GameOf | app/api/scores/route.ts:43 | the "papope" default applies to a missing `game` only |
| ScoresRoute.Truthy | app/api/scores/route.ts:45 | JavaScript truthiness of a body field, as `!playerName` tests it; `Validate`'s contract states the rejection it causes |
| ScoresRoute.StringOf | app/api/scores/route.ts:49 | `String(playerName)`; `Sanitize` and `Validate` state what is kept of it |
| ScoresRoute.Validate | app/api/scores/route.ts:45-52 | see the note after this table |
| ScoresRoute.IsNewBest | app/api/scores/route.ts:67 | the `isNewBest` expression; what it means is stated by `IsNewBestMeaning` |
| ScoresRoute.IsNewBestMeaning | app/api/scores/route.ts:60-67 | `isNewBest` implies no row of the player scores above the new one; a new score strictly above every other row of the player makes it hold |
| ScoresRoute.FirstScores | app/api/scores/route.ts:77-80 | the map has one key per name occurring in the rows |
| ScoresRoute.FirstNames | app/api/scores/route.ts:77-80 | the map's insertion order: distinct names, exactly the map's keys |
| ScoresRoute.Dedupe | app/api/scores/route.ts:77-80 | the loop builds exactly `FirstScores` and `FirstNames` |
| ScoresRoute.FirstScoreIsBest | app/api/scores/route.ts:76-80 | on rows ordered by score, each name's kept score is one of that player's scores, and no other row of the player is higher |
| ScoresRoute.ValuesInOrder | app/api/scores/route.ts:81 | `Array.from(seen.values())` lists the map's values in insertion order |
| ScoresRoute.Bests | app/api/scores/route.ts:77-81 | `Array.from(seen.values())` over the game's rows; `BestsPerPlayer` and `FirstScoreIsBest` state what it holds |
| ScoresRoute.BestsPerPlayer | app/api/scores/route.ts:81 | there is one best per distinct player name |
| ScoresRoute.InsertDesc | app/api/scores/route.ts:81 | inserting into a non-increasing sequence keeps it non-increasing and adds exactly one element |
| ScoresRoute.SortDesc | app/api/scores/route.ts:81 | `sort((a, b) => b - a)` gives a non-increasing permutation |
| ScoresRoute.SortedUnique | app/api/scores/route.ts:81 | two non-increasing permutations of the same values are equal, so any correct descending sort gives `SortDesc`'s result |
| ScoresRoute.FindAtMost | app/api/scores/route.ts:82 | `findIndex(s => s <= score)` is the first index at or below the score; -1 exactly when every entry is above it |
| ScoresRoute.RankOf | app/api/scores/route.ts:81-82 | `0 <= rank <=` the number of players; rank 0 exactly when every player's best exceeds the score |
| ScoresRoute.RankCountsHigher | app/api/scores/route.ts:82 | on sorted bests the rank is 1 + the number of bests above the score, or 0 when all are above |
| ScoresRoute.TiedScoresShareRank | app/api/scores/route.ts:82 | a score equal to a best gets the position of the first of the tied bests |
| ScoresRoute.RankPositiveForPersonalBest | app/api/scores/route.ts:82 | when the new score is the player's highest among the game's rows, the rank is at least 1 |
| ScoresRoute.RankZeroExample | app/api/scores/route.ts:82 | a player with an earlier 10 who now submits a 5, and no other player, is ranked 0 |
| ScoresRoute.Post | app/api/scores/route.ts:40-89 | see the note after this table |
| PapopePage.Next | app/game/papope/page.tsx:9-14 | the phase cycle: no phase leads to itself; only name entry leads to the intro; only the result leads back to name entry |
| PapopePage.ScoreRequest | app/game/papope/page.tsx:115 | the posted body carries the player name, the final score as a number, and "papope" |
| PapopePage.PageRequestAccepted | app/game/papope/page.tsx:115 | see the note after this table |
| PapopePage.Page.constructor | app/game/papope/page.tsx:26-33 | the initial state: name entry, empty names, score 0, no best, no rank, no timers |
| PapopePage.Page.EditName | app/game/papope/page.tsx:260 | the name field keeps at most the first 32 code units of the typed value |
| PapopePage.Page.StartIntro | app/game/papope/page.tsx:58-102 | a name that trims to nothing changes nothing; otherwise the trimmed name becomes the player name, the phase becomes intro, and the countdown timer is armed |
| PapopePage.Page.CountdownTimerFires | app/game/papope/page.tsx:81-99 | intro becomes countdown, and the timer that starts play is armed |
| PapopePage.Page.PlayTimerFires | app/game/papope/page.tsx:87-96 | countdown becomes playing, with no timer left pending |
| PapopePage.Page.HandleGameEnd | app/game/papope/page.tsx:105-140 | see the note after this table |
| PapopePage.Page.HandleReplay | app/game/papope/page.tsx:143-151 | score 0, no best, no rank, no timers, back to name entry; the field is pre-filled with the player's name |
| PapopePage.Band | app/game/papope/page.tsx:369-376 | there are six bands, one per message |
| PapopePage.BandValue | app/game/papope/page.tsx:369-376 | the bands are 0, 1–4, 5–9, 10–19, 20–39 and 40 or more |
| PapopePage.GetMessage | app/game/papope/page.tsx:369-376 | `getMessage`; `BandValue` and `GetMessageByBand` state which message each score gets |
| PapopePage.GetMessageByBand | app/game/papope/page.tsx:369-376 | for every non-negative score, `getMessage` is the message of its band |
| PapopePage.MessageMonotone | app/game/papope/page.tsx:369-376 | a higher score never falls in a lower band |
| PapopePage.SameMessageIffSameBand | app/game/papope/page.tsx:369-376 | two scores get the same message exactly when they fall in the same band |
| PapopePage.NegativeScoreMessage | app/game/papope/page.tsx:370-371 | a negative score, which the game never produces, gets the 1–4 message |
| PapopePage.ClicLabel | app/game/papope/page.tsx:405 | "clic" exactly when the score is at most 1; "clics" otherwise |

The longer rows, in full:

- **PapopeGame.Bounce:**
  - the speed is kept;
  - the head is contained when the arena is at least its diameter;
  - a free move is unchanged;
  - a moved position past the high wall is clamped to `limit - r` with the velocity negative;
  - a moved position past only the low wall is clamped to `r` with the velocity positive, when the arena is at least the diameter;
  - a head wider than the arena whose moved position is past the low wall is pushed by the low clamp past the high wall and ends at `limit - r` with the velocity negative.
- **PapopeGame.Game.Tick:**
  - an inactive game is unchanged;
  - otherwise the time drops by `dt`;
  - at 0 or below, the game deactivates, reports its score once, and does not move the heads;
  - otherwise every head takes one `StepHead`;
  - the count, the score and the invariant are kept.
- **PapopeGame.Game.Click:**
  - a hit happens exactly when the game is active and `LastCovering` finds a head;
  - a miss changes nothing;
  - a hit adds 1 to the score;
  - under the cap, the head at `i` becomes two children at `i` and `i+1`, the rest keep their order, and the count rises by 1;
  - at the cap, the head is removed and the count falls by 1;
  - if that empties the list, one `HEAD_SIZE` head is put at the centre.
- **ScoresRoute.Validate:**
  - "Invalid payload" exactly when the name is falsy or the score is not a number;
  - "Player name required" exactly when that check passes and the sanitised name is empty;
  - otherwise the payload carries the sanitised name (nonempty, at most 64 code units), the score and the game.
- **ScoresRoute.Post:**
  - each 400 and 500 reply is given, with its message;
  - a saved row gives the inserted row, `IsNewBest` of the top-2 answer, and `RankOf` over the game's rows.
- **PapopePage.PageRequestAccepted:** a trimmed, nonempty name of at most 32 code units passes both 400 checks of the route and reaches the database unchanged.
- **PapopePage.Page.HandleGameEnd:**
  - the score is the final score and the phase becomes the result;
  - a saved reply sets the best flag and the rank;
  - an error reply or a failed fetch leaves no best and no rank;
  - a decoded reply bumps the leaderboard key.

## Left out

- Canvas drawing, image loading and the emoji fallback are left out. They are rendering only and change no modelled state.
- A resize changes the canvas size, and the click handler's re-seed reads the current canvas width and height (components/PapopeGame.tsx:249-250). The model uses the arena size fixed at init, which is what the frame loop uses; it does not model resizes.
- `requestAnimationFrame` and `performance.now()` are replaced by an explicit `Tick(dt)`, with `dt` a parameter.
- `onGameEnd` becomes `Tick`'s `report` result.
- `Math.random`, `Math.cos` and `Math.sin` are replaced by their results, passed in as `Draw` and `ClickDraws`.
- Floating-point rounding is not modelled: coordinates, velocities and time are reals.
- The 120 ms timer that clears the flash flag is left out. It acts on a head that is no longer in the list.
- The "+1" score floats are cosmetic and left out.
- The display setters (`setDisplayTime`, `setDisplayScore`, `setHeadCount`) and the HUD are left out.
- The database queries, the `await`s and the JSON body parsing are inputs to `Post`: an `Option<Body>` and an `Option<DbAnswers>`. A thrown query is `None`.
- The `GET` handler is left out. It is a plain top-10 query.
- `String(v)` of numbers, arrays and objects is taken as given text in the `Value` datatype. JSON parsing is not modelled. `String(playerName)` throws, giving the 500 reply, for an object whose `toString` and `valueOf` give no primitive (for example `{"toString": 1}`); `Compound(text)` cannot express that, so the model always renders such a name.
- Audio playback and fades are left out, since they are audio only.
- The `countdownNum` digits (timers t3 and t4) and the intro-music timer are left out. They change no modelled state.
- The JSX sub-screens are left out.
- The page's `fetch` is asynchronous. The model takes its reply synchronously inside `HandleGameEnd`, so a reply that arrives after a replay is not modelled.
- The posted score's decimal text (the helper `DecimalText`) carries no contract. The route never stringifies the score, so nothing depends on it.
- ScoresRoute.Sanitize: states "a contiguous piece of the first 64 code units" through `Trim`'s contract, not as an explicit infix bound on its own result.
