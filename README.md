# Word chain: the game session of `script.js`

`script.js` runs a browser word-chain game against a computer opponent, "Qbit".
The player enters a word. A dictionary service says whether the word exists. The
word must start with the last letter of the previous word and must not have been
used before. After an accepted word Qbit answers with a word from a word-search
service. A countdown limits each turn, and points, a streak, a high score and two
achievements are kept along the way.

This project models the state machine under the page: the module-level variables
and every operation that changes them. It leaves out the DOM and the network.

- `wrappers.dfy` holds `Option`.
- `text.dfy` models the string operations the game relies on: JavaScript's `trim`,
  ASCII `toLowerCase`, and decimal numerals for the timer text.
- `scoring.dfy` models `calculatePoints` and the streak bonus.
- `clock.dfy` models the difficulty-scaled time limit and the timer text of
  `updateTimerDisplay`. The text is proved to read back to the time it shows.
- `opponent.dfy` models the filter of `getQbitWord` (lower-case, drop used words,
  take the first) and the filter of `getHint` (drop used words, take at most three).
- `rules.dfy` models the whole session as values. A `Game` holds the variables.
  Each operation is a function from the old `Game` to the new one: start, tick,
  submit (including the opponent's turn), hint and reset. `Valid` is the chain
  invariant. `Step`/`Run` replay a sequence of events.
- `properties.dfy` proves what the rules promise:
  - the invariant is kept by every event;
  - the high score never falls and achievements are never lost;
  - the chain only grows within a game;
  - a timed-out game is frozen;
  - each branch of `submitWord` has exact effects;
  - the quirks of the code as written hold.
- `session.dfy` holds the class `GameSession`. Its fields are the module-level
  variables, and its methods update them in place as the JavaScript functions do.
  Each method is proved to perform exactly the matching `Rules` transition, so
  every lemma of `properties.dfy` applies to the object.

The dictionary's answer (`checkWordExists`) is a boolean parameter. The
word-search answers (`getQbitWord`, `getHint`) are candidate lists given as
parameters. The stored high score is the field `highScore`, and its value at page
load is a parameter of the constructor. `submitWord` is one atomic step: its two
lookups are awaited inside it, so a timer tick cannot fall between them.

Where the code and its description differ, the model follows the code:

- A history entry records the word's points without the streak bonus.
- A word that fails the last-letter check has already been scored. It counts as
  correct and keeps its base points. Its streak is then reset, and the high score
  is not updated.
- The first word of a game neither checks achievements nor resets the timer.
- Achievements belong to the page and are never reset by a new game.
- Hint candidates are filtered without lower-casing, unlike the opponent's.
- An empty reply from the opponent counts as no reply: the player wins.

## Model

| member | source | states |
|---|---|---|
| Text.Trim | script.js:140 | the result is the input without its leading and trailing JavaScript whitespace: a slice whose ends are not whitespace, empty exactly when the input is all whitespace |
| Text.ToLower | script.js:140 | same length, no capital letter left, capitals moved down by 32 and other characters unchanged |
| Text.TrimIdempotent | script.js:140 | trimming twice is trimming once |
| Text.ToLowerIdempotent | script.js:124 | lower-casing twice is lower-casing once |
| Text.ToLowerKeepsLower | script.js:124 | a string without capitals is its own lower-case form |
| Scoring.CalculatePoints | script.js:16-24 | points are `len` on easy, `floor(1.5·len)` on normal and `2·len` on hard, so always between `len` and `2·len` |
| Scoring.CalculatePointsMonotone | script.js:16-24 | harder difficulties never give fewer points for the same word |
| Scoring.StreakBonus | script.js:187-189 | the bonus is `floor(points / 2)` |
| Clock.ScaledTimeLimit | script.js:37-42 | the limit is `floor(0.7·t)` on hard, `floor(1.3·t)` on easy and `t` on normal; for `t ≥ 0` hard never lengthens and easy never shortens it |
| Clock.ScaledDefaultLimits | script.js:37-42 | the default 30 seconds become 21 on hard and 39 on easy |
| Clock.JsRemainder60 | script.js:77 | `t % 60` with JavaScript's sign-of-dividend remainder |
| Clock.FormatTimeRoundTrip | script.js:75-82 | for a non-negative time, the shown text `"Xm Ys"` (minutes > 0) or `"Ys"` reads back to the time left |
| Opponent.LowerAll | script.js:124 | every candidate lower-cased, in order |
| Opponent.Unused | script.js:125 | exactly the words not yet used, order kept; empty exactly when all are used |
| Opponent.UnusedStartsWithEarliest | script.js:125 | the filter keeps the earliest unused word in front |
| Opponent.QbitWord | script.js:123-127 | no reply exactly when every lower-cased candidate is used; otherwise an unused lower-cased candidate |
| Opponent.QbitWordIsFirstUnused | script.js:127 | the reply is the first lower-cased candidate not yet used |
| Opponent.QbitWordKeepsLetter | script.js:121 | when every candidate starts with the required letter, so does the reply |
| Opponent.Hints | script.js:264-267 | at most three hints, the first unused candidates in order, none of them used; none exactly when every candidate is used |
| Rules.Judge | script.js:134-221 | each branch exactly by its inputs: ignored when a lookup is pending or the game is over; otherwise empty word, then used word, then dictionary rejection, then wrong letter (reporting the required letter), else accepted as first or chained word |
| Opponent.UnusedSingle | script.js:125 | one word survives the filter exactly when it is unused |
| Opponent.UnusedAppend | script.js:125 | filtering a concatenation concatenates the filtered parts, so order and repetitions are kept word by word |
| Rules.Normalize | script.js:140 | trimmed, then lower-cased; its properties are those of `Text.Trim` and `Text.ToLower`, and `Properties.BlankInputRefused` states its blank case |
| Rules.Initial | script.js:1-14 | the page-load values; `Properties.InitialValid` states that they satisfy the invariant |
| Rules.Valid | script.js:179-225 | the chain invariant: `usedWords` is the set of history words, each once and non-empty; `lastWord` is the last entry's word; each player word continues the chain and records its base points. It is kept by every event, as `Properties.RunPreservesValid` states |
| Rules.StartTimer | script.js:60-62 | full countdown and a running game; `Properties.StartTimerKeepsValid` and `Properties.QbitTurnEffects` state its effects |
| Rules.Timeout | script.js:84-86 | the game stops; `Properties.TickEffects` and `Properties.TimeoutStopsSubmissions` state it |
| Rules.Tick | script.js:65-72 | one second off a running game, stopping it at zero; `Properties.TickEffects` states this |
| Rules.Begin | script.js:33-56 | the configured, reset and started game; `Properties.BeginIsValid` and `Properties.StartGameEffects` state it |
| Rules.StartGame | script.js:26-58 | `Properties.StartGameEffects` states its whole effect |
| Rules.ResetGameState | script.js:350-355 | the five reset variables and nothing else; `Properties.ResetIsValid` states that the result is valid |
| Rules.Unlock | script.js:296-297 | the achievement is added; `Properties.CheckAchievementsEffects` states the result |
| Rules.CheckAchievements | script.js:286-294 | `Properties.CheckAchievementsEffects` states exactly when each flag is earned |
| Rules.Score | script.js:169-176 | the scoring done before the last-letter check; `Properties.WrongLetterEffects` and `Properties.AcceptEffects` state it |
| Rules.Record | script.js:223-243 | chaining, recording without bonus, the bonus and the high score; `Properties.AcceptEffects` states it |
| Rules.Accept | script.js:169-243 | `Properties.AcceptEffects` and `Properties.AcceptPreservesValid` state it |
| Rules.QbitTurn | script.js:305-331 | `Properties.QbitTurnEffects` and `Properties.QbitTurnPreservesValid` state it |
| Rules.Reply | script.js:207-208 | the opponent's turn on the filtered answer; `Properties.ReplyEffects` states it |
| Rules.ChainTurn | script.js:212-255 | the last-letter check and both acceptance paths; `Properties.PlayIsScoreThenChain` ties it to `Rules.Play` |
| Rules.Play | script.js:156-256 | `Properties.RejectedSubmission`, `Properties.WrongLetterEffects`, `Properties.AcceptedWordEffects` and `Properties.PlayPreservesValid` state its branches, including that only a chained word checks achievements and restarts the countdown |
| Rules.Submit | script.js:134-154 | `Rules.Play` on the normalized input; `Properties.BlankInputRefused` and `Properties.TimeoutStopsSubmissions` state the guards |
| Rules.Hint | script.js:257-277 | `Properties.HintEffects` states its whole effect |
| Clock.FormatTime | script.js:75-82 | `Clock.FormatTimeRoundTrip` states that the text reads back to the time |
| Properties.InitialValid | script.js:1-14 | the page's initial state satisfies the chain invariant |
| Properties.ResetIsValid | script.js:350-355 | a reset leaves a valid, empty chain |
| Properties.StartTimerKeepsValid | script.js:60-62 | starting the countdown keeps the chain invariant |
| Properties.BeginIsValid | script.js:33-56 | a started game satisfies the chain invariant |
| Properties.LastWordIsUsed | script.js:180-181 | in a valid state a non-empty `lastWord`, and every history word, is in `usedWords` |
| Properties.AppendPreservesValid | script.js:223-225 | appending a fresh, non-empty word keeps the invariant, provided a player's word carries its points and continues the chain |
| Properties.AcceptPreservesValid | script.js:174-243 | an accepted word's bookkeeping keeps the invariant |
| Properties.QbitTurnPreservesValid | script.js:305-311 | the opponent's turn with a reply not yet used keeps the invariant (the reply is not checked against the last letter, as in the code) |
| Properties.PlayPreservesValid | script.js:134-256 | every branch of `submitWord`, opponent's turn included, keeps the invariant |
| Properties.StepPreservesValid | script.js:26-355 | every event (start, tick, submission, hint, reset) keeps the invariant |
| Properties.RunPreservesValid | script.js:26-355 | any sequence of events keeps the invariant |
| Properties.PlayKeepsHighScoreAndAchievements | script.js:196-199 | a submission never lowers the high score nor removes an achievement |
| Properties.StepKeepsHighScoreAndAchievements | script.js:239-243 | no event lowers the high score or removes an achievement |
| Properties.RunKeepsHighScoreAndAchievements | script.js:286-297 | over any sequence of events the high score never falls and achievements stay earned |
| Properties.PlayExtendsChain | script.js:223-225 | a submission only appends to the history and only adds to `usedWords` |
| Properties.StepInGameExtendsChain | script.js:309-311 | ticks, submissions and hints only extend the history and `usedWords` |
| Properties.RunInGameExtendsChain | script.js:134-277 | within one game the history only grows at its end and `usedWords` only grows |
| Properties.TickEffects | script.js:65-72 | a tick of a running game takes one second off and ends the game when that reaches 0; a tick of a stopped game changes nothing |
| Properties.InactiveGameIsFrozen | script.js:135 | once the game is over, ticks, submissions and hints change nothing |
| Properties.TimeoutStopsSubmissions | script.js:84-90 | the tick that runs the time out stops the game, and the next submission is ignored |
| Properties.StartGameEffects | script.js:26-58 | a start happens exactly when the trimmed name is non-empty; it sets the scaled limit, a full countdown, an empty chain and zero streak and points, and keeps the high score and achievements; a refused start changes nothing |
| Properties.BlankInputRefused | script.js:145-148 | blank input is refused and changes nothing |
| Properties.RejectedSubmission | script.js:135-168 | an ignored, empty or duplicate submission changes nothing; a dictionary rejection only resets the streak |
| Properties.UsedWordRefused | script.js:150-154 | in a valid state a word already used is refused whatever the dictionary says |
| Properties.WrongLetterEffects | script.js:169-221 | a wrong-letter word resets the streak, keeps the chain and high score, and still counts as correct with its base points |
| Properties.AcceptEffects | script.js:169-200 | an accepted word raises the streak by one and the points by its points plus half of them from a streak of three; the history records the points without bonus; the high score covers the points |
| Properties.PendingLookupForgotten | script.js:329 | after the opponent's turn it makes no difference that a lookup was pending (first word) |
| Properties.PendingLookupForgottenChained | script.js:329 | the same for a chained word |
| Properties.PlayIsScoreThenChain | script.js:169-221 | a fresh dictionary word is scored first and only then checked against the last letter |
| Properties.ReplyEffects | script.js:305-331 | the opponent's reply continues the chain and restarts the countdown, or, when there is none, ends the game with the chain and the countdown unchanged; achievements are untouched and the lookup is over either way |
| Properties.AcceptedWordEffects | script.js:174-256 | an accepted word is admissible, new, scored with the streak bonus, leaves the high score at or above the points, and is followed by the opponent's reply or the player's win; a first word leaves the achievements and, without a reply, the countdown as they were, while a chained word earns each achievement exactly by its length or its streak and restarts the countdown |
| Properties.CheckAchievementsEffects | script.js:286-294 | Vocabulary Master is earned by a word of more than eight letters, Streak Master by a streak of five; nothing else changes |
| Properties.QbitTurnEffects | script.js:305-331 | the opponent's turn always ends the lookup; with no word it ends the game and keeps the chain; otherwise it chains the word and restarts the countdown |
| Properties.HintEffects | script.js:257-277 | a hint needs a started, running game; it shows at most three unused candidates and costs five points, floored at zero, only when it shows any |
| Properties.WrongLetterCanPassHighScore | script.js:173-221 | after "apple", the word "zebra" is refused yet leaves the points above the high score |
| Session.GameSession.constructor | script.js:1-14 | the fields start as the page's globals do, with the stored high score |
| Session.GameSession.StartTimer | script.js:60-73 | the countdown restarts from the limit and the game runs |
| Session.GameSession.HandleTimeout | script.js:84-90 | the game stops |
| Session.GameSession.ResetTimer | script.js:92-97 | the countdown restarts from the limit |
| Session.GameSession.Tick | script.js:65-72 | one interval callback: `Rules.Tick` in place, on any state; a valid state stays valid |
| Session.GameSession.ResetGameState | script.js:350-355 | `resetGameState` in place, leaving a valid empty chain |
| Session.GameSession.ClearChain | script.js:350-355 | the assignments of `resetGameState` |
| Session.GameSession.StartGame | script.js:26-58 | `startGame` in place; a started game is valid |
| Session.GameSession.BeginGame | script.js:33-56 | `startGame` after the name check, as `Rules.Begin`, leaving a valid state |
| Session.GameSession.UnlockAchievement | script.js:296-297 | the achievement is marked earned |
| Session.GameSession.CheckAchievements | script.js:286-294 | `checkAchievements` in place |
| Session.GameSession.HandleQbitTurn | script.js:305-331 | `handleQbitTurn` in place |
| Session.GameSession.RecordWord | script.js:223-243 | the bookkeeping both acceptance paths share: chain the word, record it, add the streak bonus, raise the high score |
| Session.GameSession.AcceptFirstWord | script.js:179-210 | the first-word path with the opponent's turn |
| Session.GameSession.AcceptChainedWord | script.js:223-255 | the chained path: achievements, timer reset and the opponent's turn |
| Session.GameSession.SubmitWord | script.js:134-154 | `submitWord` in place on the raw input: exactly `Rules.Submit`, and the invariant is kept |
| Session.GameSession.LookUpWord | script.js:156-177 | from the dictionary lookup on: exactly `Rules.Play` |
| Session.GameSession.ChainWord | script.js:212-255 | the last-letter check and both acceptance paths, as `Rules.ChainTurn` |
| Session.GameSession.GetHint | script.js:257-277 | `getHint` in place, on any state: the hints shown and the points after their cost; a valid state stays valid |

## Left out

- The DOM is left out: reading inputs, messages, displays, alerts, placeholders, focus, scrolling, and the mobile, touch and styling handlers. The model keeps no text that is only shown.
- The dictionary and word-search requests are network I/O. Their answers are parameters: a boolean for the dictionary, candidate lists for the opponent and the hints. A failed request answers `false` or no words, and the caller picks the parameter to match.
- Local storage is left out: the stored high score is the constructor's parameter and the field `highScore`. The stored value is a string in JavaScript, compared numerically; the model reads it as a number, absent as 0. Writing it back is not modelled.
- `generatePDF` is a foreign library call and is not part of this model. Neither is `updateHistory`'s text, nor the player's name inside history entries.
- Timer scheduling and async interleaving are left out: the real `setInterval` and `setTimeout`, and ticks arriving while a lookup is awaited. A tick is a method call. `submitWord` runs atomically, so `isProcessing` is only seen mid-submission. The model keeps its guard and its reset even though no reachable state between steps has it set. The interval is live exactly when `gameActive` holds, so no extra field stands for it.
- Clock.ScaledTimeLimit: this computes with exact rationals; JavaScript's double multiplication by 0.7 or 1.3 could round differently for some inputs.
- Clock.FormatTimeRoundTrip: this is stated for non-negative times only. `FormatTime` itself follows JavaScript's floor and remainder for negative times too.
- Scoring.CalculatePoints: lengths and indices count Unicode code points, where JavaScript's `word.length`, `word[0]` and `lastWord[lastWord.length - 1]` count UTF-16 code units. The two differ for characters outside the Basic Multilingual Plane, which then score differently and have no lone-surrogate "last letter". The same holds for `Rules.LastChar` and the chain-letter checks.
- Text.ToLower: this lower-cases ASCII letters only; JavaScript's Unicode case mapping is not modelled.
- Text.Trim: this uses JavaScript's whitespace set as character literals, without Unicode categories beyond that set.
- The time limit is taken as an integer parameter. A `parseInt` result of `NaN`, or a difficulty outside easy, normal and hard, is not modelled, since the page's select boxes only offer valid values.
- The "Quick Thinker" achievement is declared but never checked, so it is not modelled.
