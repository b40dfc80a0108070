/**
 * The game session of `script.js` as a state machine over values: the module-level
 * variables form a `Game`, and each operation (`startGame`, a timer tick,
 * `submitWord` with the opponent's reply, `getHint`, `resetGame`) is a function
 * from the old `Game` to the new one. The class in session.dfy runs the same
 * operations in place and is proved to agree with these functions.
 */
module Rules {
  import opened Wrappers
  import opened Text
  import opened Scoring
  import opened Clock
  import opened Opponent

  /** Achievements that the game checks (`Quick Thinker` is declared but never checked). */
  datatype Achievement = VocabularyMaster | StreakMaster

  /** An entry of `gameHistory`; a player's entry records the word's points without bonus. */
  datatype Entry = Human(word: string, points: nat) | Qbit(word: string)

  /** The module-level variables of the game. `highScore` stands for the stored high score. */
  datatype Game = Game(
    usedWords: set<string>,
    lastWord: string,
    history: seq<Entry>,
    isProcessing: bool,
    timeLeft: int,
    initialTimeLimit: int,
    gameActive: bool,
    streakCount: nat,
    pointsEarned: nat,
    totalCorrectWords: nat,
    highScore: nat,
    difficulty: Difficulty,
    playerName: string,
    earned: set<Achievement>)

  /** Which branch of `submitWord` a submission takes. */
  datatype Branch =
    | Ignored              // inactive game or a lookup still pending
    | EmptyWord            // nothing left after trimming
    | AlreadyUsed          // the word is in `usedWords`
    | NotAWord             // the dictionary does not know it
    | WrongLetter(required: char)  // it does not start with the previous word's last letter
    | FirstWord            // accepted as the first word of the chain
    | ChainedWord          // accepted as continuing the chain

  const VocabularyLength: nat := 8
  const StreakMasterLength: nat := 5
  const HintCost: nat := 5

  function LastChar(w: string): char
    requires w != []
  {
    w[|w| - 1]
  }

  /** The text `submitWord` works on: the input trimmed and lower-cased. */
  function Normalize(input: string): string {
    ToLower(Trim(input))
  }

  /** The state when the page loads, given the stored high score (absent reads as 0). */
  function Initial(storedHighScore: nat): Game {
    Game({}, "", [], false, DefaultTimeLimit, DefaultTimeLimit, false, 0, 0, 0,
         storedHighScore, Normal, "", {})
  }

  /** The set of words in a history. */
  function WordsOf(history: seq<Entry>): set<string> {
    set i | 0 <= i < |history| :: history[i].word
  }

  /**
   * The chain invariant: `usedWords` holds exactly the history's words, each once;
   * `lastWord` is the latest entry's word (empty exactly when there is none);
   * every player word after the first starts with the last letter of the entry
   * before it, and records the points of the game's difficulty.
   */
  ghost predicate Valid(g: Game) {
    && g.usedWords == WordsOf(g.history)
    && (forall i, j :: 0 <= i < j < |g.history| ==> g.history[i].word != g.history[j].word)
    && (forall i :: 0 <= i < |g.history| ==> g.history[i].word != [])
    && (g.history == [] <==> g.lastWord == [])
    && (g.history != [] ==> g.lastWord == g.history[|g.history| - 1].word)
    && (forall i :: 0 < i < |g.history| && g.history[i].Human? ==>
          g.history[i].word[0] == LastChar(g.history[i - 1].word))
    && (forall i :: 0 <= i < |g.history| && g.history[i].Human? ==>
          g.history[i].points == CalculatePoints(g.difficulty, g.history[i].word))
  }

  /** The acceptance rule of the word chain, independent of how `submitWord` is laid out. */
  predicate Admissible(g: Game, word: string, wordExists: bool) {
    !g.isProcessing && g.gameActive && word != [] && word !in g.usedWords && wordExists &&
    (g.lastWord == [] || word[0] == LastChar(g.lastWord))
  }

  /** `resetGameState`: clears the chain and the correct-word count, nothing else. */
  function ResetGameState(g: Game): Game {
    g.(history := [], usedWords := {}, lastWord := "", isProcessing := false, totalCorrectWords := 0)
  }

  /** `startTimer` (and `resetTimer`, which has the same effect): a fresh countdown. */
  function StartTimer(g: Game): Game {
    g.(timeLeft := g.initialTimeLimit, gameActive := true)
  }

  /** `handleTimeout`: the game stops and the countdown is cleared. */
  function Timeout(g: Game): Game {
    g.(gameActive := false)
  }

  /** One run of the interval callback; there is no live interval once the game is inactive. */
  function Tick(g: Game): Game {
    if !g.gameActive then g
    else
      var t := g.timeLeft - 1;
      if t <= 0 then Timeout(g.(timeLeft := t)) else g.(timeLeft := t)
  }

  /** `startGame` once the player has given a name: configure, reset and start the countdown. */
  function Begin(g: Game, player: string, d: Difficulty, timeLimit: int): Game {
    var limit := ScaledTimeLimit(d, timeLimit);
    var g1 := g.(playerName := player, difficulty := d, initialTimeLimit := limit,
                 timeLeft := limit, streakCount := 0, pointsEarned := 0);
    StartTimer(ResetGameState(g1))
  }

  /** `startGame`: returns the new state and whether the (trimmed) name was non-empty. */
  function StartGame(g: Game, name: string, d: Difficulty, timeLimit: int): (Game, bool) {
    var player := Trim(name);
    if player == [] then (g, false) else (Begin(g, player, d, timeLimit), true)
  }

  /** The branch `submitWord` takes for the normalized `word`, given the dictionary's answer. */
  function Judge(g: Game, word: string, wordExists: bool): (b: Branch)
    ensures b == Ignored <==> g.isProcessing || !g.gameActive
    ensures (b == FirstWord || b == ChainedWord) <==> Admissible(g, word, wordExists)
    ensures b == FirstWord ==> g.lastWord == []
    ensures b == ChainedWord ==> g.lastWord != []
    ensures b == EmptyWord <==> !g.isProcessing && g.gameActive && word == []
    ensures b == AlreadyUsed <==> !g.isProcessing && g.gameActive && word != [] && word in g.usedWords
    ensures b == NotAWord <==>
      !g.isProcessing && g.gameActive && word != [] && word !in g.usedWords && !wordExists
    ensures b.WrongLetter? <==>
      && !g.isProcessing && g.gameActive && word != [] && word !in g.usedWords && wordExists
      && g.lastWord != [] && word[0] != LastChar(g.lastWord)
    ensures b.WrongLetter? ==> b.required == LastChar(g.lastWord)
  {
    if g.isProcessing || !g.gameActive then Ignored
    else if word == [] then EmptyWord
    else if word in g.usedWords then AlreadyUsed
    else if !wordExists then NotAWord
    else if g.lastWord == [] then FirstWord
    else if word[0] != LastChar(g.lastWord) then WrongLetter(LastChar(g.lastWord))
    else ChainedWord
  }

  /** `unlockAchievement`. */
  function Unlock(g: Game, a: Achievement): Game {
    g.(earned := g.earned + {a})
  }

  /** `checkAchievements` for the word just accepted. */
  function CheckAchievements(g: Game, word: string): Game {
    var g1 := if VocabularyMaster !in g.earned && |word| > VocabularyLength
              then Unlock(g, VocabularyMaster) else g;
    if StreakMaster !in g1.earned && g1.streakCount >= StreakMasterLength
    then Unlock(g1, StreakMaster) else g1
  }

  /**
   * What `submitWord` does to every word the dictionary knows, before it checks
   * the letter: count it as correct, add its points, extend the streak.
   */
  function Score(g: Game, word: string): Game {
    g.(totalCorrectWords := g.totalCorrectWords + 1,
       pointsEarned := g.pointsEarned + CalculatePoints(g.difficulty, word),
       streakCount := g.streakCount + 1)
  }

  /**
   * The rest of the bookkeeping of an accepted word, common to both acceptance
   * paths: chain and record it, add the bonus of a streak of three, raise the high score.
   */
  function Record(g: Game, word: string): Game {
    var wordPoints := CalculatePoints(g.difficulty, word);
    var bonus := if g.streakCount >= StreakThreshold then StreakBonus(wordPoints) else 0;
    var points := g.pointsEarned + bonus;
    g.(lastWord := word, usedWords := g.usedWords + {word},
       history := g.history + [Human(word, wordPoints)],
       pointsEarned := points,
       highScore := if points > g.highScore then points else g.highScore)
  }

  /** An accepted word's whole bookkeeping. */
  function Accept(g: Game, word: string): Game {
    Record(Score(g, word), word)
  }

  /** `handleQbitTurn`: an empty or missing reply ends the game as the player's win. */
  function QbitTurn(g: Game, reply: Option<string>): Game {
    if reply.Some? && reply.value != [] then
      var w := reply.value;
      StartTimer(g.(lastWord := w, usedWords := g.usedWords + {w},
                    history := g.history + [Qbit(w)])).(isProcessing := false)
    else
      g.(gameActive := false, isProcessing := false)
  }

  /** The opponent's turn after an accepted word, given the word search's answer. */
  function Reply(g: Game, candidates: seq<string>): Game {
    QbitTurn(g, QbitWord(candidates, g.usedWords))
  }

  /** `submitWord` on the raw input. */
  function Submit(g: Game, input: string, wordExists: bool, candidates: seq<string>): (Game, Branch) {
    Play(g, Normalize(input), wordExists, candidates)
  }

  /** `submitWord` from the normalized word on, with the opponent's turn after an accepted word. */
  function Play(g: Game, word: string, wordExists: bool, candidates: seq<string>): (Game, Branch) {
    var b := Judge(g, word, wordExists);
    match b
    case NotAWord => (g.(streakCount := 0), b)
    case WrongLetter(_) => (Score(g, word).(streakCount := 0), b)
    case FirstWord => (Reply(Accept(g, word), candidates), b)
    case ChainedWord =>
      (Reply(StartTimer(CheckAchievements(Accept(g, word), word)), candidates), b)
    case _ => (g, b)
  }

  /**
   * The rest of `submitWord` once a dictionary word has been scored, on the state
   * `s` in which the lookup is still pending: the chain-letter check and either
   * path of acceptance.
   */
  function ChainTurn(s: Game, word: string, candidates: seq<string>): (Game, Branch)
    requires word != []
  {
    if s.lastWord == [] then (Reply(Record(s, word), candidates), FirstWord)
    else if word[0] != LastChar(s.lastWord) then
      (s.(streakCount := 0, isProcessing := false), WrongLetter(LastChar(s.lastWord)))
    else (Reply(StartTimer(CheckAchievements(Record(s, word), word)), candidates), ChainedWord)
  }

  /** `getHint`: the hints found, and the state with the hint's cost paid. */
  function Hint(g: Game, candidates: seq<string>): (Game, seq<string>) {
    if g.lastWord == [] || !g.gameActive then (g, [])
    else
      var hints := Hints(candidates, g.usedWords);
      if |hints| > 0 then
        (g.(pointsEarned := if g.pointsEarned >= HintCost then g.pointsEarned - HintCost else 0), hints)
      else (g, hints)
  }

  /** The things that can happen to a session. */
  datatype Event =
    | Start(name: string, level: Difficulty, timeLimit: int)
    | ClockTick
    | SubmitWord(input: string, wordExists: bool, candidates: seq<string>)
    | AskHint(candidates: seq<string>)
    | NewGame

  function Step(g: Game, e: Event): Game {
    match e
    case Start(name, d, t) => StartGame(g, name, d, t).0
    case ClockTick => Tick(g)
    case SubmitWord(input, ok, candidates) => Submit(g, input, ok, candidates).0
    case AskHint(candidates) => Hint(g, candidates).0
    case NewGame => ResetGameState(g)
  }

  function Run(g: Game, events: seq<Event>): Game
    decreases |events|
  {
    if events == [] then g else Run(Step(g, events[0]), events[1..])
  }

  /** The events that happen within one game (neither a new start nor a reset). */
  predicate InGame(e: Event) {
    e.ClockTick? || e.SubmitWord? || e.AskHint?
  }
}
