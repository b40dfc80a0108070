/** What the game's rules guarantee, proved about the functions of `Rules`. */
module Properties {
  import opened Wrappers
  import opened Text
  import opened Scoring
  import opened Clock
  import opened Opponent
  import opened Rules

  // ---------------------------------------------------------------------------
  // The chain invariant

  lemma InitialValid(storedHighScore: nat)
    ensures Valid(Initial(storedHighScore))
  {
  }

  /** A reset leaves an empty chain, which is valid under any difficulty. */
  lemma ResetIsValid(g: Game)
    ensures Valid(ResetGameState(g))
  {
    assert WordsOf([]) == {};
  }

  lemma StartTimerKeepsValid(g: Game)
    requires Valid(g)
    ensures Valid(StartTimer(g))
  {
    ValidFromChain(g, StartTimer(g));
  }

  /** A game begins with an empty chain. */
  lemma BeginIsValid(g: Game, player: string, d: Difficulty, timeLimit: int)
    ensures Valid(Begin(g, player, d, timeLimit))
  {
    ResetIsValid(g.(difficulty := d));
  }

  /** In a valid state a non-empty `lastWord` has been used, and so has every history word. */
  lemma LastWordIsUsed(g: Game)
    requires Valid(g)
    ensures g.lastWord != [] ==> g.lastWord in g.usedWords
    ensures forall i :: 0 <= i < |g.history| ==> g.history[i].word in g.usedWords
  {
    if g.lastWord != [] {
      assert g.history[|g.history| - 1].word == g.lastWord;
    }
  }

  /** `Valid` only looks at the chain and the difficulty. */
  lemma ValidFromChain(g: Game, g': Game)
    requires Valid(g)
    requires g'.usedWords == g.usedWords && g'.lastWord == g.lastWord
    requires g'.history == g.history && g'.difficulty == g.difficulty
    ensures Valid(g')
  {
  }

  lemma WordsOfAppend(history: seq<Entry>, e: Entry)
    ensures WordsOf(history + [e]) == WordsOf(history) + {e.word}
  {
    var h := history + [e];
    forall w | w in WordsOf(h) ensures w in WordsOf(history) + {e.word} {
      var i :| 0 <= i < |h| && h[i].word == w;
      if i < |history| {
        assert history[i].word == w;
      }
    }
    forall w | w in WordsOf(history) + {e.word} ensures w in WordsOf(h) {
      if w == e.word {
        assert h[|history|].word == w;
      } else {
        var i :| 0 <= i < |history| && history[i].word == w;
        assert h[i].word == w;
      }
    }
  }

  /** Adding a fresh, non-empty word at the end of a valid chain keeps it valid. */
  lemma {:induction false} AppendPreservesValid(g: Game, e: Entry)
    requires Valid(g)
    requires e.word != [] && e.word !in g.usedWords
    requires e.Human? ==> e.points == CalculatePoints(g.difficulty, e.word)
    requires e.Human? && g.lastWord != [] ==> e.word[0] == LastChar(g.lastWord)
    ensures Valid(g.(lastWord := e.word, usedWords := g.usedWords + {e.word}, history := g.history + [e]))
  {
    var g' := g.(lastWord := e.word, usedWords := g.usedWords + {e.word}, history := g.history + [e]);
    var h, n := g'.history, |g.history|;
    WordsOfAppend(g.history, e);
    forall i, j | 0 <= i < j < |h| ensures h[i].word != h[j].word {
      if j == n {
        assert g.history[i].word in WordsOf(g.history);
      }
    }
    forall i | 0 < i < |h| && h[i].Human? ensures h[i].word[0] == LastChar(h[i - 1].word) {
      if i == n {
        assert g.history != [] && g.lastWord == g.history[n - 1].word;
      }
    }
  }

  lemma {:induction false} AcceptPreservesValid(g: Game, word: string, wordExists: bool)
    requires Valid(g) && Admissible(g, word, wordExists)
    ensures Valid(Accept(g, word))
  {
    AppendPreservesValid(g, Human(word, CalculatePoints(g.difficulty, word)));
  }

  lemma {:induction false} QbitTurnPreservesValid(g: Game, reply: Option<string>)
    requires Valid(g)
    requires reply.Some? ==> reply.value !in g.usedWords
    ensures Valid(QbitTurn(g, reply))
  {
    if reply.Some? && reply.value != [] {
      AppendPreservesValid(g, Qbit(reply.value));
    }
  }

  lemma {:induction false} PlayPreservesValid(g: Game, word: string, wordExists: bool, candidates: seq<string>)
    requires Valid(g)
    ensures Valid(Play(g, word, wordExists, candidates).0)
  {
    match Judge(g, word, wordExists)
    case FirstWord =>
      AcceptPreservesValid(g, word, wordExists);
      var a := Accept(g, word);
      QbitTurnPreservesValid(a, QbitWord(candidates, a.usedWords));
    case ChainedWord =>
      AcceptPreservesValid(g, word, wordExists);
      var a := Accept(g, word);
      var c := StartTimer(CheckAchievements(a, word));
      ValidFromChain(a, c);
      QbitTurnPreservesValid(c, QbitWord(candidates, c.usedWords));
    case _ =>
  }

  /** The same fact as an implication, so that a caller need not assume `Valid(g)`. */
  lemma PlayKeepsValid(g: Game, word: string, wordExists: bool, candidates: seq<string>)
    ensures Valid(g) ==> Valid(Play(g, word, wordExists, candidates).0)
  {
    if Valid(g) { PlayPreservesValid(g, word, wordExists, candidates); }
  }

  lemma {:induction false} StepPreservesValid(g: Game, e: Event)
    requires Valid(g)
    ensures Valid(Step(g, e))
  {
    match e
    case SubmitWord(input, ok, candidates) => PlayPreservesValid(g, Normalize(input), ok, candidates);
    case _ =>
  }

  /** Every state reachable from a valid state is valid; in particular from the initial one. */
  lemma {:induction false} RunPreservesValid(g: Game, events: seq<Event>)
    requires Valid(g)
    ensures Valid(Run(g, events))
    decreases |events|
  {
    if events != [] {
      StepPreservesValid(g, events[0]);
      RunPreservesValid(Step(g, events[0]), events[1..]);
    }
  }

  // ---------------------------------------------------------------------------
  // What never goes back

  lemma PlayKeepsHighScoreAndAchievements(g: Game, word: string, wordExists: bool, candidates: seq<string>)
    ensures Play(g, word, wordExists, candidates).0.highScore >= g.highScore
    ensures g.earned <= Play(g, word, wordExists, candidates).0.earned
  {
    match Judge(g, word, wordExists)
    case FirstWord =>
      var a := Accept(g, word);
      assert a.highScore >= g.highScore && a.earned == g.earned;
    case ChainedWord =>
      var a := Accept(g, word);
      assert a.highScore >= g.highScore && a.earned == g.earned;
      assert g.earned <= CheckAchievements(a, word).earned;
    case _ =>
  }

  lemma StepKeepsHighScoreAndAchievements(g: Game, e: Event)
    ensures Step(g, e).highScore >= g.highScore
    ensures g.earned <= Step(g, e).earned
  {
    match e
    case SubmitWord(input, ok, candidates) => PlayKeepsHighScoreAndAchievements(g, Normalize(input), ok, candidates);
    case _ =>
  }

  /** The high score never decreases and no achievement is ever taken back. */
  lemma {:induction false} RunKeepsHighScoreAndAchievements(g: Game, events: seq<Event>)
    ensures Run(g, events).highScore >= g.highScore
    ensures g.earned <= Run(g, events).earned
    decreases |events|
  {
    if events != [] {
      StepKeepsHighScoreAndAchievements(g, events[0]);
      RunKeepsHighScoreAndAchievements(Step(g, events[0]), events[1..]);
    }
  }

  lemma PlayExtendsChain(g: Game, word: string, wordExists: bool, candidates: seq<string>)
    ensures var g' := Play(g, word, wordExists, candidates).0;
      g.history <= g'.history && g.usedWords <= g'.usedWords && g'.difficulty == g.difficulty
  {
    match Judge(g, word, wordExists)
    case FirstWord =>
      var a := Accept(g, word);
      assert g.history <= a.history;
    case ChainedWord =>
      var a := Accept(g, word);
      assert g.history <= a.history;
    case _ =>
  }

  lemma StepInGameExtendsChain(g: Game, e: Event)
    requires InGame(e)
    ensures g.history <= Step(g, e).history
    ensures g.usedWords <= Step(g, e).usedWords
    ensures Step(g, e).difficulty == g.difficulty
  {
    match e
    case SubmitWord(input, ok, candidates) => PlayExtendsChain(g, Normalize(input), ok, candidates);
    case _ =>
  }

  /** Within one game the history only grows at its end and `usedWords` only grows. */
  lemma {:induction false} RunInGameExtendsChain(g: Game, events: seq<Event>)
    requires forall i :: 0 <= i < |events| ==> InGame(events[i])
    ensures g.history <= Run(g, events).history
    ensures g.usedWords <= Run(g, events).usedWords
    decreases |events|
  {
    if events != [] {
      StepInGameExtendsChain(g, events[0]);
      RunInGameExtendsChain(Step(g, events[0]), events[1..]);
    }
  }

  // ---------------------------------------------------------------------------
  // The timer

  /** A tick of a running game takes one second off; the one that reaches 0 ends the game. */
  lemma TickEffects(g: Game)
    ensures !g.gameActive ==> Tick(g) == g
    ensures g.gameActive ==>
      && Tick(g).timeLeft == g.timeLeft - 1
      && (Tick(g).gameActive <==> g.timeLeft - 1 > 0)
      && Tick(g) == g.(timeLeft := g.timeLeft - 1, gameActive := g.timeLeft - 1 > 0)
  {
  }

  /** Once the game is over, ticks, submissions and hints change nothing. */
  lemma {:induction false} InactiveGameIsFrozen(g: Game, events: seq<Event>)
    requires !g.gameActive
    requires forall i :: 0 <= i < |events| ==> InGame(events[i])
    ensures Run(g, events) == g
    decreases |events|
  {
    if events != [] {
      assert Step(g, events[0]) == g;
      InactiveGameIsFrozen(g, events[1..]);
    }
  }

  /** The tick that runs the countdown out makes every later submission a no-op. */
  lemma TimeoutStopsSubmissions(g: Game, input: string, wordExists: bool, candidates: seq<string>)
    requires g.gameActive && g.timeLeft <= 1
    ensures !Tick(g).gameActive
    ensures Submit(Tick(g), input, wordExists, candidates) == (Tick(g), Ignored)
  {
  }

  /** `startGame` with a non-empty name: a fresh chain and score under the scaled time limit. */
  lemma StartGameEffects(g: Game, name: string, d: Difficulty, timeLimit: int)
    ensures StartGame(g, name, d, timeLimit).1 <==> Trim(name) != []
    ensures !StartGame(g, name, d, timeLimit).1 ==> StartGame(g, name, d, timeLimit).0 == g
    ensures var (g', started) := StartGame(g, name, d, timeLimit);
      started ==>
        && g'.initialTimeLimit == ScaledTimeLimit(d, timeLimit) && g'.timeLeft == g'.initialTimeLimit
        && g'.gameActive && !g'.isProcessing && g'.difficulty == d && g'.playerName == Trim(name)
        && g'.history == [] && g'.usedWords == {} && g'.lastWord == []
        && g'.streakCount == 0 && g'.pointsEarned == 0 && g'.totalCorrectWords == 0
        && g'.highScore == g.highScore && g'.earned == g.earned
        && Valid(g')
  {
  }

  // ---------------------------------------------------------------------------
  // Submissions

  /** Input that is blank once trimmed is refused and changes nothing. */
  lemma BlankInputRefused(g: Game, input: string, wordExists: bool, candidates: seq<string>)
    requires !g.isProcessing && g.gameActive
    requires forall k :: 0 <= k < |input| ==> IsWhitespace(input[k])
    ensures Submit(g, input, wordExists, candidates) == (g, EmptyWord)
  {
  }

  /** Submissions that are turned away before or at the dictionary leave the score alone. */
  lemma RejectedSubmission(g: Game, word: string, wordExists: bool, candidates: seq<string>)
    ensures var (g', b) := Play(g, word, wordExists, candidates);
      (b == Ignored || b == EmptyWord || b == AlreadyUsed ==> g' == g) &&
      (b == NotAWord ==> g' == g.(streakCount := 0))
  {
  }

  /** Words already in the chain are refused whatever the dictionary says, streak untouched. */
  lemma UsedWordRefused(g: Game, word: string, wordExists: bool, candidates: seq<string>)
    requires Valid(g)
    requires !g.isProcessing && g.gameActive && word in g.usedWords
    ensures Play(g, word, wordExists, candidates) == (g, AlreadyUsed)
  {
    var i :| 0 <= i < |g.history| && g.history[i].word == word;
  }

  /**
   * A wrong-letter word is refused but has already been scored: it counts as correct
   * and keeps its base points, the streak restarts, the chain and the high score stay.
   */
  lemma WrongLetterEffects(g: Game, word: string, wordExists: bool, candidates: seq<string>)
    requires Play(g, word, wordExists, candidates).1.WrongLetter?
    ensures var g' := Play(g, word, wordExists, candidates).0;
      && g'.streakCount == 0
      && g'.totalCorrectWords == g.totalCorrectWords + 1
      && g'.pointsEarned == g.pointsEarned + CalculatePoints(g.difficulty, word)
      && g'.lastWord == g.lastWord && g'.usedWords == g.usedWords && g'.history == g.history
      && g'.highScore == g.highScore && g'.gameActive == g.gameActive
      && g'.timeLeft == g.timeLeft && g'.earned == g.earned
  {
  }

  /** Two appends in a row are one append of both entries. */
  lemma AppendTwice(history: seq<Entry>, e: Entry, f: Entry)
    ensures history + [e] + [f] == history + [e, f]
  {
  }

  /** The state after the player's accepted word, before the opponent answers. */
  lemma {:induction false} AcceptEffects(g: Game, word: string)
    ensures var a := Accept(g, word);
      var p := CalculatePoints(g.difficulty, word);
      && a.streakCount == g.streakCount + 1
      && a.pointsEarned == g.pointsEarned + p + (if a.streakCount >= StreakThreshold then StreakBonus(p) else 0)
      && a.highScore >= a.pointsEarned && a.highScore >= g.highScore
      && (a.highScore == g.highScore || a.highScore == a.pointsEarned)
      && a.totalCorrectWords == g.totalCorrectWords + 1
      && a.history == g.history + [Human(word, p)]
      && a.lastWord == word && a.usedWords == g.usedWords + {word}
  {
  }

  /** Whether a lookup was pending before the opponent's turn makes no difference after it. */
  lemma PendingLookupForgotten(g: Game, word: string, candidates: seq<string>)
    ensures Reply(Record(g.(isProcessing := true), word), candidates) == Reply(Record(g, word), candidates)
  {
    var r := Record(g, word);
    assert Record(g.(isProcessing := true), word) == r.(isProcessing := true);
    assert QbitWord(candidates, r.(isProcessing := true).usedWords) == QbitWord(candidates, r.usedWords);
  }

  lemma PendingLookupForgottenChained(g: Game, word: string, candidates: seq<string>)
    ensures Reply(StartTimer(CheckAchievements(Record(g.(isProcessing := true), word), word)), candidates) ==
            Reply(StartTimer(CheckAchievements(Record(g, word), word)), candidates)
  {
    var r := Record(g, word);
    assert Record(g.(isProcessing := true), word) == r.(isProcessing := true);
    var t := StartTimer(CheckAchievements(r, word));
    assert StartTimer(CheckAchievements(r.(isProcessing := true), word)) == t.(isProcessing := true);
    assert QbitWord(candidates, t.(isProcessing := true).usedWords) == QbitWord(candidates, t.usedWords);
  }

  /** A dictionary word is scored first, then chained; the pending lookup leaves no trace. */
  lemma PlayIsScoreThenChain(g: Game, word: string, candidates: seq<string>)
    requires !g.isProcessing && g.gameActive && word != [] && word !in g.usedWords
    ensures Play(g, word, true, candidates) == ChainTurn(Score(g, word).(isProcessing := true), word, candidates)
  {
    var s := Score(g, word);
    if g.lastWord == [] {
      PendingLookupForgotten(s, word, candidates);
    } else if word[0] != LastChar(g.lastWord) {
    } else {
      PendingLookupForgottenChained(s, word, candidates);
    }
  }

  /** The opponent's answer to the player's accepted word, after the bookkeeping of `Accept`. */
  lemma {:induction false} ReplyEffects(a: Game, candidates: seq<string>)
    ensures var g' := Reply(a, candidates);
      var reply := QbitWord(candidates, a.usedWords);
      && a.usedWords <= g'.usedWords
      && g'.streakCount == a.streakCount && g'.pointsEarned == a.pointsEarned
      && g'.highScore == a.highScore && g'.totalCorrectWords == a.totalCorrectWords
      && g'.earned == a.earned && g'.initialTimeLimit == a.initialTimeLimit
      && !g'.isProcessing
      && (reply.Some? && reply.value != [] ==>
            g'.history == a.history + [Qbit(reply.value)] &&
            g'.lastWord == reply.value && g'.gameActive && g'.timeLeft == g'.initialTimeLimit)
      && (!(reply.Some? && reply.value != []) ==>
            g'.history == a.history && g'.lastWord == a.lastWord && !g'.gameActive &&
            g'.timeLeft == a.timeLeft)
  {
  }

  /**
   * An accepted word is admissible by the chain rule; it is scored with the bonus
   * from a streak of three, recorded without the bonus, and followed by the
   * opponent's reply: the first unused lower-cased candidate, which continues the
   * chain and restarts the countdown, or, when there is none, the player's win.
   * Only a chained word checks the achievements and restarts the countdown itself;
   * the first word of a game does neither.
   */
  lemma {:induction false} AcceptedWordEffects(g: Game, word: string, wordExists: bool, candidates: seq<string>)
    requires Play(g, word, wordExists, candidates).1 == FirstWord ||
             Play(g, word, wordExists, candidates).1 == ChainedWord
    ensures var p := CalculatePoints(g.difficulty, word);
      var (g', b) := Play(g, word, wordExists, candidates);
      var reply := QbitWord(candidates, g.usedWords + {word});
      && Admissible(g, word, wordExists)
      && word !in g.usedWords && word in g'.usedWords
      && g'.streakCount == g.streakCount + 1
      && g'.pointsEarned == g.pointsEarned + p + (if g'.streakCount >= StreakThreshold then StreakBonus(p) else 0)
      && g'.highScore >= g'.pointsEarned
      && g'.totalCorrectWords == g.totalCorrectWords + 1
      && !g'.isProcessing
      && (reply.Some? && reply.value != [] ==>
            g'.history == g.history + [Human(word, p), Qbit(reply.value)] &&
            g'.lastWord == reply.value && g'.gameActive && g'.timeLeft == g'.initialTimeLimit)
      && (!(reply.Some? && reply.value != []) ==>
            g'.history == g.history + [Human(word, p)] && g'.lastWord == word && !g'.gameActive &&
            g'.timeLeft == (if b == FirstWord then g.timeLeft else g.initialTimeLimit))
      && (b == FirstWord ==> g'.earned == g.earned)
      && (b == ChainedWord ==>
            && (VocabularyMaster in g'.earned <==> VocabularyMaster in g.earned || |word| > VocabularyLength)
            && (StreakMaster in g'.earned <==> StreakMaster in g.earned || g.streakCount + 1 >= StreakMasterLength))
  {
    var p := CalculatePoints(g.difficulty, word);
    var a := Accept(g, word);
    AcceptEffects(g, word);
    var c := if Judge(g, word, wordExists) == FirstWord then a else StartTimer(CheckAchievements(a, word));
    assert Play(g, word, wordExists, candidates).0 == Reply(c, candidates);
    assert c.usedWords == a.usedWords && c.history == a.history && c.lastWord == a.lastWord;
    assert c.pointsEarned == a.pointsEarned && c.streakCount == a.streakCount && c.highScore == a.highScore;
    assert a.earned == g.earned && a.timeLeft == g.timeLeft && a.initialTimeLimit == g.initialTimeLimit;
    if Judge(g, word, wordExists) == ChainedWord {
      CheckAchievementsEffects(a, word);
    }
    ReplyEffects(c, candidates);
    var reply := QbitWord(candidates, c.usedWords);
    if reply.Some? {
      AppendTwice(g.history, Human(word, p), Qbit(reply.value));
    }
  }

  /** Only a word longer than eight letters or a streak of five unlocks anything. */
  lemma CheckAchievementsEffects(g: Game, word: string)
    ensures var g' := CheckAchievements(g, word);
      && (VocabularyMaster in g'.earned <==> VocabularyMaster in g.earned || |word| > VocabularyLength)
      && (StreakMaster in g'.earned <==> StreakMaster in g.earned || g.streakCount >= StreakMasterLength)
      && g'.earned <= g.earned + {VocabularyMaster, StreakMaster}
      && g' == g.(earned := g'.earned)
  {
  }

  /** The opponent's turn always ends the lookup; a missing reply ends the game and keeps the chain. */
  lemma QbitTurnEffects(g: Game, reply: Option<string>)
    ensures !QbitTurn(g, reply).isProcessing
    ensures !(reply.Some? && reply.value != []) ==>
      QbitTurn(g, reply) == g.(gameActive := false, isProcessing := false)
    ensures reply.Some? && reply.value != [] ==>
      QbitTurn(g, reply).lastWord == reply.value &&
      QbitTurn(g, reply).usedWords == g.usedWords + {reply.value} &&
      QbitTurn(g, reply).history == g.history + [Qbit(reply.value)] &&
      QbitTurn(g, reply).gameActive && QbitTurn(g, reply).timeLeft == g.initialTimeLimit
  {
  }

  // ---------------------------------------------------------------------------
  // Hints

  /**
   * A hint needs a started, active game; it offers at most three unused candidates
   * and costs five points, floored at zero, only when it offers any.
   */
  lemma HintEffects(g: Game, candidates: seq<string>)
    ensures var (g', hints) := Hint(g, candidates);
      && (g.lastWord == [] || !g.gameActive ==> g' == g && hints == [])
      && |hints| <= MaxHints
      && (forall w :: w in hints ==> w in candidates && w !in g.usedWords)
      && g' == g.(pointsEarned := g'.pointsEarned)
      && g'.pointsEarned == (if hints == [] then g.pointsEarned
                             else if g.pointsEarned >= HintCost then g.pointsEarned - HintCost else 0)
  {
  }

  // ---------------------------------------------------------------------------
  // Examples

  /** A game of normal difficulty whose chain holds only the player's "apple". */
  function AppleGame(): Game {
    Game({"apple"}, "apple", [Human("apple", 7)], false, DefaultTimeLimit, DefaultTimeLimit, true,
         0, 0, 0, 0, Normal, "", {})
  }

  lemma AppleGameValid()
    ensures Valid(AppleGame())
  {
    var g := AppleGame();
    assert WordsOf(g.history) == {"apple"} by {
      assert g.history[0].word == "apple";
    }
    assert CalculatePoints(Normal, "apple") == 7;
  }

  /** A wrong-letter word can leave the points above the high score. */
  lemma WrongLetterCanPassHighScore()
    ensures Valid(AppleGame())
    ensures var (g', b) := Play(AppleGame(), "zebra", true, []);
      b == WrongLetter('e') && g'.pointsEarned > g'.highScore
  {
    AppleGameValid();
    var g := AppleGame();
    assert Judge(g, "zebra", true) == WrongLetter('e');
    var g' := Score(g, "zebra").(streakCount := 0);
    assert Play(g, "zebra", true, []) == (g', WrongLetter('e'));
    assert g'.pointsEarned == 7 && g'.highScore == 0;
  }
}
