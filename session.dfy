/**
 * The game session as the browser page keeps it: the module-level variables of
 * `script.js` as the fields of one object, and its functions as methods that
 * update those fields in place. Each method is proved to perform exactly the
 * transition of the same name in `Rules`, so the lemmas of `Properties` apply.
 */
module Session {
  import opened Wrappers
  import opened Text
  import opened Scoring
  import opened Clock
  import opened Opponent
  import Rules
  import Properties

  class GameSession {
    var usedWords: set<string>
    var lastWord: string
    var history: seq<Rules.Entry>
    var isProcessing: bool
    var timeLeft: int
    var initialTimeLimit: int
    var gameActive: bool
    var streakCount: nat
    var pointsEarned: nat
    var totalCorrectWords: nat
    var highScore: nat  // stands for the high score kept in local storage
    var difficulty: Difficulty
    var playerName: string
    var earned: set<Rules.Achievement>  // the `earned` flags of `achievements`

    /** The fields as a value. */
    function Snapshot(): Rules.Game
      reads this
    {
      Rules.Game(usedWords, lastWord, history, isProcessing, timeLeft, initialTimeLimit,
                 gameActive, streakCount, pointsEarned, totalCorrectWords, highScore,
                 difficulty, playerName, earned)
    }

    ghost predicate Valid()
      reads this
    {
      Rules.Valid(Snapshot())
    }

    /** The page's initial state; `storedHighScore` is what local storage held (0 if nothing). */
    constructor (storedHighScore: nat)
      ensures Snapshot() == Rules.Initial(storedHighScore) && Valid()
    {
      usedWords, lastWord, history, isProcessing := {}, "", [], false;
      timeLeft, initialTimeLimit, gameActive := DefaultTimeLimit, DefaultTimeLimit, false;
      streakCount, pointsEarned, totalCorrectWords := 0, 0, 0;
      highScore, difficulty, playerName, earned := storedHighScore, Normal, "", {};
    }

    method StartTimer()
      modifies this
      ensures Snapshot() == Rules.StartTimer(old(Snapshot()))
    {
      timeLeft := initialTimeLimit;
      gameActive := true;
    }

    method HandleTimeout()
      modifies this
      ensures Snapshot() == Rules.Timeout(old(Snapshot()))
    {
      gameActive := false;
    }

    /** Restarts the countdown; clearing the old interval has no effect on the state. */
    method ResetTimer()
      modifies this
      ensures Snapshot() == Rules.StartTimer(old(Snapshot()))
    {
      timeLeft := initialTimeLimit;
      StartTimer();
    }

    /** One run of the interval callback, which runs only while the interval is live. */
    method Tick()
      modifies this
      ensures Snapshot() == Rules.Tick(old(Snapshot()))
      ensures old(Valid()) ==> Valid()
    {
      if gameActive {
        timeLeft := timeLeft - 1;
        if timeLeft <= 0 {
          HandleTimeout();
        }
      }
    }

    /** `resetGameState`, which the new-game button (`resetGame`) also runs. */
    method ResetGameState()
      modifies this
      ensures Snapshot() == Rules.ResetGameState(old(Snapshot())) && Valid()
    {
      Properties.ResetIsValid(Snapshot());
      ClearChain();
    }

    /** The assignments of `resetGameState`, without the proof that the empty chain is valid. */
    method ClearChain()
      modifies this
      ensures Snapshot() == Rules.ResetGameState(old(Snapshot()))
    {
      history := [];
      usedWords := {};
      lastWord := "";
      isProcessing := false;
      totalCorrectWords := 0;
    }

    method StartGame(name: string, d: Difficulty, timeLimit: int) returns (started: bool)
      modifies this
      ensures (Snapshot(), started) == Rules.StartGame(old(Snapshot()), name, d, timeLimit)
      ensures started ==> Valid()
    {
      var player := Trim(name);
      if player == [] {
        return false;
      }
      BeginGame(player, d, timeLimit);
      started := true;
    }

    /** The part of `startGame` after the name check. */
    method BeginGame(player: string, d: Difficulty, timeLimit: int)
      modifies this
      ensures Snapshot() == Rules.Begin(old(Snapshot()), player, d, timeLimit) && Valid()
    {
      Properties.BeginIsValid(Snapshot(), player, d, timeLimit);
      playerName := player;
      difficulty := d;
      initialTimeLimit := ScaledTimeLimit(d, timeLimit);
      timeLeft := initialTimeLimit;
      streakCount := 0;
      pointsEarned := 0;
      ClearChain();
      StartTimer();
    }

    method UnlockAchievement(a: Rules.Achievement)
      modifies this
      ensures Snapshot() == Rules.Unlock(old(Snapshot()), a)
    {
      earned := earned + {a};
    }

    method CheckAchievements(word: string)
      modifies this
      ensures Snapshot() == Rules.CheckAchievements(old(Snapshot()), word)
    {
      if Rules.VocabularyMaster !in earned && |word| > Rules.VocabularyLength {
        UnlockAchievement(Rules.VocabularyMaster);
      }
      if Rules.StreakMaster !in earned && streakCount >= Rules.StreakMasterLength {
        UnlockAchievement(Rules.StreakMaster);
      }
    }

    /** Applies the opponent's reply. */
    method HandleQbitTurn(reply: Option<string>)
      modifies this
      ensures Snapshot() == Rules.QbitTurn(old(Snapshot()), reply)
    {
      if reply.Some? && reply.value != [] {
        var w := reply.value;
        lastWord := w;
        usedWords := usedWords + {w};
        history := history + [Rules.Qbit(w)];
        ResetTimer();
      } else {
        gameActive := false;
      }
      isProcessing := false;
    }

    /** The block both acceptance paths of `submitWord` share, up to the high score. */
    method RecordWord(word: string, wordPoints: nat)
      requires wordPoints == CalculatePoints(difficulty, word)
      modifies this
      ensures Snapshot() == Rules.Record(old(Snapshot()), word)
    {
      lastWord := word;
      usedWords := usedWords + {word};
      history := history + [Rules.Human(word, wordPoints)];
      if streakCount >= StreakThreshold {
        pointsEarned := pointsEarned + StreakBonus(wordPoints);
      }
      if pointsEarned > highScore {
        highScore := pointsEarned;
      }
    }

    /** The first-word path of `submitWord`: no achievements and no timer reset. */
    method AcceptFirstWord(word: string, wordPoints: nat, qbitCandidates: seq<string>)
      requires wordPoints == CalculatePoints(difficulty, word)
      modifies this
      ensures Snapshot() == Rules.Reply(Rules.Record(old(Snapshot()), word), qbitCandidates)
    {
      RecordWord(word, wordPoints);
      HandleQbitTurn(QbitWord(qbitCandidates, usedWords));
    }

    /** The path of `submitWord` for a word that continues the chain. */
    method AcceptChainedWord(word: string, wordPoints: nat, qbitCandidates: seq<string>)
      requires wordPoints == CalculatePoints(difficulty, word)
      modifies this
      ensures Snapshot() ==
        Rules.Reply(Rules.StartTimer(Rules.CheckAchievements(Rules.Record(old(Snapshot()), word), word)), qbitCandidates)
    {
      RecordWord(word, wordPoints);
      CheckAchievements(word);
      ResetTimer();
      HandleQbitTurn(QbitWord(qbitCandidates, usedWords));
    }

    /**
     * `submitWord` with the dictionary's answer for the normalized word and the
     * word search's answer for its last letter; returns the branch taken.
     */
    method SubmitWord(input: string, wordExists: bool, qbitCandidates: seq<string>) returns (branch: Rules.Branch)
      modifies this
      ensures (Snapshot(), branch) == Rules.Submit(old(Snapshot()), input, wordExists, qbitCandidates)
      ensures old(Valid()) ==> Valid()
    {
      ghost var g0 := Snapshot();
      Properties.PlayKeepsValid(g0, Rules.Normalize(input), wordExists, qbitCandidates);
      if isProcessing || !gameActive {
        return Rules.Ignored;
      }
      var word := Rules.Normalize(input);
      if word == [] {
        return Rules.EmptyWord;
      }
      if word in usedWords {
        return Rules.AlreadyUsed;
      }
      branch := LookUpWord(word, wordExists, qbitCandidates);
    }

    /** The part of `submitWord` from the dictionary lookup on, for a fresh non-empty word. */
    method LookUpWord(word: string, wordExists: bool, qbitCandidates: seq<string>) returns (branch: Rules.Branch)
      requires !isProcessing && gameActive && word != [] && word !in usedWords
      modifies this
      ensures (Snapshot(), branch) == Rules.Play(old(Snapshot()), word, wordExists, qbitCandidates)
    {
      ghost var g0 := Snapshot();
      isProcessing := true;
      if !wordExists {
        streakCount := 0;
        isProcessing := false;
        return Rules.NotAWord;
      }
      totalCorrectWords := totalCorrectWords + 1;
      var wordPoints := CalculatePoints(difficulty, word);
      pointsEarned := pointsEarned + wordPoints;
      streakCount := streakCount + 1;
      assert Snapshot() == Rules.Score(g0, word).(isProcessing := true);
      Properties.PlayIsScoreThenChain(g0, word, qbitCandidates);
      branch := ChainWord(word, wordPoints, qbitCandidates);
    }

    /** The chain-letter check of `submitWord` and the two paths of acceptance. */
    method ChainWord(word: string, wordPoints: nat, qbitCandidates: seq<string>) returns (branch: Rules.Branch)
      requires word != [] && wordPoints == CalculatePoints(difficulty, word)
      modifies this
      ensures (Snapshot(), branch) == Rules.ChainTurn(old(Snapshot()), word, qbitCandidates)
    {
      if lastWord == [] {
        AcceptFirstWord(word, wordPoints, qbitCandidates);
        return Rules.FirstWord;
      }
      var lastLetter := lastWord[|lastWord| - 1];
      if word[0] != lastLetter {
        streakCount := 0;
        isProcessing := false;
        return Rules.WrongLetter(lastLetter);
      }
      AcceptChainedWord(word, wordPoints, qbitCandidates);
      branch := Rules.ChainedWord;
    }

    /** `getHint` with the word search's answer; returns the hints it shows. */
    method GetHint(candidates: seq<string>) returns (hints: seq<string>)
      modifies this
      ensures (Snapshot(), hints) == Rules.Hint(old(Snapshot()), candidates)
      ensures old(Valid()) ==> Valid()
    {
      if lastWord == [] || !gameActive {
        return [];
      }
      hints := Hints(candidates, usedWords);
      if |hints| > 0 {
        pointsEarned := if pointsEarned >= Rules.HintCost then pointsEarned - Rules.HintCost else 0;
      }
    }
  }
}
