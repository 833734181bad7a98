/**
 * What each coordinator operation of GameStateService does to one session,
 * as functions from the session's state before the call to its state after
 * it (and the call's result). The service's methods perform these updates in
 * place and are proved to agree with them; the lemmas here are about runs of
 * several operations.
 */
module SessionRules {
  import opened Wrappers
  import opened Models
  import QuizLibrary

  /** `Players.ToDictionary(p => p.ConnectionId, p => v)`: one key per player, all mapped to `v`. */
  function KeysTo(players: seq<Player>, v: Int32): (m: map<string, Int32>)
    ensures m.Keys == Ids(players)
    ensures forall id :: id in m ==> m[id] == v
  {
    map id | id in Ids(players) :: v
  }

  /** The score GetScores reports for a connection id: the stored one, or 0 when there is none. */
  function ScoreOrZero(scores: map<string, Int32>, id: string): Int32
  {
    if id in scores then scores[id] else 0
  }

  /** `Players.First(p => p.ConnectionId == id)`, as a position. */
  function FirstWithId(players: seq<Player>, id: string): (i: nat)
    requires id in Ids(players)
    ensures i < |players| && players[i].connectionId == id
    ensures forall j :: 0 <= j < i ==> players[j].connectionId != id
  {
    if players[0].connectionId == id then 0
    else
      assert id in Ids(players[1..]) by {
        var p :| p in players && p.connectionId == id;
        var k :| 0 <= k < |players| && players[k] == p;
        assert players[1..][k - 1] == p;
      }
      1 + FirstWithId(players[1..], id)
  }

  /** The properties a call leaves alone unless it is JoinGame or SelectQuiz. */
  predicate SameSetup(s: SessionState, t: SessionState)
  {
    && t.gamePin == s.gamePin
    && t.hostConnectionId == s.hostConnectionId
    && t.players == s.players
    && t.selectedQuizId == s.selectedQuizId
    && t.questions == s.questions
  }

  /** JoinGame on a known PIN: the session afterwards and the player handed back. */
  function Joined(s: SessionState, nickname: string, connectionId: string): (r: (SessionState, Player))
    ensures r.1.connectionId == connectionId
    ensures connectionId in Ids(s.players) ==> r.0 == s && r.1 in s.players
    ensures connectionId !in Ids(s.players) ==>
              r.0.players == s.players + [Player(connectionId, nickname)] && r.1 == Player(connectionId, nickname)
    ensures r.0.(players := s.players) == s
    ensures Ids(r.0.players) == Ids(s.players) + {connectionId}
    ensures UniqueIds(s.players) ==> UniqueIds(r.0.players)
  {
    if connectionId in Ids(s.players) then
      (s, s.players[FirstWithId(s.players, connectionId)])
    else
      var player := Player(connectionId, nickname);
      (s.(players := s.players + [player]), player)
  }

  /** SelectQuiz on a known PIN: the session afterwards and whether the quiz id was in the library. */
  function QuizSelected(s: SessionState, quizId: string): (r: (SessionState, bool))
    ensures r.1 <==> quizId in QuizLibrary.Library()
    ensures !r.1 ==> r.0 == s
    ensures r.1 ==> && r.0.selectedQuizId == quizId
                    && r.0.questions == QuizLibrary.Library()[quizId]
                    && r.0.scores.Keys == Ids(s.players)
                    && (forall id :: id in r.0.scores ==> r.0.scores[id] == 0)
                    && r.0.currentAnswers.Keys == Ids(s.players)
                    && (forall id :: id in r.0.currentAnswers ==> r.0.currentAnswers[id] == -1)
                    && r.0.currentQuestionIndex == -1
                    && r.0.currentState == Lobby
    ensures r.0.gamePin == s.gamePin && r.0.hostConnectionId == s.hostConnectionId && r.0.players == s.players
  {
    if quizId !in QuizLibrary.Library() then (s, false)
    else
      (s.(selectedQuizId := quizId,
          questions := QuizLibrary.Library()[quizId],
          scores := KeysTo(s.players, 0),
          currentAnswers := KeysTo(s.players, -1),
          currentQuestionIndex := -1,
          currentState := Lobby), true)
  }

  /** GetCurrentQuestion on a known PIN: the question at the index, when the index is in range. */
  function CurrentQuestion(s: SessionState): (q: Option<Question>)
    ensures q.Some? <==> 0 <= s.currentQuestionIndex < |s.questions|
    ensures q.Some? ==> q.value == s.questions[s.currentQuestionIndex]
  {
    if s.currentQuestionIndex < 0 || s.currentQuestionIndex >= |s.questions| then None
    else Some(s.questions[s.currentQuestionIndex])
  }

  /** StartGame on a known PIN: only the host may start; the index goes to 0 whatever the questions are. */
  function Started(s: SessionState, requester: string): (r: (SessionState, bool))
    ensures r.1 <==> requester == s.hostConnectionId
    ensures !r.1 ==> r.0 == s
    ensures r.1 ==> r.0.currentState == InGame && r.0.currentQuestionIndex == 0
    ensures r.0.(currentState := s.currentState, currentQuestionIndex := s.currentQuestionIndex) == s
  {
    if s.hostConnectionId != requester then (s, false)
    else (s.(currentState := InGame, currentQuestionIndex := 0), true)
  }

  /** AdvanceQuestion on a known PIN: next index, answers cleared for every current player, phase by a bounds test. */
  function Advanced(s: SessionState): (r: (SessionState, bool))
    ensures r.0.currentQuestionIndex == Increment(s.currentQuestionIndex)
    ensures r.0.currentAnswers.Keys == Ids(s.players)
    ensures forall id :: id in r.0.currentAnswers ==> r.0.currentAnswers[id] == -1
    ensures r.1 <==> r.0.currentQuestionIndex < |s.questions|
    ensures r.0.currentState == (if r.1 then InGame else Lobby)
    ensures SameSetup(s, r.0) && r.0.scores == s.scores
  {
    var index := Increment(s.currentQuestionIndex);
    var cleared := s.(currentQuestionIndex := index, currentAnswers := KeysTo(s.players, -1));
    if index >= |s.questions| then (cleared.(currentState := Lobby), false)
    else (cleared.(currentState := InGame), true)
  }

  /** SubmitAnswer on a known PIN: accepted only while a question is current; last answer wins; +1 when correct. */
  function AnswerSubmitted(s: SessionState, connectionId: string, selectedIndex: Int32): (r: (SessionState, bool))
    ensures r.1 <==> CurrentQuestion(s).Some?
    ensures !r.1 ==> r.0 == s
    ensures r.1 ==> r.0.currentAnswers == s.currentAnswers[connectionId := selectedIndex]
    ensures r.1 && selectedIndex == CurrentQuestion(s).value.correctIndex ==>
              r.0.scores == s.scores[connectionId := Increment(ScoreOrZero(s.scores, connectionId))]
    ensures r.1 && selectedIndex != CurrentQuestion(s).value.correctIndex ==> r.0.scores == s.scores
    ensures SameSetup(s, r.0)
    ensures r.0.currentState == s.currentState && r.0.currentQuestionIndex == s.currentQuestionIndex
  {
    if s.currentQuestionIndex < 0 || s.currentQuestionIndex >= |s.questions| then (s, false)
    else
      var answered := s.(currentAnswers := s.currentAnswers[connectionId := selectedIndex]);
      var q := s.questions[s.currentQuestionIndex];
      if selectedIndex == q.correctIndex then
        var seeded := if connectionId in answered.scores then answered.scores else answered.scores[connectionId := 0];
        (answered.(scores := seeded[connectionId := Increment(seeded[connectionId])]), true)
      else (answered, true)
  }

  /** `Players.Select(p => new PlayerScoreDto(p.Nickname, <score or 0>))`. */
  function ScoresOf(players: seq<Player>, scores: map<string, Int32>): (r: seq<PlayerScoreDto>)
    ensures |r| == |players|
    ensures forall i :: 0 <= i < |players| ==>
              r[i] == PlayerScoreDto(players[i].nickname, ScoreOrZero(scores, players[i].connectionId))
  {
    if players == [] then []
    else [PlayerScoreDto(players[0].nickname, ScoreOrZero(scores, players[0].connectionId))]
         + ScoresOf(players[1..], scores)
  }

  /** GetScores on a known PIN: one row per player, in join order. */
  function Scoreboard(s: SessionState): seq<PlayerScoreDto>
  {
    ScoresOf(s.players, s.scores)
  }

  /** EndGame on a known PIN: back to the lobby, scores kept. */
  function Ended(s: SessionState): (r: SessionState)
    ensures r.currentState == Lobby
    ensures r.(currentState := s.currentState) == s
    ensures Scoreboard(r) == Scoreboard(s)
  {
    s.(currentState := Lobby)
  }

  // ---------------------------------------------------------------- JoinGame

  /** Joining again with a known connection id changes nothing and hands back the first join's player. */
  lemma JoinIdempotent(s: SessionState, nickname: string, otherNickname: string, connectionId: string)
    ensures var first := Joined(s, nickname, connectionId);
            Joined(first.0, otherNickname, connectionId) == first
  {
  }

  /** A new player is listed last, with whatever score was already recorded under their id (0 if none). */
  lemma JoinAppendsToScoreboard(s: SessionState, nickname: string, connectionId: string)
    requires connectionId !in Ids(s.players)
    ensures Scoreboard(Joined(s, nickname, connectionId).0)
            == Scoreboard(s) + [PlayerScoreDto(nickname, ScoreOrZero(s.scores, connectionId))]
  {
  }

  // ---------------------------------------------------------------- SelectQuiz

  /** After a successful SelectQuiz every player is listed with score 0, in join order. */
  lemma SelectResetsScoreboard(s: SessionState, quizId: string)
    requires QuizSelected(s, quizId).1
    ensures var board := Scoreboard(QuizSelected(s, quizId).0);
            |board| == |s.players| &&
            forall i :: 0 <= i < |board| ==> board[i] == PlayerScoreDto(s.players[i].nickname, 0)
  {
  }

  /** Every question a successful SelectQuiz installs has its correct index among its options. */
  lemma SelectedQuestionsWellFormed(s: SessionState, quizId: string)
    requires QuizSelected(s, quizId).1
    ensures forall i :: 0 <= i < |QuizSelected(s, quizId).0.questions| ==>
              QuizLibrary.WellFormed(QuizSelected(s, quizId).0.questions[i])
  {
  }

  // ---------------------------------------------------------------- AdvanceQuestion

  /** `k` AdvanceQuestion calls in a row: the session after them and the result of each. */
  function AdvanceTimes(s: SessionState, k: nat): (r: (SessionState, seq<bool>))
    ensures |r.1| == k
  {
    if k == 0 then (s, [])
    else
      var before := AdvanceTimes(s, k - 1);
      var after := Advanced(before.0);
      (after.0, before.1 + [after.1])
  }

  /**
   * While the index does not reach int.MaxValue, `k` calls raise it by exactly `k`,
   * and call `i` (from 0) returns true iff the index it produces is below the question count.
   */
  lemma {:induction false} AdvanceTimesRun(s: SessionState, k: nat)
    requires s.currentQuestionIndex + k <= Int32Max
    ensures var r := AdvanceTimes(s, k);
            && r.0.currentQuestionIndex == s.currentQuestionIndex + k
            && SameSetup(s, r.0) && r.0.scores == s.scores
            && (forall i :: 0 <= i < k ==> (r.1[i] <==> s.currentQuestionIndex + i + 1 < |s.questions|))
            && (k > 0 ==> r.0.currentState == (if s.currentQuestionIndex + k < |s.questions| then InGame else Lobby))
    decreases k
  {
    if k > 0 {
      AdvanceTimesRun(s, k - 1);
    }
  }

  /** From index -1 (a fresh or just-selected session), the first n calls return true and every later one false. */
  lemma AdvanceFromLobby(s: SessionState, k: nat)
    requires s.currentQuestionIndex == -1 && k <= Int32Max + 1
    ensures var r := AdvanceTimes(s, k);
            && r.0.currentQuestionIndex == k - 1
            && forall i :: 0 <= i < k ==> (r.1[i] <==> i < |s.questions|)
  {
    AdvanceTimesRun(s, k);
  }

  /** From index 0 (just after StartGame), only the first n - 1 calls return true. */
  lemma AdvanceFromStart(s: SessionState, k: nat)
    requires s.currentQuestionIndex == 0 && k <= Int32Max
    ensures var r := AdvanceTimes(s, k);
            && r.0.currentQuestionIndex == k
            && forall i :: 0 <= i < k ==> (r.1[i] <==> i + 1 < |s.questions|)
  {
    AdvanceTimesRun(s, k);
  }

  /** At int.MaxValue the index wraps to int.MinValue: the call reports a next question, yet none is current. */
  lemma AdvanceWrapsAtInt32Max(s: SessionState)
    requires s.currentQuestionIndex == Int32Max
    ensures Advanced(s).1 && Advanced(s).0.currentState == InGame
    ensures Advanced(s).0.currentQuestionIndex == Int32Min
    ensures CurrentQuestion(Advanced(s).0) == None
  {
  }

  // ---------------------------------------------------------------- SubmitAnswer

  /**
   * A correct answer from a listed player raises that player's row of the score
   * listing by exactly one and leaves every other row as it was.
   */
  lemma CorrectAnswerScoresOne(s: SessionState, i: nat, selectedIndex: Int32)
    requires UniqueIds(s.players) && i < |s.players|
    requires CurrentQuestion(s).Some? && selectedIndex == CurrentQuestion(s).value.correctIndex
    requires ScoreOrZero(s.scores, s.players[i].connectionId) < Int32Max
    ensures var before := Scoreboard(s);
            var after := Scoreboard(AnswerSubmitted(s, s.players[i].connectionId, selectedIndex).0);
            && |after| == |before|
            && after[i].score == before[i].score + 1
            && forall j :: 0 <= j < |before| && j != i ==> after[j] == before[j]
  {
  }

  /** A wrong answer is recorded but leaves the score listing as it was. */
  lemma WrongAnswerScoresNothing(s: SessionState, connectionId: string, selectedIndex: Int32)
    requires CurrentQuestion(s).Some? && selectedIndex != CurrentQuestion(s).value.correctIndex
    ensures Scoreboard(AnswerSubmitted(s, connectionId, selectedIndex).0) == Scoreboard(s)
  {
  }

  /** Submitting the correct answer twice scores twice: there is no "already answered" check. */
  lemma RepeatedCorrectAnswersScoreTwice(s: SessionState, connectionId: string)
    requires CurrentQuestion(s).Some?
    requires ScoreOrZero(s.scores, connectionId) < Int32Max - 1
    ensures var correct := CurrentQuestion(s).value.correctIndex;
            var once := AnswerSubmitted(s, connectionId, correct);
            var twice := AnswerSubmitted(once.0, connectionId, correct);
            && once.1 && twice.1
            && twice.0.scores[connectionId] == ScoreOrZero(s.scores, connectionId) + 2
            && twice.0.currentAnswers[connectionId] == correct
  {
  }

  /** The answer window is exactly the range in which GetCurrentQuestion reports a question. */
  lemma SubmitWindowIsCurrentQuestion(s: SessionState, connectionId: string, selectedIndex: Int32)
    ensures AnswerSubmitted(s, connectionId, selectedIndex).1 <==> 0 <= s.currentQuestionIndex < |s.questions|
  {
  }

  /** An id that never joined still gets its answer (and any score) recorded. */
  lemma SubmitAcceptsNonPlayers(s: SessionState, connectionId: string, selectedIndex: Int32)
    requires connectionId !in Ids(s.players) && CurrentQuestion(s).Some?
    ensures var r := AnswerSubmitted(s, connectionId, selectedIndex);
            r.1 && connectionId in r.0.currentAnswers && connectionId !in Ids(r.0.players)
  {
  }

  // ---------------------------------------------------------------- a whole round

  /**
   * A host, one player "Ana" and the five-question "it" quiz: Ana's wrong answer
   * to the first question scores nothing, and the fifth advance after the start
   * reports that the questions are exhausted.
   */
  lemma ItQuizRound()
    ensures var created := DefaultSession.(gamePin := "482913", hostConnectionId := "host");
            var joined := Joined(created, "Ana", "ana");
            var selected := QuizSelected(joined.0, "it");
            var started := Started(selected.0, "host");
            var answered := AnswerSubmitted(started.0, "ana", 2);
            var advanced := AdvanceTimes(answered.0, 5);
            && joined.1 == Player("ana", "Ana")
            && selected.1 && Scoreboard(selected.0) == [PlayerScoreDto("Ana", 0)]
            && started.1 && started.0.currentQuestionIndex == 0
            && answered.1 && Scoreboard(answered.0) == [PlayerScoreDto("Ana", 0)]
            && advanced.1 == [true, true, true, true, false]
            && advanced.0.currentState == Lobby
            && Scoreboard(advanced.0) == [PlayerScoreDto("Ana", 0)]
  {
    var created := DefaultSession.(gamePin := "482913", hostConnectionId := "host");
    var joined := Joined(created, "Ana", "ana");
    var selected := QuizSelected(joined.0, "it");
    var started := Started(selected.0, "host");
    var answered := AnswerSubmitted(started.0, "ana", 2);
    assert selected.0.questions[0].correctIndex == 0;
    AdvanceTimesRun(answered.0, 5);
    var advanced := AdvanceTimes(answered.0, 5);
    assert advanced.1 == [true, true, true, true, false];
  }
}
