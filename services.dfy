/**
 * GameStateService: the store of live sessions keyed by PIN and the
 * coordinator operations on them. Each public method is one atomic step.
 * The seven that lock the session after looking it up (SelectQuiz,
 * AdvanceQuestion, SubmitAnswer, GetScores, EndGame, JoinGame, StartGame)
 * are atomic through that lock; CreateGame and TryGetGame rely on the
 * dictionary's atomic TryAdd and TryGetValue; GetCurrentQuestion takes no
 * lock and is treated as atomic all the same. Every method that takes a PIN
 * updates the stored `GameSession` object in place and is proved to agree
 * with the matching rule of SessionRules. An unknown PIN is the uniform failure:
 * false / null / an empty list, and no session changes.
 */
module Services {
  import opened Wrappers
  import opened Models
  import opened Pins
  import opened SessionRules
  import QuizLibrary

  /** The session a call on `pin` may change: the one stored under it, if any. */
  function SessionFrame(games: map<string, GameSession>, pin: string): set<GameSession>
  {
    if pin in games then {games[pin]} else {}
  }

  class GameStateService {
    /** `_games`: PIN -> session. */
    var games: map<string, GameSession>

    /** One distinct session object per PIN, stored under its own PIN, each with duplicate-free players. */
    ghost predicate Valid()
      reads this, games.Values
    {
      && (forall p, q :: p in games && q in games && p != q ==> games[p] != games[q])
      && (forall p :: p in games ==> games[p].gamePin == p && games[p].Valid())
    }

    constructor ()
      ensures Valid() && games == map[]
    {
      games := map[];
    }

    /**
     * CreateGame. `draws` stands for the successive values of the random
     * source; the do-while loop keeps the first whose PIN is not yet stored.
     */
    method CreateGame(hostConnectionId: string, draws: seq<int>) returns (session: GameSession)
      requires Valid()
      requires ValidDraws(draws) && HasFreeDraw(games.Keys, draws)
      modifies this
      ensures Valid() && fresh(session)
      ensures session.gamePin == GeneratePin(draws[FirstFreeDraw(old(games.Keys), draws)])
      ensures |session.gamePin| == 6 && AllDigits(session.gamePin)
      ensures PinLow <= ParseDecimal(session.gamePin) < PinHigh
      ensures session.gamePin !in old(games)
      ensures games == old(games)[session.gamePin := session]
      ensures session.State() == DefaultSession.(gamePin := session.gamePin, hostConnectionId := hostConnectionId)
    {
      var i := 0;
      while true
        invariant 0 <= i < |draws|
        invariant games == old(games)
        invariant forall j :: 0 <= j < i ==> GeneratePin(draws[j]) in games
        invariant exists j :: i <= j < |draws| && GeneratePin(draws[j]) !in games
        decreases |draws| - i
      {
        var pin := GeneratePin(draws[i]);
        session := new GameSession();
        session.gamePin := pin;
        session.hostConnectionId := hostConnectionId;
        session.currentState := Lobby;
        session.currentQuestionIndex := -1;
        if pin !in games {
          games := games[pin := session];
          assert i == FirstFreeDraw(old(games.Keys), draws);
          return;
        }
        i := i + 1;
      }
    }

    /** TryGetGame: the session stored under `pin`, if any. */
    function TryGetGame(pin: string): (r: Option<GameSession>)
      reads this
      ensures r.Some? <==> pin in games
      ensures r.Some? ==> r.value == games[pin]
    {
      if pin in games then Some(games[pin]) else None
    }

    /** SelectQuiz. No requester is checked. */
    method SelectQuiz(pin: string, quizId: string) returns (ok: bool)
      requires Valid()
      modifies SessionFrame(games, pin)
      ensures Valid() && games == old(games)
      ensures pin !in games ==> !ok
      ensures pin in games ==> (games[pin].State(), ok) == QuizSelected(old(games[pin].State()), quizId)
      ensures forall p :: p in games && p != pin ==> games[p].State() == old(games[p].State())
    {
      if pin !in games {
        return false;
      }
      var session := games[pin];
      var library := QuizLibrary.Library();
      if quizId !in library {
        return false;
      }
      session.selectedQuizId := quizId;
      session.questions := library[quizId];
      session.scores := KeysTo(session.players, 0);
      session.currentAnswers := KeysTo(session.players, -1);
      session.currentQuestionIndex := -1;
      session.currentState := Lobby;
      return true;
    }

    /** GetCurrentQuestion: null for an unknown PIN or an index outside the question list. */
    function GetCurrentQuestion(pin: string): (q: Option<Question>)
      reads this, games.Values
      ensures pin !in games ==> q == None
      ensures pin in games ==> (q.Some? <==> 0 <= games[pin].currentQuestionIndex < |games[pin].questions|)
      ensures q.Some? ==> q.value == games[pin].questions[games[pin].currentQuestionIndex]
    {
      if pin in games then CurrentQuestion(games[pin].State()) else None
    }

    /** AdvanceQuestion. No requester is checked; the index keeps rising past the end. */
    method AdvanceQuestion(pin: string) returns (ok: bool)
      requires Valid()
      modifies SessionFrame(games, pin)
      ensures Valid() && games == old(games)
      ensures pin !in games ==> !ok
      ensures pin in games ==> (games[pin].State(), ok) == Advanced(old(games[pin].State()))
      ensures forall p :: p in games && p != pin ==> games[p].State() == old(games[p].State())
    {
      if pin !in games {
        return false;
      }
      var session := games[pin];
      session.currentQuestionIndex := Increment(session.currentQuestionIndex);
      session.currentAnswers := KeysTo(session.players, -1);
      if session.currentQuestionIndex >= |session.questions| {
        session.currentState := Lobby;
        return false;
      }
      session.currentState := InGame;
      return true;
    }

    /** SubmitAnswer. The connection id is not checked against the players. */
    method SubmitAnswer(pin: string, connectionId: string, selectedIndex: Int32) returns (ok: bool)
      requires Valid()
      modifies SessionFrame(games, pin)
      ensures Valid() && games == old(games)
      ensures pin !in games ==> !ok
      ensures pin in games ==>
                (games[pin].State(), ok) == AnswerSubmitted(old(games[pin].State()), connectionId, selectedIndex)
      ensures forall p :: p in games && p != pin ==> games[p].State() == old(games[p].State())
    {
      if pin !in games {
        return false;
      }
      var session := games[pin];
      if session.currentQuestionIndex < 0 || session.currentQuestionIndex >= |session.questions| {
        return false;
      }
      session.currentAnswers := session.currentAnswers[connectionId := selectedIndex];
      var q := session.questions[session.currentQuestionIndex];
      if selectedIndex == q.correctIndex {
        if connectionId !in session.scores {
          session.scores := session.scores[connectionId := 0];
        }
        session.scores := session.scores[connectionId := Increment(session.scores[connectionId])];
      }
      return true;
    }

    /** GetScores: an empty list for an unknown PIN. */
    function GetScores(pin: string): (r: seq<PlayerScoreDto>)
      reads this, games.Values
      ensures pin !in games ==> r == []
      ensures pin in games ==> |r| == |games[pin].players|
      ensures pin in games ==> forall i :: 0 <= i < |r| ==>
                r[i] == PlayerScoreDto(games[pin].players[i].nickname,
                                       ScoreOrZero(games[pin].scores, games[pin].players[i].connectionId))
    {
      if pin in games then Scoreboard(games[pin].State()) else []
    }

    /** EndGame: back to the lobby, returning what GetScores returns. No requester is checked. */
    method EndGame(pin: string) returns (finalScores: seq<PlayerScoreDto>)
      requires Valid()
      modifies SessionFrame(games, pin)
      ensures Valid() && games == old(games)
      ensures finalScores == GetScores(pin) == old(GetScores(pin))
      ensures pin in games ==> games[pin].State() == Ended(old(games[pin].State()))
      ensures forall p :: p in games && p != pin ==> games[p].State() == old(games[p].State())
    {
      if pin !in games {
        return [];
      }
      var session := games[pin];
      session.currentState := Lobby;
      finalScores := GetScores(pin);
    }

    /** JoinGame: the joined (or already joined) player, or none for an unknown PIN. */
    method JoinGame(pin: string, nickname: string, connectionId: string) returns (ok: bool, joinedPlayer: Option<Player>)
      requires Valid()
      modifies SessionFrame(games, pin)
      ensures Valid() && games == old(games)
      ensures pin !in games ==> !ok && joinedPlayer == None
      ensures pin in games ==> ok && var r := Joined(old(games[pin].State()), nickname, connectionId);
                                games[pin].State() == r.0 && joinedPlayer == Some(r.1)
      ensures forall p :: p in games && p != pin ==> games[p].State() == old(games[p].State())
    {
      joinedPlayer := None;
      if pin !in games {
        return false, joinedPlayer;
      }
      var session := games[pin];
      if connectionId in Ids(session.players) {
        joinedPlayer := Some(session.players[FirstWithId(session.players, connectionId)]);
        return true, joinedPlayer;
      }
      var player := Player(connectionId, nickname);
      session.players := session.players + [player];
      joinedPlayer := Some(player);
      return true, joinedPlayer;
    }

    /** StartGame: the only operation that checks the caller against the host. */
    method StartGame(pin: string, hostConnectionId: string) returns (ok: bool)
      requires Valid()
      modifies SessionFrame(games, pin)
      ensures Valid() && games == old(games)
      ensures pin !in games ==> !ok
      ensures pin in games ==> (games[pin].State(), ok) == Started(old(games[pin].State()), hostConnectionId)
      ensures forall p :: p in games && p != pin ==> games[p].State() == old(games[p].State())
    {
      if pin !in games {
        return false;
      }
      var session := games[pin];
      if session.hostConnectionId != hostConnectionId {
        return false;
      }
      session.currentState := InGame;
      session.currentQuestionIndex := 0;
      return true;
    }
  }

  /**
   * Two games created on a fresh store get different PINs. The first takes
   * the PIN of its first draw; the second needs only one draw that differs
   * from that one.
   */
  method CreateGamesYieldDistinctPins(firstHost: string, secondHost: string, firstDraws: seq<int>, secondDraws: seq<int>)
    returns (firstPin: string, secondPin: string)
    requires ValidDraws(firstDraws) && |firstDraws| > 0
    requires ValidDraws(secondDraws)
    requires exists j :: 0 <= j < |secondDraws| && secondDraws[j] != firstDraws[0]
    ensures firstPin != secondPin
    ensures |firstPin| == 6 && |secondPin| == 6
  {
    var store := new GameStateService();
    assert GeneratePin(firstDraws[0]) !in store.games;
    var first := store.CreateGame(firstHost, firstDraws);
    assert HasFreeDraw(store.games.Keys, secondDraws) by {
      var j :| 0 <= j < |secondDraws| && secondDraws[j] != firstDraws[0];
      GeneratePinInjective(secondDraws[j], firstDraws[0]);
    }
    var second := store.CreateGame(secondHost, secondDraws);
    firstPin, secondPin := first.gamePin, second.gamePin;
  }
}
