/**
 * The entities of backend/OpenLiQ.Api/Models/GameSession.cs: the two-state
 * `GameState` enum, the `Player`, `Question` and `PlayerScoreDto` records,
 * and the mutable `GameSession` whose auto-properties the coordinator
 * overwrites in place.
 */
module Models {

  /** C#'s `int`: 32-bit two's complement. */
  const Int32Min: int := -0x8000_0000
  const Int32Max: int := 0x7FFF_FFFF
  type Int32 = x: int | -0x8000_0000 <= x <= 0x7FFF_FFFF

  /** `x++` / `x += 1` on a C# `int` in an unchecked context: wraps at the top. */
  function Increment(x: Int32): (r: Int32)
    ensures x < Int32Max ==> r == x + 1
    ensures x == Int32Max ==> r == Int32Min
  {
    if x == Int32Max then Int32Min else x + 1
  }

  /** A session is either gathering players or playing; there is no third state. */
  datatype GameState = Lobby | InGame

  /** Immutable record; membership is decided by `connectionId` alone. */
  datatype Player = Player(connectionId: string, nickname: string)

  /** In the model `options` is a value; C#'s `string[]` is a mutable array (never written by the service). */
  datatype Question = Question(text: string, options: seq<string>, correctIndex: Int32)

  /** One row of a score listing. */
  datatype PlayerScoreDto = PlayerScoreDto(nickname: string, score: Int32)

  /** The value of every property of one `GameSession` at one moment. */
  datatype SessionState = SessionState(
    gamePin: string,
    hostConnectionId: string,
    currentState: GameState,
    players: seq<Player>,
    currentQuestionIndex: Int32,
    selectedQuizId: string,
    questions: seq<Question>,
    scores: map<string, Int32>,
    currentAnswers: map<string, Int32>)

  /** The state every property initialiser of `GameSession` produces. */
  const DefaultSession: SessionState :=
    SessionState("", "", Lobby, [], -1, "", [], map[], map[])

  /** The connection ids of a player list. */
  function Ids(players: seq<Player>): set<string>
  {
    set p | p in players :: p.connectionId
  }

  /** No two players share a connection id. */
  predicate UniqueIds(players: seq<Player>)
  {
    forall i, j :: 0 <= i < j < |players| ==> players[i].connectionId != players[j].connectionId
  }

  /** One live game. Every property has a public setter; only the coordinator writes them. */
  class GameSession {
    var gamePin: string
    var hostConnectionId: string
    var currentState: GameState
    var players: seq<Player>
    var currentQuestionIndex: Int32
    var selectedQuizId: string
    var questions: seq<Question>
    /** connectionId -> score */
    var scores: map<string, Int32>
    /** connectionId -> chosen option of the current question, -1 while unanswered */
    var currentAnswers: map<string, Int32>

    /** The session's properties as one value. */
    function State(): SessionState
      reads this
    {
      SessionState(gamePin, hostConnectionId, currentState, players, currentQuestionIndex,
                   selectedQuizId, questions, scores, currentAnswers)
    }

    /** What the coordinator keeps true of every session it stores. */
    ghost predicate Valid()
      reads this
    {
      UniqueIds(players)
    }

    /** `new GameSession()`: every property at its declared default. */
    constructor ()
      ensures Valid()
      ensures gamePin == "" && hostConnectionId == "" && selectedQuizId == ""
      ensures currentState == Lobby && currentQuestionIndex == -1
      ensures players == [] && questions == [] && scores == map[] && currentAnswers == map[]
      ensures State() == DefaultSession
    {
      gamePin := "";
      hostConnectionId := "";
      currentState := Lobby;
      players := [];
      currentQuestionIndex := -1;
      selectedQuizId := "";
      questions := [];
      scores := map[];
      currentAnswers := map[];
    }
  }
}
