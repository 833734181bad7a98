# OpenLiQ game coordinator — a Dafny model

This project models the in-memory game coordinator of OpenLiQ, a live
multi-player quiz: the `GameStateService` that stores sessions under a
6-digit PIN, and the `GameSession` entity it updates. The service drives a
two-state machine per session (`Lobby` ⇄ `InGame`). It covers joining,
selecting one of two built-in quizzes, starting, advancing through the
questions, submitting answers with scoring, and reading or ending with the
score listing.

Layout, one module per concern:

- `wrappers.dfy` — `Option`, for C#'s nullable results.
- `models.dfy` — `GameState`, the `Player`, `Question` and `PlayerScoreDto` records, C#'s `int` as `Int32` with
  wrap-around `Increment`, and the class `GameSession`. The class's fields are the session's properties. Its
  `State()` is their value as one `SessionState`.
- `pins.dfy` — PIN generation: `int.ToString()` of a draw, read back by `ParseDecimal`, and the draw at which
  CreateGame's retry loop stops.
- `quiz_library.dfy` — the fixed two-quiz catalog.
- `session_rules.dfy` — one pure function per operation from a session's state to its next state and result,
  with the lemmas about runs of operations.
- `services.dfy` — the class `GameStateService`. It holds `games: map<string, GameSession>`. `Valid()` means
  one distinct object per PIN, stored under its own PIN, with players unique by connection id. `CreateGame`
  adds a fresh session to the map. Every method that takes a PIN updates the stored session object in place.
  Each such method is proved to match the `SessionRules` function for its operation, to keep `Valid()`, and
  to leave every other session unchanged.

Modelling choices:

- Each public method is one atomic step. For the seven methods that take the session's `lock` (SelectQuiz,
  AdvanceQuestion, SubmitAnswer, GetScores, EndGame, JoinGame, StartGame) the lock makes it so. `CreateGame` and
  `TryGetGame` rely on the atomic `TryAdd` and `TryGetValue` of the concurrent dictionary. `GetCurrentQuestion`
  takes no lock (see "## Left out"). An unknown PIN gives false, null or an empty list, and changes nothing. The `modifies` clause of each method that takes a PIN names only the
  session stored under that PIN. `CreateGame` modifies the store itself.
- `Random.Next(100000, 999999)` becomes a sequence of draws supplied by the caller. The upper bound is
  exclusive, so a PIN reads back as a number in [100000, 999998].
- C# `int` arithmetic is taken as unchecked, which is the compiler default. `CurrentQuestionIndex++` and
  `Scores[id] += 1` therefore wrap from int.MaxValue to int.MinValue (`Models.Increment`).

Behaviour of the code worth stating plainly:

- Only `StartGame` checks the caller against the host. `SelectQuiz`, `AdvanceQuestion` and `EndGame` take no
  requester, so no host check is modelled for them.
- `SubmitAnswer` records an answer, and when it is correct a score, for any connection id, including one that never joined
  (`SessionRules.SubmitAcceptsNonPlayers`). Score and answer keys are therefore not always player ids.
- `StartGame` sets the index to 0, so after a start only the first len−1 advances return true
  (`SessionRules.AdvanceFromStart`). Counting from index −1, as after `SelectQuiz`, gives len trues
  (`SessionRules.AdvanceFromLobby`).
- `Random.Next(100000, 999999)` excludes its upper bound, so the PIN 999999 is never drawn.

## Model

| member | source | states |
|---|---|---|
| `Models.Increment` | backend/OpenLiQ.Api/Services/GameStateService.cs:94 | `++` on a C# int adds one below int.MaxValue and wraps to int.MinValue at it |
| `Models.GameSession.constructor` | backend/OpenLiQ.Api/Models/GameSession.cs:15-26 | a new session is in `Lobby` with index −1; its players, questions, scores, answers, PIN, host and quiz id are all empty |
| `Pins.GeneratePin` | backend/OpenLiQ.Api/Services/GameStateService.cs:15-19 | the PIN of a draw in [100000, 999999) is 6 decimal digits, has no leading zero, and reads back as the draw |
| `Pins.DecimalString` | backend/OpenLiQ.Api/Services/GameStateService.cs:18 | `ToString()` of a non-negative int: at least one character, all decimal digits, and no leading zero from 10 up |
| `Pins.ParseDecimalString` | backend/OpenLiQ.Api/Services/GameStateService.cs:18 | `ToString()` of a non-negative int reads back as the same number |
| `Pins.DecimalStringLength` | backend/OpenLiQ.Api/Services/GameStateService.cs:18 | a number between 10^k and 10^(k+1) prints as k+1 digits |
| `Pins.GeneratePinInjective` | backend/OpenLiQ.Api/Services/GameStateService.cs:15-19 | two draws give the same PIN iff they are equal |
| `Pins.FirstFreeDraw` | backend/OpenLiQ.Api/Services/GameStateService.cs:25-36 | the retry loop stops at a draw whose PIN is free, and every earlier draw's PIN was taken |
| `QuizLibrary.Library` | backend/OpenLiQ.Api/Services/GameStateService.cs:41-60 | the catalog has exactly the ids "liebherr" and "it", five questions each, four options per question, each correct index within the options |
| `SessionRules.KeysTo` | backend/OpenLiQ.Api/Services/GameStateService.cs:73-74 | `ToDictionary` over the players has exactly one key per player id, all mapped to the given value |
| `SessionRules.FirstWithId` | backend/OpenLiQ.Api/Services/GameStateService.cs:164 | `First` finds the earliest player with the id |
| `SessionRules.Joined` | backend/OpenLiQ.Api/Services/GameStateService.cs:154-173 | a known id returns a player already in the list and changes nothing; a new id appends exactly `Player(id, nickname)` at the end; only the players change; ids stay unique |
| `SessionRules.JoinIdempotent` | backend/OpenLiQ.Api/Services/GameStateService.cs:161-166 | a second join with the same id, under any nickname, changes nothing and returns the first join's player |
| `SessionRules.JoinAppendsToScoreboard` | backend/OpenLiQ.Api/Services/GameStateService.cs:168-170 | a new player appears last in the score listing, with any score already recorded under their id, or 0 |
| `SessionRules.QuizSelected` | backend/OpenLiQ.Api/Services/GameStateService.cs:62-79 | an unknown quiz id fails and changes nothing; otherwise the questions are the catalog's list, scores map every player to 0, answers map every player to −1, index −1, `Lobby` |
| `SessionRules.SelectResetsScoreboard` | backend/OpenLiQ.Api/Services/GameStateService.cs:73 | after a selection, the score listing is every player's nickname with 0, in join order |
| `SessionRules.SelectedQuestionsWellFormed` | backend/OpenLiQ.Api/Services/GameStateService.cs:71 | every selected question's correct index lies within its options |
| `SessionRules.CurrentQuestion` | backend/OpenLiQ.Api/Services/GameStateService.cs:81-86 | a question is current iff 0 ≤ index < question count, and it is the question at that index |
| `SessionRules.Started` | backend/OpenLiQ.Api/Services/GameStateService.cs:175-186 | succeeds iff the requester is the host; then `InGame` with index 0 and nothing else changed (answers kept, question count unchecked); otherwise no change |
| `SessionRules.Advanced` | backend/OpenLiQ.Api/Services/GameStateService.cs:88-108 | the index goes up by one (with wrap), answers become −1 for exactly the current players, the result is true iff the new index is below the count, the phase is `InGame` iff true; players, questions and scores unchanged |
| `SessionRules.AdvanceTimes` | backend/OpenLiQ.Api/Services/GameStateService.cs:88-108 | k successive advances give k results |
| `SessionRules.AdvanceTimesRun` | backend/OpenLiQ.Api/Services/GameStateService.cs:94-106 | below int.MaxValue, k advances raise the index by exactly k; call i returns true iff its new index is below the count; the final phase follows the same test |
| `SessionRules.AdvanceFromLobby` | backend/OpenLiQ.Api/Services/GameStateService.cs:88-108 | from index −1 (as SelectQuiz leaves it, line 75) with n questions, the first n advances return true and every later one false, while the index keeps rising |
| `SessionRules.AdvanceFromStart` | backend/OpenLiQ.Api/Services/GameStateService.cs:88-108 | from index 0 (as StartGame leaves it, line 183), only the first n−1 advances return true |
| `SessionRules.AdvanceWrapsAtInt32Max` | backend/OpenLiQ.Api/Services/GameStateService.cs:94 | at int.MaxValue the index wraps to int.MinValue; the advance returns true with `InGame`, yet no question is current |
| `SessionRules.AnswerSubmitted` | backend/OpenLiQ.Api/Services/GameStateService.cs:110-127 | accepted iff a question is current; otherwise no change; the answer overwrites any earlier one; a correct answer raises that id's score by one from the stored value or 0, and every other score is unchanged; a wrong one leaves scores alone |
| `SessionRules.SubmitWindowIsCurrentQuestion` | backend/OpenLiQ.Api/Services/GameStateService.cs:116 | the answer window is exactly the index range in which a question is current |
| `SessionRules.SubmitAcceptsNonPlayers` | backend/OpenLiQ.Api/Services/GameStateService.cs:117 | an id that never joined still has its answer recorded, and stays outside the player list |
| `SessionRules.CorrectAnswerScoresOne` | backend/OpenLiQ.Api/Services/GameStateService.cs:119-124 | a correct answer by a listed player raises that player's row of the score listing by exactly 1; all other rows stay the same |
| `SessionRules.WrongAnswerScoresNothing` | backend/OpenLiQ.Api/Services/GameStateService.cs:120 | a wrong answer leaves the score listing unchanged |
| `SessionRules.RepeatedCorrectAnswersScoreTwice` | backend/OpenLiQ.Api/Services/GameStateService.cs:117-123 | two correct submissions of one id are both accepted and add 2 |
| `SessionRules.ScoresOf` | backend/OpenLiQ.Api/Services/GameStateService.cs:134 | one row per player, in player order, with the nickname and the stored score or 0 |
| `SessionRules.Ended` | backend/OpenLiQ.Api/Services/GameStateService.cs:138-147 | only the phase changes, to `Lobby`; the score listing is the same before and after |
| `SessionRules.ItQuizRound` | backend/OpenLiQ.Api/Services/GameStateService.cs:52-59 | with the "it" quiz, host plus player "Ana": selection lists Ana at 0, start sets index 0, a wrong answer keeps 0, and five advances return true four times then false, ending in `Lobby` |
| `Services.GameStateService.constructor` | backend/OpenLiQ.Api/Services/GameStateService.cs:12 | the store starts empty |
| `Services.GameStateService.CreateGame` | backend/OpenLiQ.Api/Services/GameStateService.cs:21-39 | the PIN is the first free draw's, 6 digits in [100000, 999998], absent before and now mapped to a fresh session; no other entry changes; the session has the host, `Lobby`, index −1 and defaults elsewhere |
| `Services.GameStateService.TryGetGame` | backend/OpenLiQ.Api/Services/GameStateService.cs:149-152 | finds a session iff the PIN is stored, and it is the stored one |
| `Services.GameStateService.SelectQuiz` | backend/OpenLiQ.Api/Services/GameStateService.cs:62-79 | unknown PIN: false, no change; otherwise the session becomes `QuizSelected` of its old state; other sessions unchanged |
| `Services.GameStateService.GetCurrentQuestion` | backend/OpenLiQ.Api/Services/GameStateService.cs:81-86 | null for an unknown PIN; otherwise a question iff 0 ≤ index < count, the one at the index |
| `Services.GameStateService.AdvanceQuestion` | backend/OpenLiQ.Api/Services/GameStateService.cs:88-108 | unknown PIN: false, no change; otherwise result and new state are `Advanced` of the old state; other sessions unchanged |
| `Services.GameStateService.SubmitAnswer` | backend/OpenLiQ.Api/Services/GameStateService.cs:110-127 | unknown PIN: false, no change; otherwise result and new state are `AnswerSubmitted` of the old state; other sessions unchanged |
| `Services.GameStateService.GetScores` | backend/OpenLiQ.Api/Services/GameStateService.cs:129-136 | empty for an unknown PIN; otherwise one row per player, in join order, with the nickname and the stored score or 0 |
| `Services.GameStateService.EndGame` | backend/OpenLiQ.Api/Services/GameStateService.cs:138-147 | returns exactly GetScores before and after; the session becomes `Ended` of its old state; other sessions unchanged |
| `Services.GameStateService.JoinGame` | backend/OpenLiQ.Api/Services/GameStateService.cs:154-173 | unknown PIN: false and no player; otherwise true, the player and new state are `Joined` of the old state, players stay unique; other sessions unchanged |
| `Services.GameStateService.StartGame` | backend/OpenLiQ.Api/Services/GameStateService.cs:175-186 | unknown PIN: false, no change; otherwise result and new state are `Started` of the old state; other sessions unchanged |
| `Services.CreateGamesYieldDistinctPins` | backend/OpenLiQ.Api/Services/GameStateService.cs:25-36 | two games created on a fresh store get different 6-digit PINs whenever the second creation has a draw different from the first creation's first draw |

## Left out

- GetCurrentQuestion reads the session without its lock and reads the index twice, once for the range test and
  once to index the list. An AdvanceQuestion running in between can make the second read fall out of range and
  throw. The model treats GetCurrentQuestion as one atomic read, so it does not capture that exception.
- Locking and `ConcurrentDictionary`: each public method is one atomic step. Race-freedom between concurrent
  callers cannot be stated in a sequential model.
- `Random`: the draws are an input. The model does not capture that they are uniform.
- Services.GameStateService.CreateGame: requires that one of the supplied draws gives a free PIN. The source
  keeps drawing forever when every PIN is taken, and the model has no non-terminating loop.
- The deep copy of the catalog questions in SelectQuiz: questions are values here, so the copy is the same
  value. Separation from later changes to the catalog's arrays is not modelled.
- `Question` record equality in C# compares the `Options` array by reference. No operation compares questions,
  so the model uses value equality.
- `ToDictionary` throws on a duplicate key. `Valid()` keeps player ids unique, so this cannot happen here, and
  the throw is not modelled.
- `GameSession`'s public setters let any code write a session. The model assumes only the service writes
  sessions.
- Checked arithmetic: if the project were built with overflow checking, the two increments would throw
  instead of wrapping.
- `QuestionDto`, `PlayerJoinDto` and `GameStatusDto` are declared beside the entities but unused by the
  service.
- The SignalR hub, the frontend, the database context and the health endpoint: transport, presentation and
  I/O. The hub never calls the service.
