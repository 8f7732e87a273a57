# Name Place Animal Thing — a Dafny model of the game component

The game is a single React component (`App.jsx`). Players create or join a room
identified by a six-character code. The host starts a round with a random letter,
and every player types a Name, a Place, an Animal and a Thing beginning with it.
A 60-second timer runs, and the host's client ends the round when it reaches 0.
Each client then loads every player's answers and scores them: 10 points for an
answer nobody else gave, 5 for a shared one, and nothing for an answer that is
empty or does not begin with the letter.

All shared state is in a key-value service:
- the room document lives under `game:{code}`;
- each player's answers live under `answers:{code}:{playerId}`.

Clients learn about each other's actions by polling the room document every two seconds.

The model is split by the component's concerns:

| file | models |
|---|---|
| `Wrappers.dfy` | `Option` |
| `Text.dfy` | the string built-ins the component uses: `trim` with the ECMAScript whitespace set, ASCII `toLowerCase`/`toUpperCase`, `startsWith`, `split` on one character |
| `Rooms.dfy` | players, the room document, the record each room action writes back, the room invariant (at most one host; a letter in A–Z exactly once the round has started) |
| `Scoring.dfy` | `calculateScores`: the counting pass and the scoring pass as loops, proved against a specification (`ScoreTable`) whose rule, bounds and zero cases are lemmas |
| `Storage.dfy` | the key-value service as a class holding a map from key to parsed document; the key formats; `loadGameData` |
| `AnswerStore.dfy` | `savePlayerAnswers`, `loadAllAnswers` and the delete loop of `resetGame` |
| `Clock.dfy` | the timer's countdown step and what a sequence of ticks does |
| `Client.dfy` | the component's state as a class, with a method per button action and one per poll and timer callback |

The store is one object passed to every client, so a multi-player session is a
sequence of method calls on several `ClientView` objects that share one `Store`.

Faults of the service are modelled only where the source handles them:
- `readFails` stands for a `get` of the room key that throws; `loadGameData` catches it and returns null, as for a missing room;
- `listFails` stands for a listing that throws or yields no key list;
- `unreadable` is the set of answer keys whose `get` throws;
- `undeletable` is the set of keys whose `delete` throws.

A value that is empty or not valid JSON is the document `Blank`.

Random room codes, player ids and round letters are method parameters:
- a room code is any string of upper-case base-36 digits;
- a round letter is an index into A–Z.

## Model

| member | source | states |
|---|---|---|
| Text.CaseMapping | App.jsx:231 | lower- and upper-casing keep the length and map each character independently (ASCII letters only) |
| Text.UpperIdempotent | App.jsx:358 | upper-casing an already upper-cased room code changes nothing, so the code `joinRoom` loads equals the one it saves under |
| Text.UpperKeepsNonLower | App.jsx:24 | a generated room code (digits and upper-case letters) is its own upper case |
| Text.TrimSlice | App.jsx:231 | `trim` returns a contiguous slice of its input with only whitespace cut from both ends; the slice starts and ends with a non-space; it is empty exactly when the input is all whitespace |
| Text.SplitWithoutSep | App.jsx:66 | a string without the separator splits into itself alone |
| Text.SplitAfterHead | App.jsx:66 | splitting `a + ':' + b`, where a has no colon, gives a followed by the pieces of b |
| Rooms.Created | App.jsx:140-151 | the new room has exactly one player, who is host; it has not started or ended and has no letter; it satisfies the room invariant |
| Rooms.Without | App.jsx:298 | the filter keeps exactly the players whose id differs, in a list no longer than before; it never adds a host |
| Rooms.WithoutCount | App.jsx:298 | each player whose id differs is kept exactly as often as the list holds it; no player with the id is kept |
| Rooms.WithoutAppend | App.jsx:298 | filtering a concatenation is the concatenation of the filtered parts, so the kept players stay in their order |
| Rooms.WithoutNoMatch | App.jsx:298 | nothing is removed when no player has the id |
| Rooms.JoinedKeepsRoom | App.jsx:180-181 | joining keeps the invariant and the host count; the old player list is a prefix of the new one, which is one longer |
| Rooms.JoinedKeepsIdsDistinct | App.jsx:174-181 | a newcomer with a fresh id keeps player ids distinct |
| Rooms.StartedWellformed | App.jsx:192-205 | the started room has `gameStarted`, not `gameEnded`, a one-letter A–Z `currentLetter`, the players that were read, and satisfies the invariant |
| Rooms.EndedKeepsRoom | App.jsx:215-220 | ending a started room changes only `gameEnded`, to true, and keeps the invariant |
| Rooms.EndedFromNullBreaksInvariant | App.jsx:216-219 | when the read returns null, `endGame` writes a room that ended without starting and has no player list |
| Rooms.ResetKeepsRoom | App.jsx:279-284 | the reset room keeps the players, has neither flag and no letter, and satisfies the invariant |
| Rooms.LeaveWriteKeepsRoom | App.jsx:296-302 | leaving writes back exactly when the room has a player list holding another player; the written room holds each other player as often as before and nobody with the leaving id, changes nothing else and keeps the invariant |
| Rooms.HostLeavingLeavesNoHost | App.jsx:296-302 | when the only host leaves and others remain, the room written back has no host |
| Scoring.TallyStep | App.jsx:230-234 | visiting one more record adds one to the count of its normalised answer and leaves the table unchanged for an empty answer |
| Scoring.CountCategory | App.jsx:228-235 | the counting loop for one category, visiting records in any order, yields the multiset count of the category's non-empty normalised answers |
| Scoring.CountAnswers | App.jsx:225-236 | one such frequency table per category |
| Scoring.PointsFromTable | App.jsx:242-246 | a matching answer is in its category's table; reading its count there gives 10 when it is 1 and 5 otherwise; a non-matching answer gives 0 |
| Scoring.PlayerTotal | App.jsx:240-248 | the inner loop's running score is the player's specified total |
| Scoring.CalculateScores | App.jsx:223-252 | the whole computation, in any visiting order, is the specified score table |
| Scoring.CountPositive | App.jsx:230-234 | every answer's own count is at least one |
| Scoring.UniqueIffAlone | App.jsx:244-245 | the count is one exactly when no other player gave the same normalised answer |
| Scoring.PointsRule | App.jsx:242-246 | 10 exactly for a matching answer nobody else gave; 5 exactly for a matching answer someone else also gave; 0 exactly for an empty or non-matching answer |
| Scoring.SharedAnswerScoresBoth | App.jsx:244-245 | two players with the same matching answer both get 5 |
| Scoring.ScoreBounds | App.jsx:240-247 | a total over k categories lies between 0 and 10·k |
| Scoring.NoLetterNoScore | App.jsx:243 | with an empty round letter nobody scores |
| Scoring.BlankRecordNoScore | App.jsx:242-243 | a record without answers scores 0 |
| Scoring.MissingCategoryNoPoints | App.jsx:242-243 | a missing category adds nothing |
| Scoring.ScoreTableShape | App.jsx:239-249 | the score table has one entry per loaded record, each in 0..40, all 0 when there is no letter |
| Scoring.InheritedKeyScoresShared | App.jsx:233-245 | a lone "Constructor" for Thing in a round of C is unique and should earn 10; the lookup as written gives 5 |
| Scoring.AsWrittenAgreesElsewhere | App.jsx:233-245 | the lookup as written agrees with the rule for every answer other than the two inherited member names |
| Storage.RoomAt | App.jsx:39-41 | a successful read yields a room exactly when one is stored under `game:{code}`, and then that room |
| Storage.ReadRoom | App.jsx:37-46 | `loadGameData` returns a room exactly when its read does not throw and a room is stored under `game:{code}`, and then that room; a throwing read gives null |
| Storage.Store.List | App.jsx:58 | the listing holds every stored key with the prefix, each once |
| Storage.SaveThenLoad | App.jsx:27-46 | a room saved under a code is what is then loaded for it |
| Storage.SaveElsewhere | App.jsx:27-46 | a write under another code leaves this room's document as it was |
| Storage.GameKeyInjective | App.jsx:29-39 | distinct codes have distinct room keys |
| Storage.GameKeyNotAnswer | App.jsx:29-50 | no room key has an answer prefix |
| AnswerStore.SavePlayerAnswers | App.jsx:48-54 | the record is stored under `answers:{code}:{playerId}`, nothing else changes |
| AnswerStore.LoadAllAnswers | App.jsx:56-78 | a failed listing gives an empty table; otherwise there is one entry per player id taken from the third piece of a listed key whose read succeeded and was not empty, holding that key's record |
| AnswerStore.ClearAnswers | App.jsx:262-271 | only keys under the prefix are deleted and nothing is rewritten; a failed listing deletes nothing; when no delete fails no key under the prefix remains |
| AnswerStore.AnswerKeyRoundTrip | App.jsx:50-66 | with a colon-free code and id, the id is recovered from the answer key |
| AnswerStore.LoadedIff | App.jsx:62-69 | with colon-free codes and ids, a player is loaded exactly when that player's own key was read successfully, and then with that key's record |
| AnswerStore.SavedIsLoaded | App.jsx:48-78 | an answer record just saved is the one loaded for its player unless its read fails |
| AnswerStore.ClearedKeepsRooms | App.jsx:262-268 | clearing answers never changes a room document |
| AnswerStore.ClearedNothingToClear | App.jsx:262-268 | with no answer keys, clearing changes nothing, so clearing twice is the same as once |
| AnswerStore.ClearedLoadsNothing | App.jsx:262-268 | after a clear in which no delete failed, loading the room's answers gives an empty table |
| Clock.Countdown | App.jsx:111-117 | the next time left is never negative; it is 0 exactly when the previous value was at most 1, and otherwise one less |
| Clock.RunCountsDown | App.jsx:107-118 | n ticks from t ≥ 0 leave exactly max(t − n, 0) |
| Clock.ExpiresOnce | App.jsx:107-118 | the expiring branch is taken at most once, and exactly once when at least t ticks run |
| Clock.FullRound | App.jsx:107-118 | starting from 60, no tick before the 60th expires the round, the 60th does, and the timer then stays at 0 |
| Client.RoundScores | App.jsx:92-93 | the scores of a round are the score table of an answer table `loadAllAnswers` may return |
| Client.ResetStore | App.jsx:259-284 | the room's answers are cleared, then what the read gave is written back in the pre-round phase |
| Client.LeaveStore | App.jsx:293-305 | the room is written back without the leaving player only when the read succeeds and another player remains; otherwise the store is untouched |
| Client.ClientView.constructor | App.jsx:8-18 | the initial state: home screen, empty code, name and id, no players, no letter, 60 seconds, no answers or scores, not host |
| Client.ClientView.SetPlayerName | App.jsx:335 | the name box replaces the player's name and changes nothing else |
| Client.ClientView.SetRoomCode | App.jsx:358 | the code box keeps the code upper-cased |
| Client.ClientView.SetAnswer | App.jsx:254-256 | one category's answer is replaced |
| Client.ClientView.CreateRoom | App.jsx:127-156 | a blank name changes nothing; otherwise the player hosts a new room stored under the generated code, and the client is in the lobby with that code |
| Client.ClientView.JoinRoom | App.jsx:158-189 | a blank name or code, a room that is missing or whose read fails, and a started room each change nothing; a room without a player list sets only the new id (the spread throws); otherwise the player is appended to the room as a non-host and the client is in the lobby |
| Client.ClientView.Enter | App.jsx:175-188 | the joined room is stored under the room code and the client is in its lobby with the new id and the room's players |
| Client.ClientView.StartGame | App.jsx:191-208 | the client starts the round with the drawn letter and 60 seconds on the game screen, and the stored room is the started room built from what the read gave |
| Client.ClientView.SubmitAnswers | App.jsx:210-213 | the player's answers are stored under the player's own key |
| Client.ClientView.EndGame | App.jsx:215-221 | the stored room is what the read gave, marked ended |
| Client.ClientView.ResetGame | App.jsx:258-287 | answers are cleared, the room returns to the pre-round phase, and the client's round state is cleared in the lobby |
| Client.ClientView.LeaveRoom | App.jsx:289-318 | the store changes as LeaveStore says and the client returns home with its player state cleared, keeping letter and time |
| Client.ClientView.Poll | App.jsx:81-104 | nothing changes without an installed poll or when the read gives null; otherwise the client takes the corrected Observe step, with scores computed from loaded answers and the letter the callback captured |
| Client.ClientView.Tick | App.jsx:107-125 | nothing changes without a running timer; otherwise the time left counts down, and the expiring tick writes the ended room only on the host's client |
| Client.ObservePlayersAndLetter | App.jsx:86-91 | a successful poll always adopts the stored players (none without a list) and changes the letter and scores only when the round starts, ends or is reset |
| Client.ObservePhases | App.jsx:87-96 | a poll moves lobby to game, game to results, or results back to the lobby once the room is reset, never two steps at once, and keeps the game and results screens to started rounds |
| Client.LobbyToResultsInTwoPolls | App.jsx:87-96 | a lobby client that reads an ended round reaches results in two polls |
| Client.ResultsStopTimer | App.jsx:91-108 | once results are shown the timer is no longer installed |
| Client.ExpiringTickStops | App.jsx:108-114 | the tick that expires the round also uninstalls the timer |
| Client.CreateThenJoin | App.jsx:127-185 | a room created under its code is found there, not started, and a second player joining it is appended after the host |
| Client.StaleCreateLosesRoom | App.jsx:127-153 | `createRoom` as written stores the room under the render-time code, and the generated code then names no room |
| Client.StaleClockBlocksRound | App.jsx:87-91 | with the poll as written, a client whose clock ran out earlier enters the next round with no timer |
| Client.ResultsNeverLeft | App.jsx:87-97 | with the poll as written, a client on the results screen only ever adopts the player list, whatever the room holds |
| Client.StartingRunsClock | App.jsx:87-91 | with the corrected poll, a lobby client that sees the round start runs a full clock on the game screen |
| Client.ResultsFollowNextRound | App.jsx:87-97 | with the corrected poll, a client on the results screen follows a reset room to the lobby with no answers, and then runs the next round with its letter |
| Client.ObserveAgreesElsewhere | App.jsx:82-98 | the corrected poll step equals the one as written except that a start also restarts the clock and a reset room is followed |
| Client.FailedEndDropsPlayers | App.jsx:215-220 | a failed read in `endGame` replaces a live room with an ended one without a player list: polls show nobody and a leave writes nothing |
| Client.LeaveTouchesOnlyRoom | App.jsx:296-302 | leaving changes no key other than the room's own |
| Client.LastPlayerLeavesDocument | App.jsx:300-303 | when the last player leaves, the room document is left as it was |

## Left out

- Rendering, styling and the sorting of the results screen are presentation only and are not modelled.
- The `maxLength` limits of the name and code inputs (20 and 8) are left out; they bound only what can be typed.
- `alert` and `console.error` are left out. Each alert is an early return, and `JoinRoom` returns which one it was. The TypeError a room without a player list raises in `joinRoom` is an unhandled rejection of the click handler; `JoinRoom` returns `NoPlayerList` for it.
- React scheduling, races between clients and the async interleavings are left out. Each action, poll and tick is one atomic step, and several clients share the store by taking turns.
- `Math.random` is left out. Ids, codes and the letter index are parameters, constrained to the generator's range where the code depends on it.
- JSON encoding is left out. A stored value is its parsed document, and a value that is empty or not valid JSON is `Blank`.
- A JSON value under a room key that parses to something other than a room reads as no room.
- A write to the service that fails is left out. `saveGameData` and `savePlayerAnswers` swallow the error, and the model always lets the write succeed.
- Unicode case mapping is left out. `toLowerCase`/`toUpperCase` change only ASCII letters.
- `Client.ClientView.StartGame`: the requirement that the caller is the host with at least two players models the button, which is shown only to the host and is disabled below two players. `startGame` itself does not check it.
- `Client.ClientView.Poll` follows the corrected poll step (`Client.Observe`); the step as written is `Client.ObserveAsWritten`, and the two Findings rows about the poll say where they differ.
- `Client.ClientView.Poll`: the answer table used for scoring is one that `loadAllAnswers` may return. Which record wins when two listed keys yield the same id depends on the service's listing order, which is not modelled.
- `Scoring.CalculateScores`: only the first argument is modelled. The player list passed as the second argument is unused by the source.

## Findings

| source | as written | input that shows it | evidently intended | confidence | as-written member | corrected member |
|---|---|---|---|---|---|---|
| App.jsx:27-30, 133-153 | `createRoom` calls `setRoomCode(code)` and then `saveGameData`. That closure still holds the render-time `roomCode` (empty on the home screen), so the new room is stored under `game:` and not `game:{code}` | create a room from the home screen with nothing typed in the code box: the host's lobby shows the generated code, a second player joining it gets "Room not found", and the host's polls read nothing, so the lobby never fills and the round cannot start | store the new room under the code just generated | not executed | Client.CreateWriteAsWritten (Client.StaleCreateLosesRoom) | Client.CreateWrite (Client.CreateThenJoin, used by Client.ClientView.CreateRoom) |
| App.jsx:233, 244-245 | the counts live in a plain object. For the normalised answers "constructor" and "__proto__", `answerCounts[category][answer]` starts from an inherited member, so the count is never `=== 1` | in a round with letter C, the only player to answer Thing with "Constructor" earns 5 for it, not 10 | count from 0 for every answer (an object without a prototype, or a `Map`) | not executed | Scoring.PointsAsWritten (Scoring.InheritedKeyScoresShared) | Scoring.Points (Scoring.PointsRule, Scoring.AsWrittenAgreesElsewhere) |
| App.jsx:87-91, 197, 274, 309-317 | only `startGame` and `resetGame` set the time left back to 60. The poll's lobby-to-game step does not, and `leaveRoom` keeps it | play a round to the end as a non-host, leave, join another room and wait for its host to start: the client shows the game with 0 seconds, its inputs and submit button stay disabled and its timer never runs | a client that sees the round start also restarts its clock | not executed | Client.ObserveAsWritten (Client.StaleClockBlocksRound) | Client.Observe (Client.StartingRunsClock, Client.ObserveAgreesElsewhere, used by Client.ClientView.Poll) |
| App.jsx:87-97, 258-287, 520-527 | the poll leaves the lobby only when `data.gameStarted && !gameStarted`, and leaves the game screen only for results. Only the host's own `resetGame` clears its `gameStarted` | after a round, the host clicks "Play Again": every other client stays on the results screen with `gameStarted` true, through the next round and beyond | a client on the results screen that reads the room back in the pre-round phase returns to the lobby with its round state cleared, as the host's does | not executed | Client.ObserveAsWritten (Client.ResultsNeverLeft) | Client.Observe (Client.ResultsFollowNextRound, Client.ObserveAgreesElsewhere, used by Client.ClientView.Poll) |

The description of the game says a room has exactly one host for its whole life.
The code, which this model follows, lets the host leave while others stay, and the
room then has no host (`Rooms.HostLeavingLeavesNoHost`). It also rebuilds the room
with an object spread even when the read returned null, which a thrown `get` also causes:
the document written then has no player list (`Rooms.EndedFromNullBreaksInvariant`,
`Client.FailedEndDropsPlayers`), and a later `joinRoom` on it throws after setting the new id.
