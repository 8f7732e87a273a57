/**
 * One player's copy of the game component: the state it keeps, the actions its
 * buttons run (create, join, start, submit, end, reset, leave), and the two
 * interval callbacks, the two-second poll and the one-second tick, each taken
 * as one step. Random room codes, player ids and round letters are parameters.
 */
module Client {
  import opened Wrappers
  import opened Text
  import opened Rooms
  import opened Scoring
  import opened Storage
  import opened AnswerStore
  import opened Clock

  datatype Screen = Home | Lobby | Game | Results

  /** The component's state variables, as one value. */
  datatype ClientState = ClientState(
    screen: Screen,
    roomCode: string,
    playerName: string,
    playerId: string,
    players: seq<Player>,
    currentLetter: string,
    timeLeft: int,
    answers: Answers,
    gameStarted: bool,
    scores: map<string, int>,
    isHost: bool)

  const Initial: ClientState := ClientState(Home, "", "", "", [], "", GameTime, map[], false, map[], false)

  /**
   * The outcomes of joinRoom: an alert for a blank input, for a missing room, for a
   * started round; a TypeError when the room has no player list to spread; or the lobby.
   */
  datatype JoinResult = Incomplete | NotFound | AlreadyStarted | NoPlayerList | Entered

  /** What generateRoomCode yields: base-36 digits, upper-cased. */
  predicate IsRoomCode(code: string) {
    forall i :: 0 <= i < |code| ==> '0' <= code[i] <= '9' || 'A' <= code[i] <= 'Z'
  }

  /** The poll interval is installed while there is a room code and the screen is not home. */
  predicate Polling(s: ClientState) {
    s.roomCode != "" && s.screen != Home
  }

  /** The timer interval is installed while a round runs on the game screen with time left. */
  predicate Running(s: ClientState) {
    s.gameStarted && s.screen == Game && s.timeLeft > 0
  }

  /** The poll's first branch: the stored round has started and this client has not. */
  predicate Starting(s: ClientState, d: Room) {
    d.gameStarted && !s.gameStarted
  }

  /** The poll's second branch: the stored round has ended and this client was on the game screen. */
  predicate Ending(s: ClientState, d: Room) {
    d.gameEnded && s.screen == Game
  }

  /**
   * A transition the poll lacks: a client on the results screen reads the room back
   * in the pre-round phase, which only "Play again" writes.
   */
  predicate Resetting(s: ClientState, d: Room) {
    s.screen == Results && !d.gameStarted && !d.gameEnded
  }

  /**
   * One poll after reading the room d, as written. Both branches test the values the
   * callback captured when it was scheduled (s), not the ones the first branch just
   * set; `scores` is what calculateScores produced from the loaded answers.
   */
  function ObserveAsWritten(s: ClientState, d: Room, scores: map<string, int>): ClientState {
    var s1 := s.(players := Roster(d));
    var s2 := if Starting(s, d) then s1.(gameStarted := true, currentLetter := d.currentLetter, screen := Game) else s1;
    if Ending(s, d) then s2.(scores := scores, screen := Results) else s2
  }

  /**
   * One poll as evidently intended: a round that starts also restarts this client's
   * clock, as startGame does for the host, and a client on the results screen follows
   * the room back to the lobby with its round state cleared, as resetGame does for the host.
   */
  function Observe(s: ClientState, d: Room, scores: map<string, int>): ClientState {
    if Resetting(s, d) then
      s.(players := Roster(d), gameStarted := false, timeLeft := GameTime, answers := map[], scores := map[],
         currentLetter := "", screen := Lobby)
    else
      var s1 := ObserveAsWritten(s, d, scores);
      if Starting(s, d) then s1.(timeLeft := GameTime) else s1
  }

  /** What createRoom writes, under the code it has just generated. */
  function CreateWrite(entries: map<string, Doc>, code: string, pid: string, name: string): map<string, Doc> {
    entries[GameKey(code) := RoomDoc(Created(pid, name))]
  }

  /**
   * What createRoom as written stores: saveGameData builds its key from the room code
   * of the render the click handler belongs to (`renderCode`), not from the code
   * just generated, because setRoomCode only takes effect at the next render.
   */
  function CreateWriteAsWritten(entries: map<string, Doc>, renderCode: string, pid: string, name: string)
    : map<string, Doc>
  {
    entries[GameKey(renderCode) := RoomDoc(Created(pid, name))]
  }

  /** What leaveRoom leaves in the store. */
  function AfterLeave(entries: map<string, Doc>, code: string, pid: string, readFails: bool): map<string, Doc> {
    if code == "" || pid == "" then entries
    else match ReadRoom(entries, code, readFails)
      case None => entries
      case Some(r) =>
        match LeaveWrite(r, pid)
        case None => entries
        case Some(r') => entries[GameKey(code) := RoomDoc(r')]
  }

  /** The scores of a round: calculateScores over some answer table loadAllAnswers may return for the room. */
  ghost predicate ScoredFrom(entries: map<string, Doc>, code: string, listFails: bool, unreadable: set<string>,
                             letter: string, scores: map<string, int>)
  {
    exists all :: AnswersLoaded(entries, code, listFails, unreadable, all) && scores == ScoreTable(all, letter)
  }

  /** What resetGame leaves in the store: the answers cleared, then the room written back in the pre-round phase. */
  ghost predicate ResetWritten(before: map<string, Doc>, after: map<string, Doc>, code: string, readFails: bool,
                               listFails: bool, undeletable: set<string>)
  {
    exists mid ::
      && Cleared(before, mid, code, listFails, undeletable)
      && after == mid[GameKey(code) := RoomDoc(Reset(ReadRoom(before, code, readFails)))]
  }

  /** The ending branch of the poll: load the room's answers and score them. */
  method RoundScores(store: Store, code: string, letter: string, listFails: bool, unreadable: set<string>)
    returns (scores: map<string, int>)
    ensures ScoredFrom(store.entries, code, listFails, unreadable, letter, scores)
  {
    var all := LoadAllAnswers(store, code, listFails, unreadable);
    scores := CalculateScores(all, letter);
  }

  /** The store side of resetGame. */
  method ResetStore(store: Store, code: string, readFails: bool, listFails: bool, undeletable: set<string>)
    modifies store
    ensures ResetWritten(old(store.entries), store.entries, code, readFails, listFails, undeletable)
  {
    var data := store.LoadGameData(code, readFails);
    ClearAnswers(store, code, listFails, undeletable);
    ghost var mid := store.entries;
    store.Set(GameKey(code), RoomDoc(Reset(data)));
  }

  /** The store side of leaveRoom. */
  method LeaveStore(store: Store, code: string, pid: string, readFails: bool)
    modifies store
    ensures store.entries == AfterLeave(old(store.entries), code, pid, readFails)
  {
    if code != "" && pid != "" {
      var data := store.LoadGameData(code, readFails);
      if data.Some? {
        var write := LeaveWrite(data.value, pid);
        if write.Some? {
          store.Set(GameKey(code), RoomDoc(write.value));
        }
      }
    }
  }

  class ClientView {
    var screen: Screen
    var roomCode: string
    var playerName: string
    var playerId: string
    var players: seq<Player>
    var currentLetter: string
    var timeLeft: int
    var answers: Answers
    var gameStarted: bool
    var scores: map<string, int>
    var isHost: bool

    function State(): ClientState
      reads this
    {
      ClientState(screen, roomCode, playerName, playerId, players, currentLetter, timeLeft, answers,
                  gameStarted, scores, isHost)
    }

    /**
     * The room code is kept upper-cased (the join box upper-cases what is typed and
     * generated codes are upper case), the time left stays within 0..GAME_TIME, and
     * the game and results screens are only shown once a round has started.
     */
    predicate Valid()
      reads this
    {
      && ToUpper(roomCode) == roomCode
      && 0 <= timeLeft <= GameTime
      && (screen == Game || screen == Results ==> gameStarted)
    }

    constructor()
      ensures State() == Initial && Valid()
    {
      screen := Home;
      roomCode := "";
      playerName := "";
      playerId := "";
      players := [];
      currentLetter := "";
      timeLeft := GameTime;
      answers := map[];
      gameStarted := false;
      scores := map[];
      isHost := false;
    }

    /** The name box. */
    method SetPlayerName(name: string)
      requires Valid()
      modifies this
      ensures State() == old(State()).(playerName := name) && Valid()
    {
      playerName := name;
    }

    /** The room-code box, which upper-cases what is typed. */
    method SetRoomCode(typed: string)
      requires Valid()
      modifies this
      ensures State() == old(State()).(roomCode := ToUpper(typed)) && Valid()
    {
      UpperIdempotent(typed);
      roomCode := ToUpper(typed);
    }

    /** handleAnswerChange. */
    method SetAnswer(category: string, value: string)
      requires Valid()
      modifies this
      ensures State() == old(State()).(answers := old(answers)[category := value]) && Valid()
    {
      answers := answers[category := value];
    }

    /**
     * createRoom with a freshly generated `code` and `pid`: a blank name changes
     * nothing; otherwise this player hosts a new room, stored under `code`.
     */
    method CreateRoom(store: Store, code: string, pid: string)
      requires Valid() && IsRoomCode(code)
      modifies this, store
      ensures Valid()
      ensures Trim(old(playerName)) == "" ==> State() == old(State()) && store.entries == old(store.entries)
      ensures Trim(old(playerName)) != "" ==>
        && store.entries == CreateWrite(old(store.entries), code, pid, Trim(old(playerName)))
        && State() == old(State()).(roomCode := code, playerId := pid, isHost := true,
                                    players := Roster(Created(pid, Trim(old(playerName)))), screen := Lobby)
    {
      var name := Trim(playerName);
      if name == "" {
        return;
      }
      UpperKeepsNonLower(code);
      roomCode := code;
      playerId := pid;
      isHost := true;
      var room := Created(pid, name);
      store.Set(GameKey(code), RoomDoc(room));
      players := Roster(room);
      screen := Lobby;
    }

    /**
     * joinRoom with a freshly generated `pid` (`readFails` as in ReadRoom). Only a room
     * that is read, has not started and has a player list is joined; this player is
     * appended to it as a non-host. A room without a player list makes the spread
     * throw once the new id is set, and nothing else happens.
     */
    method JoinRoom(store: Store, pid: string, readFails: bool) returns (outcome: JoinResult)
      requires Valid()
      modifies this, store
      ensures Valid()
      ensures outcome == Incomplete <==> Trim(old(playerName)) == "" || Trim(old(roomCode)) == ""
      ensures outcome == NotFound <==>
        outcome != Incomplete && ReadRoom(old(store.entries), ToUpper(old(roomCode)), readFails) == None
      ensures outcome == AlreadyStarted <==>
        outcome != Incomplete && ReadRoom(old(store.entries), ToUpper(old(roomCode)), readFails).Some? &&
        ReadRoom(old(store.entries), ToUpper(old(roomCode)), readFails).value.gameStarted
      ensures outcome == NoPlayerList <==>
        outcome != Incomplete && ReadRoom(old(store.entries), ToUpper(old(roomCode)), readFails).Some? &&
        !ReadRoom(old(store.entries), ToUpper(old(roomCode)), readFails).value.gameStarted &&
        ReadRoom(old(store.entries), ToUpper(old(roomCode)), readFails).value.players.None?
      ensures outcome == Incomplete || outcome == NotFound || outcome == AlreadyStarted ==>
        State() == old(State()) && store.entries == old(store.entries)
      ensures outcome == NoPlayerList ==> State() == old(State()).(playerId := pid) && store.entries == old(store.entries)
      ensures outcome == Entered ==>
        var r := Joined(ReadRoom(old(store.entries), ToUpper(old(roomCode)), readFails).value, pid, Trim(old(playerName)));
        && store.entries == old(store.entries)[GameKey(old(roomCode)) := RoomDoc(r)]
        && State() == old(State()).(playerId := pid, players := Roster(r), screen := Lobby)
    {
      var name := Trim(playerName);
      if name == "" || Trim(roomCode) == "" {
        return Incomplete;
      }
      var data := store.LoadGameData(ToUpper(roomCode), readFails);
      if data.None? {
        return NotFound;
      }
      if data.value.gameStarted {
        return AlreadyStarted;
      }
      if data.value.players.None? {
        playerId := pid;
        return NoPlayerList;
      }
      Enter(store, Joined(data.value, pid, name), pid);
      outcome := Entered;
    }

    /** The end of joinRoom: the joined room is stored and this client is in its lobby. */
    method Enter(store: Store, room: Room, pid: string)
      requires Valid()
      modifies this, store
      ensures Valid()
      ensures store.entries == old(store.entries)[GameKey(roomCode) := RoomDoc(room)]
      ensures State() == old(State()).(playerId := pid, players := Roster(room), screen := Lobby)
    {
      playerId := pid;
      store.Set(GameKey(roomCode), RoomDoc(room));
      players := Roster(room);
      screen := Lobby;
    }

    /**
     * startGame, drawing letter number `pick` of A..Z. Only the host sees the button,
     * and it is disabled with fewer than two players.
     */
    method StartGame(store: Store, pick: nat, readFails: bool)
      requires Valid() && pick < |Letters| && isHost && |players| >= 2
      modifies this, store
      ensures Valid()
      ensures State() == old(State()).(currentLetter := [Letters[pick]], gameStarted := true, timeLeft := GameTime,
                                       screen := Game)
      ensures store.entries ==
        old(store.entries)[GameKey(roomCode) :=
                           RoomDoc(Started(ReadRoom(old(store.entries), roomCode, readFails), Letters[pick]))]
    {
      var letter := Letters[pick];
      currentLetter := [letter];
      gameStarted := true;
      timeLeft := GameTime;
      var data := store.LoadGameData(roomCode, readFails);
      store.Set(GameKey(roomCode), RoomDoc(Started(data, letter)));
      screen := Game;
    }

    /** submitAnswers: stores this player's answers under its own key. */
    method SubmitAnswers(store: Store)
      modifies store
      ensures store.entries == old(store.entries)[AnswerKey(roomCode, playerId) := AnswerDoc(answers)]
    {
      SavePlayerAnswers(store, roomCode, playerId, answers);
    }

    /** endGame: marks the stored round ended. */
    method EndGame(store: Store, readFails: bool)
      modifies store
      ensures store.entries ==
        old(store.entries)[GameKey(roomCode) := RoomDoc(Ended(ReadRoom(old(store.entries), roomCode, readFails)))]
    {
      var data := store.LoadGameData(roomCode, readFails);
      store.Set(GameKey(roomCode), RoomDoc(Ended(data)));
    }

    /**
     * resetGame: reads the room, clears the room's answers (see ClearAnswers for the
     * fault parameters), resets this client's round state and writes the room back
     * in the pre-round phase.
     */
    method ResetGame(store: Store, readFails: bool, listFails: bool, undeletable: set<string>)
      requires Valid()
      modifies this, store
      ensures Valid()
      ensures State() == old(State()).(gameStarted := false, timeLeft := GameTime, answers := map[], scores := map[],
                                       currentLetter := "", screen := Lobby)
      ensures ResetWritten(old(store.entries), store.entries, roomCode, readFails, listFails, undeletable)
    {
      ResetStore(store, roomCode, readFails, listFails, undeletable);
      BackToLobby();
    }

    /** The client side of resetGame: the round state cleared, back in the lobby. */
    method BackToLobby()
      requires Valid()
      modifies this
      ensures Valid()
      ensures State() == old(State()).(gameStarted := false, timeLeft := GameTime, answers := map[], scores := map[],
                                       currentLetter := "", screen := Lobby)
    {
      gameStarted, timeLeft, answers, scores, currentLetter := false, GameTime, map[], map[], "";
      screen := Lobby;
    }

    /**
     * leaveRoom: removes this player from the stored room when someone else remains,
     * then returns to the home screen with this player's state cleared. The letter
     * and the time left are not reset.
     */
    method LeaveRoom(store: Store, readFails: bool)
      requires Valid()
      modifies this, store
      ensures Valid()
      ensures store.entries == AfterLeave(old(store.entries), old(roomCode), old(playerId), readFails)
      ensures State() == old(State()).(screen := Home, roomCode := "", playerName := "", playerId := "", players := [],
                                       answers := map[], scores := map[], gameStarted := false, isHost := false)
    {
      LeaveStore(store, roomCode, playerId, readFails);
      screen := Home;
      roomCode := "";
      playerName := "";
      playerId := "";
      players := [];
      answers := map[];
      scores := map[];
      gameStarted := false;
      isHost := false;
    }

    /**
     * One run of the poll callback (`readFails` as in ReadRoom; see LoadAllAnswers for
     * the other fault parameters). Nothing happens while no poll is installed or when
     * the read gives null; otherwise the client takes the Observe step, with the scores
     * computed from the answers loaded for the room and the captured letter.
     */
    method Poll(store: Store, readFails: bool, listFails: bool, unreadable: set<string>)
      requires Valid()
      modifies this
      ensures Valid()
      ensures !Polling(old(State())) || ReadRoom(store.entries, old(roomCode), readFails).None? ==>
        State() == old(State())
      ensures Polling(old(State())) && ReadRoom(store.entries, old(roomCode), readFails).Some? ==>
        State() == Observe(old(State()), ReadRoom(store.entries, old(roomCode), readFails).value, scores)
      ensures Polling(old(State())) && ReadRoom(store.entries, old(roomCode), readFails).Some? &&
              Ending(old(State()), ReadRoom(store.entries, old(roomCode), readFails).value) ==>
        ScoredFrom(store.entries, old(roomCode), listFails, unreadable, old(currentLetter), scores)
    {
      var s := State();
      if !Polling(s) {
        return;
      }
      var data := store.LoadGameData(roomCode, readFails);
      if data.None? {
        return;
      }
      var d := data.value;
      var roundScores := s.scores;
      if Ending(s, d) {
        roundScores := RoundScores(store, s.roomCode, s.currentLetter, listFails, unreadable);
      }
      Become(Observe(s, d, roundScores));
    }

    /** Sets every state variable at once. */
    method Become(t: ClientState)
      modifies this
      ensures State() == t
    {
      screen, roomCode, playerName, playerId, players := t.screen, t.roomCode, t.playerName, t.playerId, t.players;
      currentLetter, timeLeft, answers, gameStarted := t.currentLetter, t.timeLeft, t.answers, t.gameStarted;
      scores, isHost := t.scores, t.isHost;
    }

    /**
     * One run of the timer callback. Nothing happens while no timer is installed;
     * otherwise the time left counts down, and the tick that expires the round
     * calls endGame on the host's client only.
     */
    method Tick(store: Store, readFails: bool)
      requires Valid()
      modifies this, store
      ensures Valid()
      ensures !Running(old(State())) ==> State() == old(State()) && store.entries == old(store.entries)
      ensures Running(old(State())) ==> State() == old(State()).(timeLeft := Countdown(old(timeLeft)))
      ensures Running(old(State())) && Expires(old(timeLeft)) && isHost ==>
        store.entries ==
          old(store.entries)[GameKey(roomCode) := RoomDoc(Ended(ReadRoom(old(store.entries), roomCode, readFails)))]
      ensures Running(old(State())) && !(Expires(old(timeLeft)) && isHost) ==> store.entries == old(store.entries)
    {
      if !Running(State()) {
        return;
      }
      var prev := timeLeft;
      timeLeft := Countdown(prev);
      if Expires(prev) && isHost {
        EndGame(store, readFails);
      }
    }
  }

  /** A poll always adopts the stored player list, and changes the letter only when the round starts or resets. */
  lemma ObservePlayersAndLetter(s: ClientState, d: Room, scores: map<string, int>)
    ensures Observe(s, d, scores).players == Roster(d)
    ensures Observe(s, d, scores).currentLetter ==
      if Starting(s, d) then d.currentLetter else if Resetting(s, d) then "" else s.currentLetter
    ensures Observe(s, d, scores).scores ==
      if Ending(s, d) then scores else if Resetting(s, d) then map[] else s.scores
    ensures Observe(s, d, scores).roomCode == s.roomCode
  {
  }

  /**
   * From a polled screen of a consistent client, a poll either stays on the screen,
   * moves lobby to game or game to results, or brings the results screen back to the
   * lobby once the room is reset: never two steps at once.
   */
  lemma ObservePhases(s: ClientState, d: Room, scores: map<string, int>)
    requires Polling(s) && (s.screen == Game || s.screen == Results ==> s.gameStarted)
    ensures var t := Observe(s, d, scores).screen;
      || t == s.screen
      || (s.screen == Lobby && t == Game && d.gameStarted)
      || (s.screen == Game && t == Results && d.gameEnded)
      || (s.screen == Results && t == Lobby && !d.gameStarted && !d.gameEnded)
    ensures Observe(s, d, scores).screen == Game || Observe(s, d, scores).screen == Results ==>
      Observe(s, d, scores).gameStarted
  {
  }

  /** A client in the lobby that sees a round already started and ended reaches the results in two polls. */
  lemma LobbyToResultsInTwoPolls(s: ClientState, d: Room, scores1: map<string, int>, scores2: map<string, int>)
    requires s.screen == Lobby && !s.gameStarted && d.gameStarted && d.gameEnded
    ensures Observe(s, d, scores1).screen == Game && Observe(s, d, scores1).scores == s.scores
    ensures Observe(Observe(s, d, scores1), d, scores2).screen == Results
    ensures Observe(Observe(s, d, scores1), d, scores2).scores == scores2
  {
  }

  /** Once a poll shows the results, the timer is no longer installed. */
  lemma ResultsStopTimer(s: ClientState, d: Room, scores: map<string, int>)
    requires Ending(s, d)
    ensures !Running(Observe(s, d, scores))
  {
  }

  /** The tick that expires the round also removes the timer. */
  lemma ExpiringTickStops(s: ClientState)
    requires Running(s) && Expires(s.timeLeft)
    ensures !Running(s.(timeLeft := Countdown(s.timeLeft)))
  {
  }

  /**
   * The poll as written, in a client whose clock ran out in an earlier round (leaving
   * keeps the time left): the next round moves it to the game screen with no timer,
   * so its inputs stay disabled and its clock never runs.
   */
  lemma StaleClockBlocksRound(s: ClientState, d: Room, scores: map<string, int>)
    requires s.screen == Lobby && !s.gameStarted && s.timeLeft == 0 && d.gameStarted
    ensures ObserveAsWritten(s, d, scores).screen == Game
    ensures !Running(ObserveAsWritten(s, d, scores))
  {
  }

  /**
   * The poll as written, on the results screen of a client that played the round:
   * whatever the room holds, only the player list changes, so after "Play again"
   * this client never reaches the lobby or the next round.
   */
  lemma ResultsNeverLeft(s: ClientState, d: Room, scores: map<string, int>)
    requires s.screen == Results && s.gameStarted
    ensures ObserveAsWritten(s, d, scores) == s.(players := Roster(d))
  {
  }

  /** A round seen starting from the lobby runs this client's full clock, whatever the time left before. */
  lemma StartingRunsClock(s: ClientState, d: Room, scores: map<string, int>)
    requires s.screen == Lobby && !s.gameStarted && d.gameStarted
    ensures Observe(s, d, scores).screen == Game && Observe(s, d, scores).timeLeft == GameTime
    ensures Running(Observe(s, d, scores))
  {
  }

  /**
   * A client on the results screen follows "Play again": the reset room takes it to
   * the lobby with no answers, and the next round then runs on it with the new letter.
   */
  lemma ResultsFollowNextRound(s: ClientState, reset: Room, next: Room, scores1: map<string, int>,
                               scores2: map<string, int>)
    requires s.screen == Results
    requires !reset.gameStarted && !reset.gameEnded
    requires next.gameStarted && !next.gameEnded
    ensures Observe(s, reset, scores1).screen == Lobby && Observe(s, reset, scores1).answers == map[]
    ensures var t := Observe(Observe(s, reset, scores1), next, scores2);
      t.screen == Game && Running(t) && t.currentLetter == next.currentLetter && t.answers == map[]
  {
  }

  /** The corrected poll differs from the one as written only in these two cases. */
  lemma ObserveAgreesElsewhere(s: ClientState, d: Room, scores: map<string, int>)
    ensures !Resetting(s, d) && !Starting(s, d) ==> Observe(s, d, scores) == ObserveAsWritten(s, d, scores)
    ensures Starting(s, d) ==> Observe(s, d, scores) == ObserveAsWritten(s, d, scores).(timeLeft := GameTime)
  {
  }

  /**
   * A created room is found under its code, not yet started, so a second player
   * can join it: the joined room has the host first and the newcomer second.
   */
  lemma CreateThenJoin(entries: map<string, Doc>, code: string, pid: string, name: string, pid2: string, name2: string)
    ensures RoomAt(CreateWrite(entries, code, pid, name), code) == Some(Created(pid, name))
    ensures !Created(pid, name).gameStarted
    ensures Roster(Joined(Created(pid, name), pid2, name2)) == [Player(pid, name, true), Player(pid2, name2, false)]
  {
    SaveThenLoad(entries, code, Created(pid, name));
  }

  /**
   * createRoom as written, clicked on the home screen where the render-time room
   * code differs from the generated one (it is empty there): the room lands under
   * the render-time code and the generated code still names no room, so the host's
   * polls read nothing and joining the code finds nothing.
   */
  lemma StaleCreateLosesRoom(entries: map<string, Doc>, renderCode: string, code: string, pid: string, name: string)
    requires renderCode != code && RoomAt(entries, code) == None
    ensures RoomAt(CreateWriteAsWritten(entries, renderCode, pid, name), code) == None
    ensures RoomAt(CreateWriteAsWritten(entries, renderCode, pid, name), renderCode) == Some(Created(pid, name))
  {
    SaveElsewhere(entries, code, renderCode, RoomDoc(Created(pid, name)));
    SaveThenLoad(entries, renderCode, Created(pid, name));
  }

  /**
   * A room read that fails during endGame replaces a live room with an ended one
   * that has no player list: later polls show nobody, a join throws, and a leave writes nothing.
   */
  lemma FailedEndDropsPlayers(entries: map<string, Doc>, code: string, r: Room, pid: string)
    requires RoomAt(entries, code) == Some(r)
    ensures var after := entries[GameKey(code) := RoomDoc(Ended(ReadRoom(entries, code, true)))];
      && RoomAt(after, code).Some?
      && RoomAt(after, code).value.players.None?
      && Roster(RoomAt(after, code).value) == []
      && AfterLeave(after, code, pid, false) == after
  {
    SaveThenLoad(entries, code, Ended(None));
  }

  /** Leaving touches at most the room's own document, and keeps the others' rooms and all answers. */
  lemma LeaveTouchesOnlyRoom(entries: map<string, Doc>, code: string, pid: string, readFails: bool, k: string)
    requires k != GameKey(code)
    ensures k in AfterLeave(entries, code, pid, readFails) <==> k in entries
    ensures k in entries ==> AfterLeave(entries, code, pid, readFails)[k] == entries[k]
  {
  }

  /** The last player leaving leaves the room document as it was. */
  lemma LastPlayerLeavesDocument(entries: map<string, Doc>, code: string, pid: string, readFails: bool)
    requires RoomAt(entries, code).Some?
    requires forall p :: p in Roster(RoomAt(entries, code).value) ==> p.id == pid
    ensures AfterLeave(entries, code, pid, readFails) == entries
  {
  }
}
