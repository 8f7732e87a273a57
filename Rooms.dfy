/**
 * The room document stored under `game:{roomCode}` and the record changes the
 * create, join, start, end, reset and leave actions make to it. Each action
 * reads the document, rebuilds it with an object spread and writes it back;
 * the functions here are those rebuilt documents.
 */
module Rooms {
  import opened Wrappers

  datatype Player = Player(id: string, name: string, isHost: bool)

  /**
   * A room document. `players` is None when the document has no `players` field,
   * which happens once a room was rebuilt by spreading a null read.
   */
  datatype Room = Room(players: Option<seq<Player>>, gameStarted: bool, gameEnded: bool, currentLetter: string)

  /** The letters startGame draws the round letter from. */
  const Letters: string := "ABCDEFGHIJKLMNOPQRSTUVWXYZ"

  /**
   * What `{...data, f: v}` starts from when the read returned null: no fields at all.
   * A missing flag reads as false and a missing letter as no letter; the player
   * list is absent.
   */
  const NoRoom: Room := Room(None, false, false, "")

  /** `data.players || []`: the player list a poll shows. */
  function Roster(r: Room): seq<Player> {
    r.players.GetOr([])
  }

  function Base(d: Option<Room>): Room {
    d.GetOr(NoRoom)
  }

  predicate IsRoundLetter(s: string) {
    |s| == 1 && 'A' <= s[0] <= 'Z'
  }

  function HostCount(ps: seq<Player>): nat {
    if ps == [] then 0
    else HostCount(ps[..|ps| - 1]) + (if ps[|ps| - 1].isHost then 1 else 0)
  }

  predicate DistinctIds(ps: seq<Player>) {
    forall i, j :: 0 <= i < j < |ps| ==> ps[i].id != ps[j].id
  }

  /**
   * The room invariant: at most one host; before a round starts there is no letter
   * and the round has not ended; once it starts the letter is one of A to Z.
   * (gameEnded implies gameStarted is part of it.)
   */
  predicate Wellformed(r: Room) {
    && HostCount(Roster(r)) <= 1
    && if r.gameStarted then IsRoundLetter(r.currentLetter) else r.currentLetter == "" && !r.gameEnded
  }

  /** createRoom: the creator alone, as host, no round yet. */
  function Created(pid: string, name: string): (r: Room)
    ensures Wellformed(r) && HostCount(Roster(r)) == 1
    ensures r.players == Some([Player(pid, name, true)])
    ensures !r.gameStarted && !r.gameEnded && r.currentLetter == ""
  {
    Room(Some([Player(pid, name, true)]), false, false, "")
  }

  /**
   * joinRoom: the loaded room with a new non-host player appended. Spreading a
   * missing player list throws, so the room must have one (JoinRoom handles the other case).
   */
  function Joined(r: Room, pid: string, name: string): Room
    requires r.players.Some?
  {
    r.(players := Some(r.players.value + [Player(pid, name, false)]))
  }

  /** startGame: the loaded document (or null) with the round started under `letter`. */
  function Started(d: Option<Room>, letter: char): Room {
    Base(d).(gameStarted := true, currentLetter := [letter], gameEnded := false)
  }

  /** endGame: the loaded document (or null) with the round marked ended. */
  function Ended(d: Option<Room>): Room {
    Base(d).(gameEnded := true)
  }

  /** resetGame: the loaded document (or null) back to the pre-round phase. */
  function Reset(d: Option<Room>): Room {
    Base(d).(gameStarted := false, gameEnded := false, currentLetter := "")
  }

  /** `players.filter(p => p.id !== pid)`. */
  function Without(ps: seq<Player>, pid: string): (r: seq<Player>)
    ensures forall p :: p in r <==> p in ps && p.id != pid
    ensures |r| <= |ps|
    ensures HostCount(r) <= HostCount(ps)
  {
    if ps == [] then []
    else
      var last := ps[|ps| - 1];
      var front := Without(ps[..|ps| - 1], pid);
      assert ps == ps[..|ps| - 1] + [last];
      if last.id == pid then front
      else
        assert (front + [last])[..|front|] == front;
        front + [last]
  }

  /** The filter keeps every other player exactly as often as the list holds it, and drops every player with the id. */
  lemma {:induction false} WithoutCount(ps: seq<Player>, pid: string, p: Player)
    ensures multiset(Without(ps, pid))[p] == if p.id == pid then 0 else multiset(ps)[p]
  {
    if ps != [] {
      var front := ps[..|ps| - 1];
      var last := ps[|ps| - 1];
      assert ps == front + [last];
      WithoutCount(front, pid, p);
      if last.id != pid {
        assert multiset(Without(ps, pid)) == multiset(Without(front, pid)) + multiset{last};
      }
    }
  }

  /** Nothing is removed when no player has the id. */
  lemma {:induction false} WithoutNoMatch(ps: seq<Player>, pid: string)
    requires forall p :: p in ps ==> p.id != pid
    ensures Without(ps, pid) == ps
  {
    if ps != [] {
      var front := ps[..|ps| - 1];
      assert ps == front + [ps[|ps| - 1]];
      WithoutNoMatch(front, pid);
    }
  }

  lemma ConcatAssoc<T>(x: seq<T>, y: seq<T>, z: seq<T>)
    ensures (x + y) + z == x + (y + z)
  {
  }

  /** Filtering a list with one more player at the end. */
  lemma WithoutSnoc(ps: seq<Player>, p: Player, pid: string)
    ensures Without(ps + [p], pid) == if p.id == pid then Without(ps, pid) else Without(ps, pid) + [p]
  {
    assert (ps + [p])[..|ps|] == ps;
  }

  /** The filter distributes over concatenation, so it keeps the order of the players it keeps. */
  lemma {:induction false} WithoutAppend(a: seq<Player>, b: seq<Player>, pid: string)
    ensures Without(a + b, pid) == Without(a, pid) + Without(b, pid)
  {
    if b == [] {
      assert a + b == a;
      assert Without(a + b, pid) == Without(a, pid) + Without(b, pid);
    } else {
      var front := b[..|b| - 1];
      var last := b[|b| - 1];
      assert b == front + [last];
      assert a + b == (a + front) + [last];
      WithoutAppend(a, front, pid);
      WithoutSnoc(a + front, last, pid);
      WithoutSnoc(front, last, pid);
      var wa, wf := Without(a, pid), Without(front, pid);
      if last.id == pid {
        assert Without(a + b, pid) == wa + wf;
        assert Without(b, pid) == wf;
      } else {
        assert Without(a + b, pid) == (wa + wf) + [last];
        assert Without(b, pid) == wf + [last];
        ConcatAssoc(wa, wf, [last]);
      }
    }
  }

  /**
   * leaveRoom: the document to write back, or None when it has no player list or
   * nobody would remain (then nothing is written).
   */
  function LeaveWrite(r: Room, pid: string): Option<Room> {
    match r.players
    case None => None
    case Some(all) =>
      var ps := Without(all, pid);
      if |ps| > 0 then Some(r.(players := Some(ps))) else None
  }

  lemma AppendHostCount(ps: seq<Player>, p: Player)
    ensures HostCount(ps + [p]) == HostCount(ps) + (if p.isHost then 1 else 0)
  {
    assert (ps + [p])[..|ps|] == ps;
  }

  /** Joining keeps the invariant and the host count, and appends exactly the newcomer. */
  lemma JoinedKeepsRoom(r: Room, pid: string, name: string)
    requires Wellformed(r) && r.players.Some?
    ensures Wellformed(Joined(r, pid, name))
    ensures HostCount(Roster(Joined(r, pid, name))) == HostCount(Roster(r))
    ensures |Roster(Joined(r, pid, name))| == |Roster(r)| + 1
    ensures Roster(Joined(r, pid, name))[..|Roster(r)|] == Roster(r)
  {
    AppendHostCount(r.players.value, Player(pid, name, false));
  }

  /** A newcomer whose id is not yet in the room keeps the ids distinct. */
  lemma JoinedKeepsIdsDistinct(r: Room, pid: string, name: string)
    requires r.players.Some? && DistinctIds(r.players.value)
    requires forall p :: p in r.players.value ==> p.id != pid
    ensures DistinctIds(Joined(r, pid, name).players.value)
  {
    var ps := Joined(r, pid, name).players.value;
    forall i, j | 0 <= i < j < |ps| ensures ps[i].id != ps[j].id {
      if j == |r.players.value| {
        assert ps[i] in r.players.value;
      }
    }
  }

  /** Starting a round keeps the players and yields a well-formed started room with an A-Z letter. */
  lemma StartedWellformed(d: Option<Room>, letter: char)
    requires 'A' <= letter <= 'Z'
    requires d.Some? ==> Wellformed(d.value)
    ensures Wellformed(Started(d, letter))
    ensures Started(d, letter).gameStarted && !Started(d, letter).gameEnded
    ensures IsRoundLetter(Started(d, letter).currentLetter)
    ensures Started(d, letter).players == Base(d).players
  {
  }

  /** Ending a started round keeps the invariant; only gameEnded changes. */
  lemma EndedKeepsRoom(r: Room)
    requires Wellformed(r) && r.gameStarted
    ensures Wellformed(Ended(Some(r)))
    ensures Ended(Some(r)) == r.(gameEnded := true)
  {
  }

  /** Ending when the read returned null writes an ended round that never started, without a player list. */
  lemma EndedFromNullBreaksInvariant()
    ensures !Wellformed(Ended(None))
    ensures Ended(None).players == None
  {
  }

  /** Resetting yields the pre-round phase with the same players, and keeps the invariant. */
  lemma ResetKeepsRoom(d: Option<Room>)
    requires d.Some? ==> Wellformed(d.value)
    ensures Wellformed(Reset(d))
    ensures Reset(d).players == Base(d).players
    ensures !Reset(d).gameStarted && !Reset(d).gameEnded && Reset(d).currentLetter == ""
  {
  }

  /**
   * Leaving writes back only when the room has a player list and someone else is
   * in it; what is written holds each other player as often as before and nobody
   * with the leaving id, keeps the invariant, and changes nothing but the players.
   */
  lemma LeaveWriteKeepsRoom(r: Room, pid: string)
    requires Wellformed(r)
    ensures LeaveWrite(r, pid).Some? <==> r.players.Some? && exists p :: p in r.players.value && p.id != pid
    ensures LeaveWrite(r, pid).Some? ==> var r' := LeaveWrite(r, pid).value;
      && Wellformed(r')
      && r' == r.(players := r'.players)
      && r'.players.Some?
      && forall p :: multiset(r'.players.value)[p] == if p.id == pid then 0 else multiset(r.players.value)[p]
  {
    if r.players.Some? {
      if exists p :: p in r.players.value && p.id != pid {
        var p :| p in r.players.value && p.id != pid;
        assert p in Without(r.players.value, pid);
      }
      forall p {
        WithoutCount(r.players.value, pid, p);
      }
    }
  }

  /**
   * The host may leave while others stay: the room written back then has no host,
   * so nobody left can start a round.
   */
  lemma HostLeavingLeavesNoHost(r: Room, host: Player)
    requires HostCount(Roster(r)) == 1 && host in Roster(r) && host.isHost
    requires LeaveWrite(r, host.id).Some?
    ensures HostCount(Roster(LeaveWrite(r, host.id).value)) == 0
  {
    var ps := Without(r.players.value, host.id);
    if HostCount(ps) != 0 {
      var q := HostIn(ps);
      assert q in Roster(r) && q.id != host.id;
      OneHostOnly(Roster(r), q, host);
    }
  }

  lemma HostIn(ps: seq<Player>) returns (q: Player)
    requires HostCount(ps) > 0
    ensures q in ps && q.isHost
  {
    var last := ps[|ps| - 1];
    if last.isHost {
      q := last;
    } else {
      q := HostIn(ps[..|ps| - 1]);
    }
  }

  lemma {:induction false} OneHostOnly(ps: seq<Player>, a: Player, b: Player)
    requires a in ps && b in ps && a.isHost && b.isHost && a.id != b.id
    ensures HostCount(ps) >= 2
  {
    var front := ps[..|ps| - 1];
    var last := ps[|ps| - 1];
    assert ps == front + [last];
    if a == last {
      assert b in front;
      HostCountOfMember(front, b);
    } else if b == last {
      assert a in front;
      HostCountOfMember(front, a);
    } else {
      assert a in front && b in front;
      OneHostOnly(front, a, b);
    }
  }

  lemma {:induction false} HostCountOfMember(ps: seq<Player>, a: Player)
    requires a in ps && a.isHost
    ensures HostCount(ps) >= 1
  {
    var front := ps[..|ps| - 1];
    assert ps == front + [ps[|ps| - 1]];
    if ps[|ps| - 1] != a {
      HostCountOfMember(front, a);
    }
  }
}
