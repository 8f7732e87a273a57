/**
 * The shared key-value service behind `window.storage`, held in memory: each
 * key maps to the document its JSON value parses to. Room documents live under
 * `game:{code}`, answer records under `answers:{code}:{playerId}`.
 */
module Storage {
  import opened Wrappers
  import opened Text
  import opened Rooms
  import opened Scoring

  /**
   * A stored value, as the component reads it back: a room, an answer record,
   * or a value that yields nothing (empty, or not valid JSON).
   */
  datatype Doc = RoomDoc(room: Room) | AnswerDoc(answers: Answers) | Blank

  function GameKey(code: string): string {
    "game:" + code
  }

  function AnswerPrefix(code: string): string {
    "answers:" + code + ":"
  }

  function AnswerKey(code: string, pid: string): string {
    AnswerPrefix(code) + pid
  }

  /**
   * The room stored under `game:{code}`, or None when the key is missing, its
   * value is empty or does not parse, or it holds no room.
   */
  function RoomAt(entries: map<string, Doc>, code: string): (d: Option<Room>)
    ensures d.Some? <==> GameKey(code) in entries && entries[GameKey(code)].RoomDoc?
    ensures d.Some? ==> entries[GameKey(code)] == RoomDoc(d.value)
  {
    var key := GameKey(code);
    if key in entries && entries[key].RoomDoc? then Some(entries[key].room) else None
  }

  /**
   * loadGameData: what the read yields. `readFails` stands for a `get` that throws;
   * the error is caught and the read gives null, as for a missing room.
   */
  function ReadRoom(entries: map<string, Doc>, code: string, readFails: bool): (d: Option<Room>)
    ensures d.Some? <==> !readFails && RoomAt(entries, code).Some?
    ensures d.Some? ==> d == RoomAt(entries, code)
  {
    if readFails then None else RoomAt(entries, code)
  }

  class Store {
    var entries: map<string, Doc>

    constructor()
      ensures entries == map[]
    {
      entries := map[];
    }

    /** loadGameData(code), with `readFails` as in ReadRoom. */
    function LoadGameData(code: string, readFails: bool): Option<Room>
      reads this
    {
      ReadRoom(entries, code, readFails)
    }

    /** `storage.set(key, value)`. */
    method Set(key: string, doc: Doc)
      modifies this
      ensures entries == old(entries)[key := doc]
    {
      entries := entries[key := doc];
    }

    /** `storage.delete(key)`. */
    method Delete(key: string)
      modifies this
      ensures entries == old(entries) - {key}
    {
      entries := entries - {key};
    }

    /** `storage.list(prefix)`: every stored key with the prefix, once each, in no promised order. */
    method List(prefix: string) returns (keys: seq<string>)
      ensures forall k :: k in keys <==> k in entries && StartsWith(k, prefix)
      ensures forall i, j :: 0 <= i < j < |keys| ==> keys[i] != keys[j]
    {
      var left := set k | k in entries && StartsWith(k, prefix);
      keys := [];
      while left != {}
        invariant forall k :: k in keys <==> k in entries && StartsWith(k, prefix) && k !in left
        invariant left <= entries.Keys
        invariant forall i, j :: 0 <= i < j < |keys| ==> keys[i] != keys[j]
        decreases left
      {
        var k :| k in left;
        keys := keys + [k];
        left := left - {k};
      }
    }
  }

  /** A room saved under a code is what loadGameData then returns for it, whatever was stored before. */
  lemma SaveThenLoad(entries: map<string, Doc>, code: string, r: Room)
    ensures RoomAt(entries[GameKey(code) := RoomDoc(r)], code) == Some(r)
  {
  }

  /** Writing under another room's key leaves this room's document as it was. */
  lemma SaveElsewhere(entries: map<string, Doc>, code: string, other: string, doc: Doc)
    requires other != code
    ensures RoomAt(entries[GameKey(other) := doc], code) == RoomAt(entries, code)
  {
    GameKeyInjective(code, other);
  }

  /** Distinct codes have distinct room keys. */
  lemma GameKeyInjective(a: string, b: string)
    ensures GameKey(a) == GameKey(b) <==> a == b
  {
    if GameKey(a) == GameKey(b) {
      assert a == GameKey(a)[5..];
    }
  }

  /** No room key carries an answer prefix, so answer writes and deletes never touch a room. */
  lemma GameKeyNotAnswer(code: string, room: string)
    ensures !StartsWith(GameKey(code), AnswerPrefix(room))
  {
    assert GameKey(code)[0] == 'g';
    assert AnswerPrefix(room)[0] == 'a';
  }
}
