/**
 * The answer records of a room: savePlayerAnswers writes one record per player
 * under `answers:{code}:{playerId}`, loadAllAnswers lists that prefix and reads
 * every record back keyed by the third `:`-separated piece of its key, and the
 * first step of resetGame deletes every key under the prefix.
 */
module AnswerStore {
  import opened Text
  import opened Scoring
  import opened Storage

  /** `key.split(':')[2]`, which is `undefined` (used as the key "undefined") for a key with fewer pieces. */
  function PlayerIdOf(key: string): string {
    var parts := Split(key, ':');
    if |parts| >= 3 then parts[2] else "undefined"
  }

  /**
   * The record a parsed value becomes. A room document parsed from an answer key
   * has none of the category fields, so it reads as an empty record.
   */
  function AsAnswers(d: Doc): Answers {
    match d
    case AnswerDoc(a) => a
    case _ => map[]
  }

  /**
   * The listed keys whose `get` neither throws (keys in `unreadable`) nor yields
   * an empty or unparseable value: the ones loadAllAnswers keeps.
   */
  function LoadedKeys(entries: map<string, Doc>, room: string, unreadable: set<string>): set<string> {
    set k | k in entries && StartsWith(k, AnswerPrefix(room)) && k !in unreadable && !entries[k].Blank?
  }

  /**
   * What loadAllAnswers may return: nothing when the listing fails; otherwise one
   * entry per player id recovered from a kept key, holding the record under such a key.
   * When two kept keys give the same id the later one in listing order wins, which
   * the service does not fix, so the entry is only said to come from one of them.
   */
  predicate AnswersLoaded(entries: map<string, Doc>, room: string, listFails: bool, unreadable: set<string>,
                          all: AnswerTable)
  {
    if listFails then all == map[]
    else
      && all.Keys == (set k | k in LoadedKeys(entries, room, unreadable) :: PlayerIdOf(k))
      && forall pid :: pid in all ==>
           exists k :: k in LoadedKeys(entries, room, unreadable) && PlayerIdOf(k) == pid && all[pid] == AsAnswers(entries[k])
  }

  /** Every key under the room's answer prefix ends in a colon-free id, as generated ids are. */
  predicate WellKeyed(entries: map<string, Doc>, room: string) {
    forall k :: k in entries && StartsWith(k, AnswerPrefix(room)) ==> ':' !in k[|AnswerPrefix(room)|..]
  }

  /**
   * The effect of the delete loop of resetGame: only keys under the prefix go,
   * nothing is rewritten, a failed listing deletes nothing, and when no delete
   * fails every key under the prefix is gone. A failing delete ends the loop,
   * since the `try` encloses it, so later keys may survive.
   */
  predicate Cleared(before: map<string, Doc>, after: map<string, Doc>, room: string, listFails: bool,
                    undeletable: set<string>)
  {
    && after.Keys <= before.Keys
    && (forall k :: k in after ==> after[k] == before[k])
    && (forall k :: k in before && !StartsWith(k, AnswerPrefix(room)) ==> k in after)
    && (listFails ==> after == before)
    && (!listFails && (forall k :: k in before && StartsWith(k, AnswerPrefix(room)) ==> k !in undeletable) ==>
          forall k :: k in after ==> !StartsWith(k, AnswerPrefix(room)))
  }

  /** savePlayerAnswers. */
  method SavePlayerAnswers(store: Store, room: string, pid: string, answers: Answers)
    modifies store
    ensures store.entries == old(store.entries)[AnswerKey(room, pid) := AnswerDoc(answers)]
  {
    store.Set(AnswerKey(room, pid), AnswerDoc(answers));
  }

  /**
   * loadAllAnswers. `listFails` stands for a listing that throws or returns no key
   * list; `unreadable` for the keys whose `get` throws.
   */
  method LoadAllAnswers(store: Store, room: string, listFails: bool, unreadable: set<string>)
    returns (all: AnswerTable)
    ensures AnswersLoaded(store.entries, room, listFails, unreadable, all)
  {
    if listFails {
      return map[];
    }
    var keys := store.List(AnswerPrefix(room));
    ghost var loaded := LoadedKeys(store.entries, room, unreadable);
    all := map[];
    for i := 0 to |keys|
      invariant all.Keys == (set k | k in keys[..i] && k in loaded :: PlayerIdOf(k))
      invariant forall pid :: pid in all ==>
        exists k :: k in keys[..i] && k in loaded && PlayerIdOf(k) == pid && all[pid] == AsAnswers(store.entries[k])
    {
      var key := keys[i];
      assert keys[..i + 1] == keys[..i] + [key];
      if key !in unreadable {
        var doc := store.entries[key];
        if !doc.Blank? {
          assert key in loaded;
          all := all[PlayerIdOf(key) := AsAnswers(doc)];
        }
      }
    }
    assert keys[..|keys|] == keys;
    assert forall k :: k in loaded ==> k in keys;
  }

  /** The delete loop of resetGame. `undeletable` stands for the keys whose `delete` throws. */
  method ClearAnswers(store: Store, room: string, listFails: bool, undeletable: set<string>)
    modifies store
    ensures Cleared(old(store.entries), store.entries, room, listFails, undeletable)
  {
    if listFails {
      return;
    }
    var keys := store.List(AnswerPrefix(room));
    var i := 0;
    while i < |keys|
      invariant 0 <= i <= |keys|
      invariant store.entries.Keys <= old(store.entries).Keys
      invariant forall k :: k in store.entries ==> store.entries[k] == old(store.entries)[k]
      invariant forall k :: k in old(store.entries) && k !in keys[..i] ==> k in store.entries
      invariant forall k :: k in keys[..i] ==> k !in store.entries
      invariant forall k :: k in keys ==> k in old(store.entries) && StartsWith(k, AnswerPrefix(room))
    {
      if keys[i] in undeletable {
        break;
      }
      assert keys[..i + 1] == keys[..i] + [keys[i]];
      store.Delete(keys[i]);
      i := i + 1;
    }
    assert i == |keys| ==> keys[..i] == keys;
  }

  /** An id joined to a colon-free room code is recovered from its key. */
  lemma AnswerKeyRoundTrip(room: string, rest: string)
    requires ':' !in room && ':' !in rest
    ensures PlayerIdOf(AnswerKey(room, rest)) == rest
  {
    assert ':' !in "answers";
    assert AnswerKey(room, rest) == "answers" + [':'] + (room + [':'] + rest);
    SplitAfterHead("answers", ':', room + [':'] + rest);
    SplitAfterHead(room, ':', rest);
    SplitWithoutSep(rest, ':');
  }

  /** A key under the prefix of a colon-free room code is the key of the id it yields. */
  lemma ListedKeyIsAnswerKey(room: string, k: string)
    requires ':' !in room && StartsWith(k, AnswerPrefix(room)) && ':' !in k[|AnswerPrefix(room)|..]
    ensures k == AnswerKey(room, PlayerIdOf(k))
  {
    var rest := k[|AnswerPrefix(room)|..];
    assert k == AnswerKey(room, rest);
    AnswerKeyRoundTrip(room, rest);
  }

  /**
   * With colon-free codes and ids, a player appears in the loaded answers exactly
   * when that player's own key was kept, and then with that key's record: a
   * failed or empty entry drops only its own player.
   */
  lemma LoadedIff(entries: map<string, Doc>, room: string, unreadable: set<string>, all: AnswerTable, pid: string)
    requires ':' !in room && ':' !in pid && WellKeyed(entries, room)
    requires AnswersLoaded(entries, room, false, unreadable, all)
    ensures pid in all <==> AnswerKey(room, pid) in LoadedKeys(entries, room, unreadable)
    ensures pid in all ==> all[pid] == AsAnswers(entries[AnswerKey(room, pid)])
  {
    var key := AnswerKey(room, pid);
    var loaded := LoadedKeys(entries, room, unreadable);
    AnswerKeyRoundTrip(room, pid);
    if key in loaded {
      assert PlayerIdOf(key) in all;
    }
    if pid in all {
      var k :| k in loaded && PlayerIdOf(k) == pid && all[pid] == AsAnswers(entries[k]);
      ListedKeyIsAnswerKey(room, k);
    }
  }

  /** A record just saved is the one loaded for its player, unless its own read fails. */
  lemma SavedIsLoaded(entries: map<string, Doc>, room: string, pid: string, answers: Answers,
                      unreadable: set<string>, all: AnswerTable)
    requires ':' !in room && ':' !in pid && WellKeyed(entries, room)
    requires AnswerKey(room, pid) !in unreadable
    requires AnswersLoaded(entries[AnswerKey(room, pid) := AnswerDoc(answers)], room, false, unreadable, all)
    ensures pid in all && all[pid] == answers
  {
    var after := entries[AnswerKey(room, pid) := AnswerDoc(answers)];
    assert WellKeyed(after, room) by {
      forall k | k in after && StartsWith(k, AnswerPrefix(room))
        ensures ':' !in k[|AnswerPrefix(room)|..]
      {
        if k == AnswerKey(room, pid) {
          assert k[|AnswerPrefix(room)|..] == pid;
        }
      }
    }
    LoadedIff(after, room, unreadable, all, pid);
  }

  /** Clearing never touches a room document. */
  lemma ClearedKeepsRooms(before: map<string, Doc>, after: map<string, Doc>, room: string, listFails: bool,
                          undeletable: set<string>, code: string)
    requires Cleared(before, after, room, listFails, undeletable)
    ensures RoomAt(after, code) == RoomAt(before, code)
  {
    GameKeyNotAnswer(code, room);
  }

  /** Clearing a room with no answer keys changes nothing, so a second clear is a no-op. */
  lemma ClearedNothingToClear(before: map<string, Doc>, after: map<string, Doc>, room: string, listFails: bool,
                              undeletable: set<string>)
    requires Cleared(before, after, room, listFails, undeletable)
    requires forall k :: k in before ==> !StartsWith(k, AnswerPrefix(room))
    ensures after == before
  {
  }

  /** After a clear in which no delete failed, loading the room's answers finds none. */
  lemma ClearedLoadsNothing(before: map<string, Doc>, after: map<string, Doc>, room: string,
                            undeletable: set<string>, unreadable: set<string>, all: AnswerTable)
    requires Cleared(before, after, room, false, undeletable)
    requires forall k :: k in before && StartsWith(k, AnswerPrefix(room)) ==> k !in undeletable
    requires AnswersLoaded(after, room, false, unreadable, all)
    ensures all == map[]
  {
    assert LoadedKeys(after, room, unreadable) == {};
  }
}
