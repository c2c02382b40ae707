/** A Redis server: keys with values and times to live, and the commands the scripts use. */
module RedisServer {
  import opened Text

  const MILLISECOND: int := 1_000_000

  /** A member of a sorted set: the text `score:index`, scored by its first part. */
  datatype Member = Member(score: int, index: int)

  datatype Value = Hash(tokens: int, lastUpdate: int) | Counter(count: int) | Scored(members: set<Member>)

  /** A stored value and the millisecond after which it is gone. */
  datatype Entry = Entry(value: Value, expireAt: Option<int>)

  /** What a command finds: an entry past its time is deleted on access. */
  function Live(e: Option<Entry>, clock: int): Option<Entry> {
    if e.Some? && e.value.expireAt.Some? && clock / MILLISECOND > e.value.expireAt.value then None else e
  }

  /** A key given a time to live; one without any is deleted at once. */
  function Expire(v: Value, seconds: int, clock: int): Option<Entry> {
    if seconds <= 0 then None else Some(Entry(v, Some(clock / MILLISECOND + 1000 * seconds)))
  }

  function Newer(members: set<Member>, cutoff: int): set<Member> {
    set m | m in members && !(0 <= m.score <= cutoff)
  }

  /** Removing the old members; a set left empty is removed with its key. */
  function Pruned(live: Option<Entry>, cutoff: int): (r: Option<Entry>)
    requires live.Some? ==> live.value.value.Scored?
    ensures r.Some? ==> r.value.value.Scored?
  {
    if live.None? || Newer(live.value.value.members, cutoff) == {} then None
    else Some(Entry(Scored(Newer(live.value.value.members, cutoff)), live.value.expireAt))
  }

  function MembersOf(e: Option<Entry>): set<Member> {
    if e.Some? && e.value.value.Scored? then e.value.value.members else {}
  }

  /** The members one granted call adds. */
  function Batch(now: int, n: int): set<Member> {
    set i | 1 <= i <= n :: Member(now, i)
  }

  lemma BatchGrows(now: int, n: int)
    requires n >= 1
    ensures Batch(now, n) == Batch(now, n - 1) + {Member(now, n)}
    ensures Batch(now, 0) == {}
  {
  }

  type Db = map<string, Entry>

  function Lookup(db: Db, key: string): Option<Entry> {
    if key in db then Some(db[key]) else None
  }

  function Stored(db: Db, key: string, e: Option<Entry>): Db {
    if e.Some? then db[key := e.value] else db - {key}
  }

  class Server {
    var db: Db

    constructor ()
      ensures db == map[]
    {
      db := map[];
    }

    /** Deletes a key that is past its time. */
    method Touch(key: string, clock: int)
      modifies this
      ensures Lookup(db, key) == Live(Lookup(old(db), key), clock)
      ensures db == Stored(old(db), key, Lookup(db, key))
    {
      if key in db && db[key].expireAt.Some? && clock / MILLISECOND > db[key].expireAt.value {
        db := db - {key};
      } else {
        assert db == Stored(db, key, Lookup(db, key));
      }
    }

    method ExpireKey(key: string, seconds: int, clock: int)
      requires key in db
      modifies this
      ensures db == Stored(old(db), key, Expire(old(db[key].value), seconds, clock))
    {
      if seconds <= 0 {
        db := db - {key};
      } else {
        db := db[key := db[key].(expireAt := Some(clock / MILLISECOND + 1000 * seconds))];
      }
    }

    /** Removes the members scored from 0 to `cutoff`, and the key with the last of them. */
    method RemoveRange(key: string, cutoff: int)
      requires key in db ==> db[key].value.Scored?
      modifies this
      ensures Lookup(db, key) == Pruned(Lookup(old(db), key), cutoff)
      ensures db == Stored(old(db), key, Lookup(db, key))
    {
      if key in db {
        var kept := Newer(db[key].value.members, cutoff);
        if kept == {} {
          db := db - {key};
        } else {
          db := db[key := db[key].(value := Scored(kept))];
        }
      }
    }

    /** ZADD of one member after the other. */
    method AddBatch(key: string, now: int, requested: int)
      requires requested >= 1 && (key in db ==> db[key].value.Scored?)
      modifies this
      ensures db == old(db)[key := Entry(Scored(MembersOf(Lookup(old(db), key)) + Batch(now, requested)),
                                         if key in old(db) then old(db)[key].expireAt else None)]
    {
      ghost var members := MembersOf(Lookup(db, key));
      ghost var expireAt := if key in db then db[key].expireAt else None;
      for i := 1 to requested + 1
        invariant i == 1 ==> db == old(db)
        invariant i > 1 ==> db == old(db)[key := Entry(Scored(members + Batch(now, i - 1)), expireAt)]
      {
        BatchGrows(now, i);
        var added := MembersOf(Lookup(db, key)) + {Member(now, i)};
        assert added == members + Batch(now, i);
        db := db[key := Entry(Scored(added), if key in db then db[key].expireAt else None)];
      }
    }
  }
}
