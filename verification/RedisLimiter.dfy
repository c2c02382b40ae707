/** The Redis limiter: three scripts, each one atomic step on one key of a server shared by any number of limiters. */
module RedisLimiter {
  import opened Arithmetic
  import opened RedisServer
  import opened Runs
  import opened Text

  datatype Reply = Reply(allowed: bool, remaining: int) | WrongType

  // ----- The scripts, as functions of the entry they work on -----

  /** The tokens after `elapsed` seconds. A window of zero seconds divides by zero: the minimum with infinity, or with a
      value that is not a number, is the limit. */
  function Refilled(limit: int, window: int, tokens: int, elapsed: int): int {
    if window == 0 then limit else Min(limit, tokens + elapsed * limit / window)
  }

  function TokenScript(limit: int, window: int, now: int, requested: int, e: Option<Entry>, clock: int): (Option<Entry>,
                                                                                                          Reply) {
    var live := Live(e, clock);
    if live.Some? && !live.value.value.Hash? then (live, WrongType)
    else
      var tokens := if live.Some? then live.value.value.tokens else limit;
      var elapsed := if live.Some? then now - live.value.value.lastUpdate else 0;
      var level := Refilled(limit, window, tokens, elapsed);
      if level >= requested then (Expire(Hash(level - requested, now), window, clock), Reply(true, level - requested))
      else (live, Reply(false, level))
  }

  function FixedScript(limit: int, window: int, requested: int, e: Option<Entry>, clock: int): (Option<Entry>, Reply) {
    var live := Live(e, clock);
    if live.Some? && !live.value.value.Counter? then (live, WrongType)
    else
      var current := if live.Some? then live.value.value.count else 0;
      var count := current + requested;
      if count <= limit then
        (if count == requested then Expire(Counter(count), window, clock)
         else Some(Entry(Counter(count), if live.Some? then live.value.expireAt else None)),
         Reply(true, limit - count))
      else (live, Reply(false, limit - current))
  }

  function SlidingScript(limit: int, window: int, now: int, requested: int, e: Option<Entry>,
                         clock: int): (Option<Entry>, Reply) {
    var live := Live(e, clock);
    if live.Some? && !live.value.value.Scored? then (live, WrongType)
    else
      var pruned := Pruned(live, now - window * 1000);
      var members := MembersOf(pruned);
      if |members| + requested <= limit then
        var e' := Expire(Scored(members + Batch(now, requested)), window * 2, clock);
        (e', Reply(true, limit - |MembersOf(e')|))
      else (pruned, Reply(false, limit - |members|))
  }

  // ----- The limiter, on the entry of its key -----

  datatype Config = Config(algorithm: string, limit: int, window: int)

  function Algorithms(): set<string> {
    {"token_bucket", "fixed_window", "sliding_window"}
  }

  ghost predicate GoodConfig(c: Config) {
    c.algorithm in Algorithms() && c.limit > 0 && c.window > 0
  }

  /** The window in whole seconds, rounded down. */
  function WindowSeconds(c: Config): int {
    c.window / SECOND
  }

  function Script(c: Config, e: Option<Entry>, n: int, clock: int): (Option<Entry>, Reply) {
    if c.algorithm == "token_bucket" then TokenScript(c.limit, WindowSeconds(c), clock / SECOND, n, e, clock)
    else if c.algorithm == "fixed_window" then FixedScript(c.limit, WindowSeconds(c), n, e, clock)
    else SlidingScript(c.limit, WindowSeconds(c), clock / MILLISECOND, n, e, clock)
  }

  function AllowEntry(c: Config, e: Option<Entry>, n: int, clock: int): (Option<Entry>, Outcome<bool>) {
    if n <= 0 then (e, Err("n must be positive"))
    else if c.algorithm !in Algorithms() then (e, Err("unknown algorithm: " + c.algorithm))
    else
      var (e', r) := Script(c, e, n, clock);
      (e', if r.WrongType? then Err("redis rate limit check failed") else Ok(r.allowed))
  }

  function RemainingEntry(c: Config, e: Option<Entry>, clock: int): (Option<Entry>, Outcome<int>) {
    var live := Live(e, clock);
    if c.algorithm == "token_bucket" then
      (live, if live.None? then Ok(c.limit)
             else if live.value.value.Hash? then Ok(live.value.value.tokens)
             else Err("failed to get remaining tokens"))
    else if c.algorithm == "fixed_window" then
      (live, if live.None? then Ok(c.limit)
             else if live.value.value.Counter? then Ok(AtLeastZero(c.limit - live.value.value.count))
             else Err("failed to get current count"))
    else if c.algorithm == "sliding_window" then
      if live.Some? && !live.value.value.Scored? then (live, Err("failed to remove old entries"))
      else
        var pruned := Pruned(live, clock / MILLISECOND - WindowSeconds(c) * 1000);
        (pruned, Ok(AtLeastZero(c.limit - |MembersOf(pruned)|)))
    else (e, Err("unknown algorithm: " + c.algorithm))
  }

  function AtLeastZero(x: int): int {
    if x < 0 then 0 else x
  }

  // ----- Runs -----

  function Step(c: Config, db: Db, e: Event): (Db, bool) {
    match e
    case Call(key, n, now) =>
      var (entry, r) := AllowEntry(c, Lookup(db, key), n, now);
      (Stored(db, key, entry), r == Ok(true))
    case Reset(key, _) => (Stored(db, key, None), true)
  }

  /** The calls of any number of limiters with one configuration on one server. */
  function Run(c: Config, db: Db, events: seq<Event>): (r: seq<bool>)
    ensures |r| == |events|
    decreases |events|
  {
    if events == [] then []
    else
      var (db', ok) := Step(c, db, events[0]);
      [ok] + Run(c, db', events[1..])
  }

  function Scripted(c: Config): Allow<Option<Entry>> {
    (e, n, clock) => var (e', r) := AllowEntry(c, e, n, clock); (e', r == Ok(true))
  }

  lemma {:induction false} RunByEntry(c: Config, db: Db, es: map<string, Option<Entry>>, events: seq<Event>)
    requires forall key :: StateOf(es, key, None) == Lookup(db, key)
    ensures Run(c, db, events) == AllKeysRun(Scripted(c), None, es, events)
    decreases |events|
  {
    if events != [] {
      var e := events[0];
      var (s', ok) := KeyStep(Scripted(c), None, StateOf(es, e.key, None), e);
      assert Step(c, db, e) == (Stored(db, e.key, s'), ok);
      var db', es' := Stored(db, e.key, s'), es[e.key := s'];
      forall key ensures StateOf(es', key, None) == Lookup(db', key) {
        assert StateOf(es, key, None) == Lookup(db, key);
      }
      hide AllowEntry;
      RunByEntry(c, db', es', events[1..]);
    }
  }

  /** Keys are independent: a key is answered by its own entry. */
  lemma RunByKey(c: Config, events: seq<Event>, key: string)
    ensures AnswersOf(events, Run(c, map[], events), key) == KeyRun(Scripted(c), None, None, EventsOf(events, key))
  {
    RunByEntry(c, map[], map[], events);
    KeysIndependent(Scripted(c), None, map[], events, key);
  }

  // ----- What a script replies -----

  /** A key that was never used, or whose entry is over, reports the limit under every algorithm. */
  lemma UnusedReportsLimit(c: Config, e: Option<Entry>, now: int)
    requires GoodConfig(c) && Live(e, now) == None
    ensures RemainingEntry(c, e, now).1 == Ok(c.limit)
  {
    assert MembersOf(None) == {};
  }

  /** A counter reports what is left of the limit, and nothing when more than the limit is stored. */
  lemma CounterReports(c: Config, e: Option<Entry>, k: int, now: int)
    requires c.algorithm == "fixed_window" && Live(e, now).Some? && Live(e, now).value.value == Counter(k)
    ensures RemainingEntry(c, e, now).1 == Ok(if k <= c.limit then c.limit - k else 0)
  {
  }

  /** The value has the type that the algorithm stores. */
  predicate TypeFits(algorithm: string, v: Value) {
    match v
    case Hash(_, _) => algorithm == "token_bucket"
    case Counter(_) => algorithm == "fixed_window"
    case Scored(_) => algorithm == "sliding_window"
  }

  /** A call is answered exactly when it asks for something, the algorithm is one of the three, and what is stored under
      the key has that algorithm's type; otherwise it is an error and changes nothing. */
  lemma AnsweredIff(c: Config, e: Option<Entry>, n: int, now: int)
    ensures var (e', r) := AllowEntry(c, e, n, now);
            && (r.Ok? <==> && n > 0 && c.algorithm in {"token_bucket", "fixed_window", "sliding_window"}
                           && (Live(e, now).Some? ==> TypeFits(c.algorithm, Live(e, now).value.value)))
            && (!r.Ok? ==> r.Err? && Live(e', now) == Live(e, now))
  {
    hide Pruned, Batch, Newer, Refilled, Expire;
  }

  /** What a script replies with a grant is what Remaining reports right after it. */
  lemma ReplyIsRemaining(c: Config, e: Option<Entry>, n: int, clock: int)
    requires GoodConfig(c) && c.window >= SECOND && n >= 1
    requires Script(c, e, n, clock).1.Reply? && Script(c, e, n, clock).1.allowed
    ensures var (e', reply) := Script(c, e, n, clock);
            RemainingEntry(c, e', clock).1 == Ok(AtLeastZero(reply.remaining))
    ensures c.algorithm != "sliding_window" ==> 0 <= Script(c, e, n, clock).1.remaining
  {
    assert WindowSeconds(c) >= 1;
    if c.algorithm == "token_bucket" {
      hide FixedScript, SlidingScript;
      TokenReply(c.limit, WindowSeconds(c), clock / SECOND, n, e, clock);
      hide TokenScript, Live, WindowSeconds;
    } else if c.algorithm == "fixed_window" {
      hide TokenScript, SlidingScript;
      FixedReply(c.limit, WindowSeconds(c), n, e, clock);
      hide FixedScript, Live, WindowSeconds;
    } else {
      hide TokenScript, FixedScript;
      GrantStays(c, e, n, clock);
      hide SlidingScript, Live, Pruned, WindowSeconds;
    }
  }

  lemma TokenReply(limit: int, w: int, now: int, n: int, e: Option<Entry>, clock: int)
    requires w >= 1
    ensures var (e', r) := TokenScript(limit, w, now, n, e, clock);
            r.Reply? && r.allowed ==>
              e'.Some? && Live(e', clock) == e' && e'.value.value.Hash? && e'.value.value.tokens == r.remaining >= 0
  {
    hide Refilled;
  }

  lemma FixedReply(limit: int, w: int, n: int, e: Option<Entry>, clock: int)
    requires w >= 1
    ensures var (e', r) := FixedScript(limit, w, n, e, clock);
            r.Reply? && r.allowed ==>
              e'.Some? && Live(e', clock) == e' && e'.value.value.Counter?
                && limit - e'.value.value.count == r.remaining >= 0
  {
  }

  /** The members a grant leaves are all inside the window. */
  lemma GrantStays(c: Config, e: Option<Entry>, n: int, clock: int)
    requires WindowSeconds(c) >= 1 && n >= 1
    requires var r := SlidingScript(c.limit, WindowSeconds(c), clock / MILLISECOND, n, e, clock).1;
             r.Reply? && r.allowed
    ensures var cutoff := clock / MILLISECOND - WindowSeconds(c) * 1000;
            var (e', reply) := SlidingScript(c.limit, WindowSeconds(c), clock / MILLISECOND, n, e, clock);
            && e'.Some? && Live(e', clock) == e' && e'.value.value.Scored? && Pruned(e', cutoff) == e'
            && reply.remaining == c.limit - |MembersOf(e')|
  {
    var now := clock / MILLISECOND;
    var cutoff := now - WindowSeconds(c) * 1000;
    var pruned := Pruned(Live(e, clock), cutoff);
    var members := MembersOf(pruned) + Batch(now, n);
    assert Member(now, 1) in Batch(now, n);
    assert Newer(members, cutoff) == members;
  }

  // ----- Windows shorter than a second -----

  /** A window shorter than a second is zero seconds for every script, and its keys are deleted as they are written: no
      call for up to the limit is ever refused. */
  lemma {:induction false} SubSecondWindowNeverRefuses(c: Config, events: seq<Event>)
    requires GoodConfig(c) && c.window < SECOND
    requires forall e :: e in events ==> e.Call? && 1 <= e.n <= c.limit
    ensures forall i :: 0 <= i < |events| ==> Run(c, map[], events)[i]
    decreases |events|
  {
    if events != [] {
      var e := events[0];
      assert e in events;
      assert WindowSeconds(c) == 0;
      assert AllowEntry(c, None, e.n, e.now) == (None, Ok(true));
      assert Step(c, map[], e) == (map[], true);
      SubSecondWindowNeverRefuses(c, events[1..]);
    }
  }

  // ----- The classes -----

  class LimiterRedis {
    const client: Server
    const algorithm: string
    const limit: int
    const window: int

    function Cfg(): Config {
      Config(algorithm, limit, window)
    }

    constructor (client: Server, algorithm: string, limit: int, window: int)
      ensures this.client == client && Cfg() == Config(algorithm, limit, window)
    {
      this.client, this.algorithm, this.limit, this.window := client, algorithm, limit, window;
    }

    /** A limiter with a valid configuration, or an error. An empty algorithm is the token bucket. */
    static method New(client: Server?, algorithm: string, limit: int, window: int) returns (r: Outcome<LimiterRedis>)
      ensures r.Ok? <==> client != null && limit > 0 && window > 0 && algorithm in Algorithms() + {""}
      ensures r.Ok? ==> r.value.client == client && GoodConfig(r.value.Cfg())
      ensures r.Ok? ==> r.value.Cfg() == Config(if algorithm == "" then "token_bucket" else algorithm, limit, window)
      ensures !r.Panic?
    {
      if client == null {
        return Err("redis client cannot be nil");
      }
      if limit <= 0 {
        return Err("limit must be positive");
      }
      if window <= 0 {
        return Err("window duration must be positive");
      }
      var name := if algorithm == "" then "token_bucket" else algorithm;
      if name !in Algorithms() {
        return Err("unsupported algorithm: " + name);
      }
      var limiter := new LimiterRedis(client, name, limit, window);
      return Ok(limiter);
    }

    static method TokenBucketScript(client: Server, key: string, limit: int, now: int, window: int, requested: int,
                                    clock: int)
      returns (reply: Reply)
      modifies client
      ensures (Lookup(client.db, key), reply) ==
              TokenScript(limit, window, now, requested, Lookup(old(client.db), key), clock)
      ensures client.db == Stored(old(client.db), key, Lookup(client.db, key))
    {
      client.Touch(key, clock);
      if key in client.db && !client.db[key].value.Hash? {
        return WrongType;
      }
      var tokens, lastUpdate := limit, now;
      if key in client.db {
        tokens, lastUpdate := client.db[key].value.tokens, client.db[key].value.lastUpdate;
      }
      tokens := Refilled(limit, window, tokens, now - lastUpdate);
      if tokens >= requested {
        tokens := tokens - requested;
        client.db := client.db[key :=
                               Entry(Hash(tokens, now), if key in client.db then client.db[key].expireAt else None)];
        client.ExpireKey(key, window, clock);
        return Reply(true, tokens);
      } else {
        return Reply(false, tokens);
      }
    }

    static method FixedWindowScript(client: Server, key: string, limit: int, window: int, requested: int, clock: int)
      returns (reply: Reply)
      modifies client
      ensures (Lookup(client.db, key), reply) ==
              FixedScript(limit, window, requested, Lookup(old(client.db), key), clock)
      ensures client.db == Stored(old(client.db), key, Lookup(client.db, key))
    {
      client.Touch(key, clock);
      if key in client.db && !client.db[key].value.Counter? {
        return WrongType;
      }
      var current := if key in client.db then client.db[key].value.count else 0;
      if current + requested <= limit {
        var newCount := current + requested;
        client.db := client.db[key :=
                               Entry(Counter(newCount), if key in client.db then client.db[key].expireAt else None)];
        if newCount == requested {
          client.ExpireKey(key, window, clock);
        }
        return Reply(true, limit - newCount);
      } else {
        return Reply(false, limit - current);
      }
    }

    static method GrantBatch(client: Server, key: string, window: int, now: int, requested: int, clock: int)
      requires requested >= 1 && (key in client.db ==> client.db[key].value.Scored?)
      modifies client
      ensures Lookup(client.db, key) ==
              Expire(Scored(MembersOf(Lookup(old(client.db), key)) + Batch(now, requested)), window * 2, clock)
      ensures client.db == Stored(old(client.db), key, Lookup(client.db, key))
    {
      client.AddBatch(key, now, requested);
      client.ExpireKey(key, window * 2, clock);
    }

    static method SlidingWindowScript(client: Server, key: string, limit: int, window: int, now: int, requested: int,
                                      clock: int)
      returns (reply: Reply)
      requires requested >= 1
      modifies client
      ensures (Lookup(client.db, key), reply) ==
              SlidingScript(limit, window, now, requested, Lookup(old(client.db), key), clock)
      ensures client.db == Stored(old(client.db), key, Lookup(client.db, key))
    {
      hide Batch, Newer, Pruned, Live, Expire, MembersOf;
      client.Touch(key, clock);
      if key in client.db && !client.db[key].value.Scored? {
        return WrongType;
      }
      client.RemoveRange(key, now - window * 1000);
      var current := |MembersOf(Lookup(client.db, key))|;
      if current + requested <= limit {
        GrantBatch(client, key, window, now, requested, clock);
        var newCount := |MembersOf(Lookup(client.db, key))|;
        return Reply(true, limit - newCount);
      } else {
        return Reply(false, limit - current);
      }
    }

    method AllowN(key: string, n: int, now: int) returns (r: Outcome<bool>)
      modifies client
      ensures (Lookup(client.db, key), r) == AllowEntry(Cfg(), Lookup(old(client.db), key), n, now)
      ensures client.db == Stored(old(client.db), key, Lookup(client.db, key))
    {
      assert client.db == Stored(client.db, key, Lookup(client.db, key));
      if n <= 0 {
        return Err("n must be positive");
      }
      var reply;
      if algorithm == "token_bucket" {
        reply := LimiterRedis.TokenBucketScript(client, key, limit, now / SECOND, window / SECOND, n, now);
      } else if algorithm == "fixed_window" {
        reply := LimiterRedis.FixedWindowScript(client, key, limit, window / SECOND, n, now);
      } else if algorithm == "sliding_window" {
        reply := LimiterRedis.SlidingWindowScript(client, key, limit, window / SECOND, now / MILLISECOND, n, now);
      } else {
        return Err("unknown algorithm: " + algorithm);
      }
      if reply.WrongType? {
        return Err("redis rate limit check failed");
      }
      return Ok(reply.allowed);
    }

    method Remaining(key: string, now: int) returns (r: Outcome<int>)
      modifies client
      ensures (Lookup(client.db, key), r) == RemainingEntry(Cfg(), Lookup(old(client.db), key), now)
      ensures client.db == Stored(old(client.db), key, Lookup(client.db, key))
    {
      if algorithm !in Algorithms() {
        assert client.db == Stored(client.db, key, Lookup(client.db, key));
        return Err("unknown algorithm: " + algorithm);
      }
      client.Touch(key, now);
      var stored := Lookup(client.db, key);
      if algorithm == "token_bucket" {
        if stored.None? {
          return Ok(limit);
        }
        return if stored.value.value.Hash? then Ok(stored.value.value.tokens)
          else Err("failed to get remaining tokens");
      } else if algorithm == "fixed_window" {
        if stored.None? {
          return Ok(limit);
        }
        if !stored.value.value.Counter? {
          return Err("failed to get current count");
        }
        var remaining := limit - stored.value.value.count;
        return Ok(if remaining < 0 then 0 else remaining);
      } else {
        if stored.Some? && !stored.value.value.Scored? {
          return Err("failed to remove old entries");
        }
        client.RemoveRange(key, now / MILLISECOND - window / SECOND * 1000);
        var remaining := limit - |MembersOf(Lookup(client.db, key))|;
        return Ok(if remaining < 0 then 0 else remaining);
      }
    }

    method Reset(key: string)
      modifies client
      ensures client.db == Stored(old(client.db), key, None)
    {
      client.db := client.db - {key};
    }
  }
}
