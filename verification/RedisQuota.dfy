/** The Redis quota manager: any number of instances that first read a limit and then run an atomic script. */
module RedisQuota {
  import opened Arithmetic
  import opened QuotaKeys
  import opened RedisServer
  import opened Runs
  import opened Text

  datatype Config = Config(prefix: string, limits: map<string, int>, resetTTL: int)

  function Seconds(c: Config): int {
    if c.resetTTL >= 0 then c.resetTTL / SECOND else -(-c.resetTTL / SECOND)
  }

  // ----- The scripts -----

  datatype Reply = Reply(allowed: bool, remaining: int) | WrongType

  function CheckScript(limit: int, amount: int, e: Option<Entry>, now: int): Reply {
    var live := Live(e, now);
    if live.Some? && !live.value.value.Counter? then WrongType
    else
      var current := if live.Some? then live.value.value.count else 0;
      Reply(current + amount <= limit, limit - current)
  }

  function ConsumeScript(limit: int, amount: int, ttl: int, e: Option<Entry>, now: int): (Option<Entry>, Reply) {
    var live := Live(e, now);
    if live.Some? && !live.value.value.Counter? then (live, WrongType)
    else
      var current := if live.Some? then live.value.value.count else 0;
      if current + amount > limit then (live, Reply(false, limit - current))
      else
        var usage := current + amount;
        (if usage == amount then Expire(Counter(usage), ttl, now)
         else Some(Entry(Counter(usage), if live.Some? then live.value.expireAt else None)),
         Reply(true, limit - usage))
  }

  /** The tenant's own limit, the configured one, or an error. */
  function ResolveLimit(c: Config, db: Db, tenant: string, quotaType: string, now: int): Outcome<int> {
    var own := Live(Lookup(db, LimitKey(c.prefix, tenant, quotaType)), now);
    if own.Some? && own.value.value.Counter? then Ok(own.value.value.count)
    else if quotaType in c.limits then Ok(c.limits[quotaType])
    else Err("unknown quota type: " + quotaType)
  }

  // ----- Instances interleaved -----

  /** A call that has read its limit and not yet run its script. */
  datatype Request = Request(tenant: string, quotaType: string, amount: int, limit: int)

  /** What happened to one tenant's quota. */
  datatype Item = Granted(time: int, amount: int, limit: int) | Refused | Cleared

  datatype World = World(db: Db, pending: map<nat, Request>, now: int, logs: map<(string, string), seq<Item>>)

  datatype Step =
    | Begin(id: nat, tenant: string, quotaType: string, amount: int)
    | Finish(id: nat)
    | SetLimit(tenant: string, quotaType: string, limit: int)
    | Reset(tenant: string, quotaType: string)
    | Tick(d: nat)

  function LogOf(w: World, tenant: string, quotaType: string): seq<Item> {
    if (tenant, quotaType) in w.logs then w.logs[(tenant, quotaType)] else []
  }

  function Logged(w: World, tenant: string, quotaType: string, item: Item): map<(string, string), seq<Item>> {
    w.logs[(tenant, quotaType) := LogOf(w, tenant, quotaType) + [item]]
  }

  /** The first step of ConsumeQuota: reject a negative amount or an unknown type, read the limit. */
  function BeginStep(c: Config, w: World, id: nat, tenant: string, quotaType: string, amount: int): World {
    var limit := ResolveLimit(c, w.db, tenant, quotaType, w.now);
    if amount < 0 || !limit.Ok? then w
    else w.(pending := w.pending[id := Request(tenant, quotaType, amount, limit.value)])
  }

  /** The second step: the script, with the limit that was read. */
  function FinishStep(c: Config, w: World, id: nat): World {
    if id !in w.pending then w
    else
      var r := w.pending[id];
      var key := UsageKey(c.prefix, r.tenant, r.quotaType);
      var (e, reply) := ConsumeScript(r.limit, r.amount, Seconds(c), Lookup(w.db, key), w.now);
      var item := if reply.Reply? && reply.allowed then Granted(w.now, r.amount, r.limit) else Refused;
      World(Stored(w.db, key, e), w.pending - {id}, w.now, Logged(w, r.tenant, r.quotaType, item))
  }

  function Next(c: Config, w: World, s: Step): World {
    match s
    case Begin(id, tenant, quotaType, amount) => BeginStep(c, w, id, tenant, quotaType, amount)
    case Finish(id) => FinishStep(c, w, id)
    case SetLimit(tenant, quotaType, limit) =>
      if limit < 0 then w
      else w.(db := Stored(w.db, LimitKey(c.prefix, tenant, quotaType), Some(Entry(Counter(limit), None))))
    case Reset(tenant, quotaType) =>
      w.(db := Stored(w.db, UsageKey(c.prefix, tenant, quotaType), None), logs := Logged(w, tenant, quotaType, Cleared))
    case Tick(d) => w.(now := w.now + d)
  }

  function Exec(c: Config, w: World, steps: seq<Step>): World
    decreases |steps|
  {
    if steps == [] then w else Exec(c, Next(c, w, steps[0]), steps[1..])
  }

  // ----- What the log says -----

  /** A period of usage: when its time to live was set, and the units granted since. */
  datatype Period = Period(start: int, sum: int)

  predicate Over(c: Config, p: Period, now: int) {
    now / MILLISECOND > p.start / MILLISECOND + 1000 * Seconds(c)
  }

  /** The last period of a log. It starts with a grant, and again with every grant to an empty usage, and ends with a
      reset. */
  function Current(c: Config, log: seq<Item>): Option<Period> {
    if log == [] then None
    else
      var p := Current(c, log[..|log| - 1]);
      match log[|log| - 1]
      case Refused => p
      case Cleared => None
      case Granted(time, amount, _) =>
        if p.None? || Over(c, p.value, time) || p.value.sum == 0 then Some(Period(time, amount))
        else Some(Period(p.value.start, p.value.sum + amount))
  }

  /** The units granted by a stretch of a log. */
  function Sum(log: seq<Item>): int {
    if log == [] then 0
    else Sum(log[..|log| - 1]) + (if log[|log| - 1].Granted? then log[|log| - 1].amount else 0)
  }

  lemma {:induction false} SumConcat(a: seq<Item>, b: seq<Item>)
    ensures Sum(a + b) == Sum(a) + Sum(b)
  {
    if b == [] {
      assert a + b == a;
    } else {
      assert (a + b)[..|a + b| - 1] == a + b[..|b| - 1];
      SumConcat(a, b[..|b| - 1]);
    }
  }

  ghost predicate InPeriod(c: Config, p: Period, item: Item) {
    match item
    case Cleared => false
    case Refused => true
    case Granted(time, _, _) => time == p.start || !Over(c, p, time)
  }

  /** The current period is the tail of the log from its first grant on: no reset since, no grant past its end, and its
      sum is all that was granted. */
  lemma {:induction false} PeriodIsSuffix(c: Config, log: seq<Item>) returns (from: nat)
    requires Current(c, log).Some?
    ensures from < |log| && log[from].Granted? && log[from].time == Current(c, log).value.start
    ensures Sum(log[from..]) == Current(c, log).value.sum
    ensures forall i :: from <= i < |log| ==> InPeriod(c, Current(c, log).value, log[i])
  {
    var init, last := log[..|log| - 1], log[|log| - 1];
    var p := Current(c, init);
    if last.Granted? && (p.None? || Over(c, p.value, last.time) || p.value.sum == 0) {
      from := |log| - 1;
      assert log[from..] == [] + [last];
      SumConcat([], [last]);
      assert [last][..0] == [];
    } else {
      from := PeriodIsSuffix(c, init);
      assert log[from..] == init[from..] + [last];
      SumConcat(init[from..], [last]);
      assert [last][..0] == [];
      forall i | from <= i < |log| ensures InPeriod(c, Current(c, log).value, log[i]) {
        if i < |init| {
          assert log[i] == init[i];
        }
      }
    }
  }

  /** Every grant left the usage within the limit its instance had read. */
  ghost predicate WithinLimits(c: Config, log: seq<Item>) {
    forall i :: 0 <= i < |log| && log[i].Granted? ==>
                  Current(c, log[..i + 1]).Some? && Current(c, log[..i + 1]).value.sum <= log[i].limit
  }

  lemma WithinLimitsAppend(c: Config, log: seq<Item>, item: Item)
    requires WithinLimits(c, log)
    requires item.Granted? ==> Current(c, log + [item]).Some? && Current(c, log + [item]).value.sum <= item.limit
    ensures WithinLimits(c, log + [item])
  {
    hide Current;
    var log' := log + [item];
    forall i | 0 <= i < |log'| && log'[i].Granted?
      ensures Current(c, log'[..i + 1]).Some? && Current(c, log'[..i + 1]).value.sum <= log'[i].limit
    {
      if i < |log| {
        assert log'[..i + 1] == log[..i + 1];
      } else {
        assert log'[..i + 1] == log';
      }
    }
  }

  // ----- The invariant -----

  /** The stored usage is the current period's, and expires with it; with nothing stored, no period is open. */
  ghost predicate SameUsage(c: Config, e: Option<Entry>, p: Option<Period>, now: int) {
    && (p.Some? ==> p.value.sum >= 0 && p.value.start <= now)
    && (if e.Some? then
          && p.Some? && e.value.value == Counter(p.value.sum)
          && e.value.expireAt == Some(p.value.start / MILLISECOND + 1000 * Seconds(c))
        else p.None? || Over(c, p.value, now))
  }

  ghost predicate GoodConfig(c: Config) {
    c.resetTTL >= SECOND
  }

  /** Names whose usage keys are nobody's limit keys: a valid tenant, and no colon in a quota type of the tenant
      "limit". */
  ghost predicate Named(tenant: string, quotaType: string) {
    ':' !in tenant && (tenant == "limit" ==> ':' !in quotaType)
  }

  ghost predicate NamedStep(s: Step) {
    (s.Begin? || s.SetLimit? || s.Reset?) ==> Named(s.tenant, s.quotaType)
  }

  /** One tenant's quota is accounted for. */
  ghost predicate Accounted(c: Config, w: World, tenant: string, quotaType: string) {
    var log := LogOf(w, tenant, quotaType);
    SameUsage(c, Lookup(w.db, UsageKey(c.prefix, tenant, quotaType)), Current(c, log), w.now) && WithinLimits(c, log)
  }

  ghost predicate Inv(c: Config, w: World) {
    && (forall id :: id in w.pending ==>
          w.pending[id].amount >= 0 && Named(w.pending[id].tenant, w.pending[id].quotaType))
    && (forall tenant, quotaType :: Named(tenant, quotaType) ==> Accounted(c, w, tenant, quotaType))
  }

  lemma KeysApart(c: Config, tenant: string, quotaType: string, tenant': string, quotaType': string)
    requires Named(tenant, quotaType) && Named(tenant', quotaType')
    ensures UsageKey(c.prefix, tenant, quotaType) == UsageKey(c.prefix, tenant', quotaType')
            <==> tenant == tenant' && quotaType == quotaType'
    ensures UsageKey(c.prefix, tenant, quotaType) != LimitKey(c.prefix, tenant', quotaType')
  {
    UsageKeysDistinct(c.prefix, tenant, quotaType, tenant', quotaType');
    UsageIsLimitIff(c.prefix, tenant, quotaType, tenant', quotaType');
    if quotaType == tenant' + ":" + quotaType' {
      assert quotaType[|tenant'|] == ':';
    }
  }

  /** The script advances the stored usage as the log advances the period. */
  lemma ConsumeSame(c: Config, e: Option<Entry>, log: seq<Item>, limit: int, amount: int, now: int)
    requires GoodConfig(c) && SameUsage(c, e, Current(c, log), now) && amount >= 0
    ensures var (e', reply) := ConsumeScript(limit, amount, Seconds(c), e, now);
            && reply.Reply?
            && var item := if reply.allowed then Granted(now, amount, limit) else Refused;
               var p := Current(c, log + [item]);
            && SameUsage(c, e', p, now)
            && (reply.allowed ==> p.Some? && p.value.sum <= limit && reply.remaining == limit - p.value.sum)
  {
    var (e', reply) := ConsumeScript(limit, amount, Seconds(c), e, now);
    var item := if reply.allowed then Granted(now, amount, limit) else Refused;
    assert (log + [item])[..|log|] == log;
  }

  lemma FinishKeeps(c: Config, w: World, id: nat, tenant: string, quotaType: string)
    requires GoodConfig(c) && Inv(c, w) && id in w.pending && Named(tenant, quotaType)
    ensures Accounted(c, FinishStep(c, w, id), tenant, quotaType)
  {
    var r := w.pending[id];
    var key := UsageKey(c.prefix, r.tenant, r.quotaType);
    KeysApart(c, r.tenant, r.quotaType, tenant, quotaType);
    assert Accounted(c, w, tenant, quotaType);
    if (tenant, quotaType) == (r.tenant, r.quotaType) {
      var log := LogOf(w, tenant, quotaType);
      ConsumeSame(c, Lookup(w.db, key), log, r.limit, r.amount, w.now);
      var (e, reply) := ConsumeScript(r.limit, r.amount, Seconds(c), Lookup(w.db, key), w.now);
      var item := if reply.allowed then Granted(w.now, r.amount, r.limit) else Refused;
      hide ConsumeScript, Current, SameUsage, WithinLimits;
      WithinLimitsAppend(c, log, item);
    }
  }

  lemma ResetKeeps(c: Config, w: World, s: Step, tenant: string, quotaType: string)
    requires GoodConfig(c) && Inv(c, w) && s.Reset? && NamedStep(s) && Named(tenant, quotaType)
    ensures Accounted(c, Next(c, w, s), tenant, quotaType)
  {
    KeysApart(c, s.tenant, s.quotaType, tenant, quotaType);
    assert Accounted(c, w, tenant, quotaType);
    var log := LogOf(w, tenant, quotaType);
    WithinLimitsAppend(c, log, Cleared);
    assert (log + [Cleared])[..|log|] == log;
  }

  lemma OthersKeep(c: Config, w: World, s: Step, tenant: string, quotaType: string)
    requires GoodConfig(c) && Inv(c, w) && (s.Begin? || s.SetLimit? || s.Tick?) && NamedStep(s)
             && Named(tenant, quotaType)
    ensures Accounted(c, Next(c, w, s), tenant, quotaType)
  {
    assert Accounted(c, w, tenant, quotaType);
    if s.SetLimit? {
      KeysApart(c, tenant, quotaType, s.tenant, s.quotaType);
    }
    hide WithinLimits, Current;
  }

  /** Every step of every instance keeps the invariant. */
  lemma NextKeeps(c: Config, w: World, s: Step)
    requires GoodConfig(c) && Inv(c, w) && NamedStep(s)
    ensures Inv(c, Next(c, w, s))
  {
    hide Accounted, Named, SameUsage, WithinLimits;
    forall tenant, quotaType | Named(tenant, quotaType) ensures Accounted(c, Next(c, w, s), tenant, quotaType) {
      if s.Finish? {
        if s.id in w.pending {
          FinishKeeps(c, w, s.id, tenant, quotaType);
        }
      } else if s.Reset? {
        ResetKeeps(c, w, s, tenant, quotaType);
      } else {
        OthersKeep(c, w, s, tenant, quotaType);
      }
    }
  }

  function Start(now: int): World {
    World(map[], map[], now, map[])
  }

  lemma {:induction false} ExecKeeps(c: Config, w: World, steps: seq<Step>)
    requires GoodConfig(c) && Inv(c, w) && forall s :: s in steps ==> NamedStep(s)
    ensures Inv(c, Exec(c, w, steps))
    decreases |steps|
  {
    if steps != [] {
      assert steps[0] in steps;
      NextKeeps(c, w, steps[0]);
      hide Inv, Next, NamedStep;
      ExecKeeps(c, Next(c, w, steps[0]), steps[1..]);
    }
  }

  /** Conservation under every schedule: whatever the instances interleave, a live usage key holds exactly the units
      granted in the current period, and always expires; with none, the period is over or was reset; and every grant
      left the usage within the limit its instance had read. */
  lemma EveryScheduleAccounts(c: Config, now: int, steps: seq<Step>, tenant: string, quotaType: string)
    requires GoodConfig(c) && (forall s :: s in steps ==> NamedStep(s)) && Named(tenant, quotaType)
    ensures var w := Exec(c, Start(now), steps);
            var live := Live(Lookup(w.db, UsageKey(c.prefix, tenant, quotaType)), w.now);
            var log := LogOf(w, tenant, quotaType);
            var p := Current(c, log);
            && (live.Some? <==> p.Some? && !Over(c, p.value, w.now))
            && (live.Some? ==> live.value.value == Counter(p.value.sum) && live.value.expireAt.Some?)
            && WithinLimits(c, log)
  {
    var w := Start(now);
    forall t, q | Named(t, q) ensures Accounted(c, w, t, q) {
    }
    ExecKeeps(c, w, steps);
    assert Accounted(c, Exec(c, w, steps), tenant, quotaType);
  }

  // ----- A fixed limit -----

  function Requests(log: seq<Item>): nat {
    if log == [] then 0 else Requests(log[..|log| - 1]) + (if log[|log| - 1].Cleared? then 0 else 1)
  }

  function Successes(log: seq<Item>): nat {
    if log == [] then 0 else Successes(log[..|log| - 1]) + (if log[|log| - 1].Granted? then 1 else 0)
  }

  function Elapsed(steps: seq<Step>): nat {
    if steps == [] then 0 else (if steps[0].Tick? then steps[0].d else 0) + Elapsed(steps[1..])
  }

  /** Calls for `amount` units each, while the limit is not set and the usage not reset. */
  ghost predicate Steady(steps: seq<Step>, tenant: string, quotaType: string, amount: int) {
    forall s :: s in steps ==>
                  && NamedStep(s)
                  && ((s.SetLimit? || s.Reset?) ==> (s.tenant, s.quotaType) != (tenant, quotaType))
                  && (s.Begin? && (s.tenant, s.quotaType) == (tenant, quotaType) ==> s.amount == amount)
  }

  /** The tenant's own limit, if it has one, never expires. */
  ghost predicate LimitStays(c: Config, db: Db, tenant: string, quotaType: string) {
    var own := Lookup(db, LimitKey(c.prefix, tenant, quotaType));
    own.Some? ==> own.value.expireAt.None?
  }

  // ----- Which limit a request carries -----

  /** The limit set last for the tenant and quota type; negative ones are not accepted. */
  function LastSet(steps: seq<Step>, tenant: string, quotaType: string): Option<int> {
    if steps == [] then None
    else
      var s := steps[|steps| - 1];
      if s.SetLimit? && s.tenant == tenant && s.quotaType == quotaType && s.limit >= 0 then Some(s.limit)
      else LastSet(steps[..|steps| - 1], tenant, quotaType)
  }

  /** That limit, or else the configured one. */
  function InForce(c: Config, steps: seq<Step>, tenant: string, quotaType: string): Option<int> {
    match LastSet(steps, tenant, quotaType)
    case Some(limit) => Some(limit)
    case None => if quotaType in c.limits then Some(c.limits[quotaType]) else None
  }

  lemma {:induction false} ExecLast(c: Config, w: World, steps: seq<Step>, s: Step)
    ensures Exec(c, w, steps + [s]) == Next(c, Exec(c, w, steps), s)
    decreases |steps|
  {
    hide Next;
    if steps == [] {
      assert [] + [s] == [s] && [s][1..] == [];
      assert Exec(c, w, [s]) == Exec(c, Next(c, w, s), []);
    } else {
      assert (steps + [s])[1..] == steps[1..] + [s];
      ExecLast(c, Next(c, w, steps[0]), steps[1..], s);
    }
  }

  /** The limit key holds what was set last, for good, and every request under way is for proper names. */
  ghost predicate LimitStored(c: Config, w: World, set_: Option<int>, tenant: string, quotaType: string) {
    && (forall id :: id in w.pending ==> Named(w.pending[id].tenant, w.pending[id].quotaType))
    && Lookup(w.db, LimitKey(c.prefix, tenant, quotaType)) ==
       match set_ case None => None case Some(limit) => Some(Entry(Counter(limit), None))
  }

  lemma StepStoresLimit(c: Config, w: World, set_: Option<int>, s: Step, tenant: string, quotaType: string)
    requires LimitStored(c, w, set_, tenant, quotaType) && NamedStep(s) && Named(tenant, quotaType)
    ensures LimitStored(c, Next(c, w, s), if s.SetLimit? && s.tenant == tenant && s.quotaType == quotaType
                        && s.limit >= 0
                          then Some(s.limit) else set_, tenant, quotaType)
  {
    hide Named, ConsumeScript, ResolveLimit;
    match s {
      case Begin(_, _, _, _) =>
      case Finish(id) =>
        if id in w.pending {
          KeysApart(c, w.pending[id].tenant, w.pending[id].quotaType, tenant, quotaType);
        }
      case SetLimit(t, q, _) =>
        assert ':' !in t && ':' !in tenant by { NamedApart(t, q); NamedApart(tenant, quotaType); }
        LimitKeysDistinct(c.prefix, t, q, tenant, quotaType);
      case Reset(t, q) => KeysApart(c, t, q, tenant, quotaType);
      case Tick(_) =>
    }
  }

  lemma NamedApart(tenant: string, quotaType: string)
    requires Named(tenant, quotaType)
    ensures ':' !in tenant
  {
  }

  lemma {:induction false} ExecStoresLimit(c: Config, now: int, steps: seq<Step>, tenant: string, quotaType: string)
    requires (forall s :: s in steps ==> NamedStep(s)) && Named(tenant, quotaType)
    ensures LimitStored(c, Exec(c, Start(now), steps), LastSet(steps, tenant, quotaType), tenant, quotaType)
    decreases |steps|
  {
    if steps != [] {
      var init, s := steps[..|steps| - 1], steps[|steps| - 1];
      ExecStoresLimit(c, now, init, tenant, quotaType);
      ExecLast(c, Start(now), init, s);
      assert steps == init + [s];
      StepStoresLimit(c, Exec(c, Start(now), init), LastSet(init, tenant, quotaType), s, tenant, quotaType);
    }
  }

  lemma StoredIsResolved(c: Config, w: World, steps: seq<Step>, tenant: string, quotaType: string)
    requires LimitStored(c, w, LastSet(steps, tenant, quotaType), tenant, quotaType)
    ensures LimitStays(c, w.db, tenant, quotaType)
    ensures match InForce(c, steps, tenant, quotaType)
            case Some(limit) => ResolveLimit(c, w.db, tenant, quotaType, w.now) == Ok(limit)
            case None => ResolveLimit(c, w.db, tenant, quotaType, w.now).Err?
  {
  }

  /** Under every schedule, a request begins with the limit set last for its tenant and quota type; with the configured
      one when none was set; and does not begin when there is neither. */
  lemma EveryRequestCarriesTheLimit(c: Config, now: int, steps: seq<Step>, id: nat, tenant: string, quotaType: string,
                                    amount: nat)
    requires (forall s :: s in steps ==> NamedStep(s)) && Named(tenant, quotaType)
    ensures var w, w' :=
            Exec(c, Start(now), steps), Exec(c, Start(now), steps + [Begin(id, tenant, quotaType, amount)]);
            match InForce(c, steps, tenant, quotaType)
            case Some(limit) => w' == w.(pending := w.pending[id := Request(tenant, quotaType, amount, limit)])
            case None => w' == w
  {
    ExecStoresLimit(c, now, steps, tenant, quotaType);
    ExecLast(c, Start(now), steps, Begin(id, tenant, quotaType, amount));
    StoredIsResolved(c, Exec(c, Start(now), steps), steps, tenant, quotaType);
    hide ResolveLimit, InForce;
  }

  /** The count of successes, and what it says about the current period. */
  ghost predicate Shared(c: Config, log: seq<Item>, amount: int, limit: int, began: int)
    requires amount > 0
  {
    var p := Current(c, log);
    && Successes(log) == Min(Requests(log), limit / amount)
    && (p.None? ==> Successes(log) == 0)
    && (p.Some? ==> p.value.sum == Successes(log) * amount > 0 && p.value.start >= began)
  }

  /** What a steady schedule keeps, from `began` on. */
  ghost predicate SteadyInv(c: Config, w: World, tenant: string, quotaType: string, amount: int, limit: int, began: int)
    requires amount > 0
  {
    && ResolveLimit(c, w.db, tenant, quotaType, w.now) == Ok(limit)
    && LimitStays(c, w.db, tenant, quotaType)
    && (forall id :: id in w.pending && (w.pending[id].tenant, w.pending[id].quotaType) == (tenant, quotaType) ==>
                       w.pending[id].amount == amount && w.pending[id].limit == limit)
    && Shared(c, LogOf(w, tenant, quotaType), amount, limit, began)
  }

  lemma QuotientStep(k: nat, a: int, limit: int)
    requires a > 0 && limit >= 0
    ensures k * a + a <= limit <==> k < limit / a
  {
    assert k * a + a == a * (k + 1);
    DivAtLeast(k + 1, limit, a);
  }

  /** One more request: granted while a share is left, refused afterwards. */
  lemma RequestShares(c: Config, e: Option<Entry>, log: seq<Item>, amount: int, limit: int, began: int, now: int)
    requires GoodConfig(c) && amount > 0 && limit >= 0 && SameUsage(c, e, Current(c, log), now)
    requires Shared(c, log, amount, limit, began) && began <= now <= began + Seconds(c) * SECOND
    ensures var reply := ConsumeScript(limit, amount, Seconds(c), e, now).1;
            && reply.Reply?
            && Shared(c, log + [if reply.allowed then Granted(now, amount, limit) else Refused], amount, limit, began)
  {
    var k := Successes(log);
    var p := Current(c, log);
    QuotientStep(k, amount, limit);
    if p.Some? {
      NotOver(c, p.value, began, now);
    }
    StepOf(c, e, p, k * amount, amount, limit, now);
    hide *;
    var reply := ConsumeScript(limit, amount, Seconds(c), e, now).1;
    SharesStep(c, log, reply.allowed, amount, limit, began, now);
  }

  /** The count of successes stays the smaller of the requests and the shares. */
  lemma SharesStep(c: Config, log: seq<Item>, allowed: bool, amount: int, limit: int, began: int, now: int)
    requires amount > 0 && Shared(c, log, amount, limit, began) && began <= now
    requires Current(c, log).Some? ==> !Over(c, Current(c, log).value, now)
    requires allowed <==> Successes(log) < limit / amount
    ensures Shared(c, log + [if allowed then Granted(now, amount, limit) else Refused], amount, limit, began)
  {
    var k := Successes(log);
    AppendFacts(c, log, allowed, amount, limit, now);
    Distribute(k, amount);
    hide Current, Successes, Requests, Over;
  }

  lemma Distribute(k: int, amount: int)
    ensures (k + 1) * amount == k * amount + amount && 1 * amount == amount
  {
  }

  lemma AppendFacts(c: Config, log: seq<Item>, allowed: bool, amount: int, limit: int, now: int)
    requires Current(c, log).Some? ==> !Over(c, Current(c, log).value, now) && Current(c, log).value.sum > 0
    ensures var log', p := log + [if allowed then Granted(now, amount, limit) else Refused], Current(c, log);
            && Requests(log') == Requests(log) + 1
            && Successes(log') == Successes(log) + (if allowed then 1 else 0)
            && Current(c, log') == if !allowed then p
                                   else if p.None? then Some(Period(now, amount))
                                   else Some(Period(p.value.start, p.value.sum + amount))
  {
    hide Over;
    var item := if allowed then Granted(now, amount, limit) else Refused;
    assert (log + [item])[..|log|] == log;
  }

  lemma NotOver(c: Config, p: Period, began: int, now: int)
    requires p.start >= began && now <= began + Seconds(c) * SECOND
    ensures !Over(c, p, now)
  {
  }

  /** Inside a period the script compares with the units of that period. */
  lemma StepOf(c: Config, e: Option<Entry>, p: Option<Period>, used: int, amount: int, limit: int, now: int)
    requires SameUsage(c, e, p, now) && (p.Some? ==> !Over(c, p.value, now) && p.value.sum == used)
             && (p.None? ==> used == 0)
    ensures var reply := ConsumeScript(limit, amount, Seconds(c), e, now).1;
            reply.Reply? && (reply.allowed <==> used + amount <= limit)
  {
  }

  lemma FinishSteady(c: Config, w: World, id: nat, tenant: string, quotaType: string, amount: int, limit: int,
                     began: int)
    requires GoodConfig(c) && Inv(c, w) && amount > 0 && limit >= 0 && Named(tenant, quotaType)
    requires SteadyInv(c, w, tenant, quotaType, amount, limit, began)
    requires began <= w.now <= began + Seconds(c) * SECOND
    ensures SteadyInv(c, FinishStep(c, w, id), tenant, quotaType, amount, limit, began)
  {
    if id in w.pending {
      var r := w.pending[id];
      KeysApart(c, r.tenant, r.quotaType, tenant, quotaType);
      FinishLeavesLimit(c, w, id, tenant, quotaType);
      hide *;
      FinishShares(c, w, id, tenant, quotaType, amount, limit, began);
      SteadyParts(c, w, FinishStep(c, w, id), tenant, quotaType, amount, limit, began);
    } else {
      assert FinishStep(c, w, id) == w;
    }
  }

  /** The parts of the invariant a script can touch. */
  lemma SteadyParts(c: Config, w: World, w': World, tenant: string, quotaType: string, amount: int, limit: int,
                    began: int)
    requires amount > 0 && SteadyInv(c, w, tenant, quotaType, amount, limit, began) && w'.now == w.now
    requires Lookup(w'.db, LimitKey(c.prefix, tenant, quotaType)) == Lookup(w.db, LimitKey(c.prefix, tenant, quotaType))
    requires forall id :: id in w'.pending ==> id in w.pending && w'.pending[id] == w.pending[id]
    requires Shared(c, LogOf(w', tenant, quotaType), amount, limit, began)
    ensures SteadyInv(c, w', tenant, quotaType, amount, limit, began)
  {
    hide Shared, LogOf, Live;
  }

  lemma FinishLeavesLimit(c: Config, w: World, id: nat, tenant: string, quotaType: string)
    requires id in w.pending
    requires UsageKey(c.prefix, w.pending[id].tenant, w.pending[id].quotaType) != LimitKey(c.prefix, tenant, quotaType)
    ensures var w' := FinishStep(c, w, id);
            && w'.now == w.now
            && Lookup(w'.db, LimitKey(c.prefix, tenant, quotaType)) ==
               Lookup(w.db, LimitKey(c.prefix, tenant, quotaType))
            && forall i :: i in w'.pending ==> i in w.pending && w'.pending[i] == w.pending[i]
  {
    hide ConsumeScript, UsageKey, LimitKey;
  }

  lemma FinishShares(c: Config, w: World, id: nat, tenant: string, quotaType: string, amount: int, limit: int,
                     began: int)
    requires GoodConfig(c) && Inv(c, w) && amount > 0 && limit >= 0 && Named(tenant, quotaType) && id in w.pending
    requires SteadyInv(c, w, tenant, quotaType, amount, limit, began)
    requires began <= w.now <= began + Seconds(c) * SECOND
    ensures Shared(c, LogOf(FinishStep(c, w, id), tenant, quotaType), amount, limit, began)
  {
    var r := w.pending[id];
    hide Current, Shared, SameUsage, ConsumeScript, WithinLimits, Over, LimitStays, ResolveLimit;
    if (r.tenant, r.quotaType) == (tenant, quotaType) {
      assert Accounted(c, w, tenant, quotaType);
      var e := Lookup(w.db, UsageKey(c.prefix, tenant, quotaType));
      RequestShares(c, e, LogOf(w, tenant, quotaType), amount, limit, began, w.now);
    }
  }

  lemma NextSteady(c: Config, w: World, s: Step, tenant: string, quotaType: string, amount: int, limit: int, began: int)
    requires GoodConfig(c) && Inv(c, w) && amount > 0 && limit >= 0 && Named(tenant, quotaType)
    requires SteadyInv(c, w, tenant, quotaType, amount, limit, began) && Steady([s], tenant, quotaType, amount)
    requires began <= w.now <= began + Seconds(c) * SECOND
    ensures SteadyInv(c, Next(c, w, s), tenant, quotaType, amount, limit, began)
  {
    assert s in [s];
    if s.Finish? {
      FinishSteady(c, w, s.id, tenant, quotaType, amount, limit, began);
    } else {
      hide Shared;
      if s.SetLimit? {
        LimitKeysDistinct(c.prefix, s.tenant, s.quotaType, tenant, quotaType);
      } else if s.Reset? {
        KeysApart(c, s.tenant, s.quotaType, tenant, quotaType);
      }
    }
  }

  lemma {:induction false} ExecSteady(c: Config, w: World, steps: seq<Step>, tenant: string, quotaType: string,
                                      amount: int, limit: int, began: int)
    requires GoodConfig(c) && Inv(c, w) && amount > 0 && limit >= 0 && Named(tenant, quotaType)
    requires SteadyInv(c, w, tenant, quotaType, amount, limit, began) && Steady(steps, tenant, quotaType, amount)
    requires began <= w.now && w.now + Elapsed(steps) <= began + Seconds(c) * SECOND
    ensures SteadyInv(c, Exec(c, w, steps), tenant, quotaType, amount, limit, began)
    decreases |steps|
  {
    if steps != [] {
      var s := steps[0];
      assert s in steps;
      NextKeeps(c, w, s);
      NextSteady(c, w, s, tenant, quotaType, amount, limit, began);
      assert Next(c, w, s).now == w.now + (if s.Tick? then s.d else 0);
      hide SteadyInv, Inv, Next;
      ExecSteady(c, Next(c, w, s), steps[1..], tenant, quotaType, amount, limit, began);
    }
  }

  lemma SharedFrom(c: Config, w: World, steps: seq<Step>, tenant: string, quotaType: string, amount: int, limit: int)
    requires GoodConfig(c) && Inv(c, w) && amount > 0 && limit >= 0 && Named(tenant, quotaType)
    requires ResolveLimit(c, w.db, tenant, quotaType, w.now) == Ok(limit) && LimitStays(c, w.db, tenant, quotaType)
    requires LogOf(w, tenant, quotaType) == []
    requires forall id :: id in w.pending ==> (w.pending[id].tenant, w.pending[id].quotaType) != (tenant, quotaType)
    requires Steady(steps, tenant, quotaType, amount) && Elapsed(steps) <= Seconds(c) * SECOND
    ensures var log := LogOf(Exec(c, w, steps), tenant, quotaType);
            Successes(log) == Min(Requests(log), limit / amount)
  {
    ExecSteady(c, w, steps, tenant, quotaType, amount, limit, w.now);
  }

  /** When a limit is in force and then stays, and calls are of one positive amount, exactly min(m, limit / amount) of
      the m requests that finish within one period succeed, whatever the instances interleave and whatever other tenants
      do, before and meanwhile. */
  lemma EveryScheduleSharesTheLimit(c: Config, now: int, before: seq<Step>, steps: seq<Step>, tenant: string,
                                    quotaType: string, amount: int, limit: int)
    requires GoodConfig(c) && amount > 0 && limit >= 0 && Named(tenant, quotaType)
    requires (forall s :: s in before ==> NamedStep(s)) && InForce(c, before, tenant, quotaType) == Some(limit)
    requires var w := Exec(c, Start(now), before);
             && LogOf(w, tenant, quotaType) == []
             && forall id :: id in w.pending ==>
                  (w.pending[id].tenant, w.pending[id].quotaType) != (tenant, quotaType)
    requires Steady(steps, tenant, quotaType, amount) && Elapsed(steps) <= Seconds(c) * SECOND
    ensures var log := LogOf(Exec(c, Exec(c, Start(now), before), steps), tenant, quotaType);
            Successes(log) == Min(Requests(log), limit / amount)
  {
    var w := Exec(c, Start(now), before);
    ExecStoresLimit(c, now, before, tenant, quotaType);
    StoredIsResolved(c, w, before, tenant, quotaType);
    StartInv(c, now);
    hide Inv, ResolveLimit, InForce, LimitStays, Elapsed, Steady, Successes, Requests, Start;
    ExecKeeps(c, Start(now), before);
    SharedFrom(c, w, steps, tenant, quotaType, amount, limit);
  }

  lemma StartInv(c: Config, now: int)
    ensures Inv(c, Start(now))
  {
  }

  // ----- When a quota is renewed -----

  /** A key that the whole limit was granted on grants again exactly when its time to live, in whole seconds, is over to
      the millisecond. */
  lemma RenewedIff(c: Config, limit: int, now: int, later: int)
    requires GoodConfig(c) && limit > 0 && now <= later
    ensures var (e, first) := ConsumeScript(limit, limit, Seconds(c), None, now);
            var second := ConsumeScript(limit, 1, Seconds(c), e, later).1;
            && first == Reply(true, 0)
            && second == (if later / MILLISECOND > now / MILLISECOND + 1000 * (c.resetTTL / SECOND)
                          then Reply(true, limit - 1) else Reply(false, 0))
  {
  }

  /** The same of two requests in a run: the second is granted exactly when the first one's period is over. */
  lemma SecondRequestGrantedIff(c: Config, now: int, tenant: string, quotaType: string, limit: int, d: nat)
    requires GoodConfig(c) && limit > 0 && quotaType in c.limits && c.limits[quotaType] == limit
    requires Named(tenant, quotaType)
    ensures var w := Exec(c, Start(now), [Begin(0, tenant, quotaType, limit), Finish(0)]);
            var w' := Next(c, Next(c, Next(c, w, Tick(d)), Begin(1, tenant, quotaType, 1)), Finish(1));
            && LogOf(w, tenant, quotaType) == [Granted(now, limit, limit)]
            && LogOf(w', tenant, quotaType) ==
               [Granted(now, limit, limit),
                if (now + d) / MILLISECOND > now / MILLISECOND + 1000 * (c.resetTTL / SECOND)
                then Granted(now + d, 1, limit) else Refused]
  {
    var begin, finish := Begin(0, tenant, quotaType, limit), Finish(0);
    KeysApart(c, tenant, quotaType, tenant, quotaType);
    RenewedIff(c, limit, now, now + d);
    hide ConsumeScript, Seconds;
    var w0 := Start(now);
    var w1 := Next(c, w0, begin);
    assert w1.pending == map[0 := Request(tenant, quotaType, limit, limit)];
    var w2 := Next(c, w1, finish);
    assert [begin, finish][1..] == [finish] && [finish][1..] == [];
    assert Exec(c, w2, []) == w2 && Exec(c, w1, [finish]) == Exec(c, w2, []);
    assert LogOf(w2, tenant, quotaType) == [] + [Granted(now, limit, limit)] == [Granted(now, limit, limit)];
    var w3 := Next(c, Next(c, w2, Tick(d)), Begin(1, tenant, quotaType, 1));
    assert w3.pending[1] == Request(tenant, quotaType, 1, limit);
  }

  // ----- Short resets -----

  /** With a time to live of no whole second, usage keys are deleted as they are written: in every schedule no usage is
      ever stored, so that every request for up to its limit is granted. */
  lemma {:induction false} NoTimeToLiveNeverRefuses(c: Config, w: World, steps: seq<Step>, id: nat)
    requires Seconds(c) <= 0 && (forall s :: s in steps ==> NamedStep(s))
    requires forall i :: i in w.pending ==>
               Named(w.pending[i].tenant, w.pending[i].quotaType) && w.pending[i].amount >= 0
    requires forall t, q :: Named(t, q) ==> Lookup(w.db, UsageKey(c.prefix, t, q)) == None
    ensures var w' := Exec(c, w, steps);
            id in w'.pending && w'.pending[id].amount <= w'.pending[id].limit ==>
              var r := w'.pending[id];
              LogOf(FinishStep(c, w', id), r.tenant, r.quotaType) ==
              LogOf(w', r.tenant, r.quotaType) + [Granted(w'.now, r.amount, r.limit)]
    decreases |steps|
  {
    if steps != [] {
      var s := steps[0];
      assert s in steps;
      var w' := Next(c, w, s);
      hide LogOf;
      forall t, q | Named(t, q) ensures Lookup(w'.db, UsageKey(c.prefix, t, q)) == None {
        if s.Finish? && s.id in w.pending {
          KeysApart(c, w.pending[s.id].tenant, w.pending[s.id].quotaType, t, q);
        } else if s.SetLimit? || s.Reset? {
          KeysApart(c, t, q, s.tenant, s.quotaType);
        }
      }
      NoTimeToLiveNeverRefuses(c, w', steps[1..], id);
    }
  }

  // ----- The manager -----

  /** What ConsumeQuota returns: the remaining units, and an error when the call was not granted. */
  datatype Consumed = Consumed(remaining: int, error: Option<string>)

  class RedisQuotaManager {
    const client: Server
    const config: Config

    constructor (client: Server, config: Config)
      ensures this.client == client && this.config == config
    {
      this.client, this.config := client, config;
    }

    static method New(client: Server?, config: Config) returns (r: Outcome<RedisQuotaManager>)
      ensures r.Ok? <==> client != null
      ensures r.Ok? ==> r.value.client == client && r.value.config.prefix != "" && r.value.config.resetTTL != 0
      ensures r.Ok? ==> r.value.config == Config(if config.prefix == "" then "quota:" else config.prefix, config.limits,
                                                 if config.resetTTL == 0 then DAY else config.resetTTL)
      ensures !r.Panic?
    {
      if client == null {
        return Err("redis client cannot be nil");
      }
      var prefix := if config.prefix == "" then "quota:" else config.prefix;
      var resetTTL := if config.resetTTL == 0 then DAY else config.resetTTL;
      var manager := new RedisQuotaManager(client, Config(prefix, config.limits, resetTTL));
      return Ok(manager);
    }

    /** GET of the tenant's limit, then the configured limits. */
    method ResolvedLimit(tenant: string, quotaType: string, now: int) returns (r: Outcome<int>)
      modifies client
      ensures r == ResolveLimit(config, old(client.db), tenant, quotaType, now)
      ensures forall key :: Live(Lookup(client.db, key), now) == Live(Lookup(old(client.db), key), now)
    {
      var limitKey := LimitKey(config.prefix, tenant, quotaType);
      client.Touch(limitKey, now);
      if limitKey in client.db && client.db[limitKey].value.Counter? {
        return Ok(client.db[limitKey].value.count);
      }
      if quotaType in config.limits {
        return Ok(config.limits[quotaType]);
      }
      return Err("unknown quota type: " + quotaType);
    }

    static method ConsumeQuotaScript(client: Server, key: string, limit: int, amount: int, ttl: int,
                                     now: int) returns (reply: Reply)
      modifies client
      ensures (Lookup(client.db, key), reply) == ConsumeScript(limit, amount, ttl, Lookup(old(client.db), key), now)
      ensures client.db == Stored(old(client.db), key, Lookup(client.db, key))
    {
      client.Touch(key, now);
      if key in client.db && !client.db[key].value.Counter? {
        return WrongType;
      }
      var current := if key in client.db then client.db[key].value.count else 0;
      if current + amount > limit {
        return Reply(false, limit - current);
      }
      var newUsage := current + amount;
      client.db := client.db[key :=
                             Entry(Counter(newUsage), if key in client.db then client.db[key].expireAt else None)];
      if newUsage == amount {
        client.ExpireKey(key, ttl, now);
      }
      return Reply(true, limit - newUsage);
    }

    /** Consumes quota: with a valid call, the limit that is found and the script's answer decide. */
    method ConsumeQuota(tenant: Option<string>, quotaType: string, amount: int, now: int) returns (r: Consumed)
      modifies client
      ensures amount < 0 || tenant.None? || tenant == Some("") ==>
                r.remaining == 0 && r.error.Some? && client.db == old(client.db)
      ensures amount >= 0 && tenant.Some? && tenant.value != "" ==>
                var limit := ResolveLimit(config, old(client.db), tenant.value, quotaType, now);
                var key := UsageKey(config.prefix, tenant.value, quotaType);
                match limit
                case Ok(l) =>
                  var (e, reply) := ConsumeScript(l, amount, Seconds(config), Live(Lookup(old(client.db), key), now),
                                                  now);
                  && Live(Lookup(client.db, key), now) == Live(e, now)
                  && (r.error.None? <==> reply.Reply? && reply.allowed)
                  && (reply.Reply? ==> r.remaining == reply.remaining)
                  && forall k :: k != key ==> Live(Lookup(client.db, k), now) == Live(Lookup(old(client.db), k), now)
                case _ =>
                  && r.remaining == 0 && r.error.Some?
                  && forall k :: Live(Lookup(client.db, k), now) == Live(Lookup(old(client.db), k), now)
    {
      if amount < 0 {
        return Consumed(0, Some("amount must be non-negative"));
      }
      if tenant.None? || tenant.value == "" {
        return Consumed(0, Some("tenant context required"));
      }
      var limit := ResolvedLimit(tenant.value, quotaType, now);
      if !limit.Ok? {
        return Consumed(0, Some("unknown quota type: " + quotaType));
      }
      var key := UsageKey(config.prefix, tenant.value, quotaType);
      var reply := ConsumeQuotaScript(client, key, limit.value, amount, Seconds(config), now);
      if reply.WrongType? {
        return Consumed(0, Some("redis error"));
      }
      if !reply.allowed {
        return Consumed(reply.remaining, Some("quota exceeded for " + quotaType));
      }
      return Consumed(reply.remaining, None);
    }

    /** Checks a quota without consuming it. */
    method CheckQuota(tenant: Option<string>, quotaType: string, amount: int, now: int) returns (r: Outcome<bool>)
      modifies client
      ensures forall key :: Live(Lookup(client.db, key), now) == Live(Lookup(old(client.db), key), now)
      ensures !r.Panic?
      ensures amount < 0 || tenant.None? || tenant == Some("") ==> r.Err?
      ensures amount >= 0 && tenant.Some? && tenant.value != "" ==>
                var limit := ResolveLimit(config, old(client.db), tenant.value, quotaType, now);
                var e := Lookup(old(client.db), UsageKey(config.prefix, tenant.value, quotaType));
                (limit.Ok? && CheckScript(limit.value, amount, e, now).Reply? <==> r.Ok?)
                && (r.Ok? ==> r.value == CheckScript(limit.value, amount, e, now).allowed)
    {
      if amount < 0 {
        return Err("amount must be non-negative");
      }
      if tenant.None? || tenant.value == "" {
        return Err("tenant context required");
      }
      var limit := ResolvedLimit(tenant.value, quotaType, now);
      if !limit.Ok? {
        return Err("unknown quota type: " + quotaType);
      }
      var key := UsageKey(config.prefix, tenant.value, quotaType);
      client.Touch(key, now);
      if key in client.db && !client.db[key].value.Counter? {
        return Err("redis error");
      }
      var current := if key in client.db then client.db[key].value.count else 0;
      return Ok(current + amount <= limit.value);
    }

    method SetLimit(tenant: Option<string>, quotaType: string, limit: int) returns (error: Option<string>)
      modifies client
      ensures error.None? <==> limit >= 0 && tenant.Some? && tenant.value != ""
      ensures client.db == if error.Some? then old(client.db)
                           else Stored(old(client.db), LimitKey(config.prefix, tenant.value, quotaType),
                                       Some(Entry(Counter(limit), None)))
    {
      if limit < 0 {
        return Some("limit must be non-negative");
      }
      if tenant.None? || tenant.value == "" {
        return Some("tenant context required");
      }
      var limitKey := LimitKey(config.prefix, tenant.value, quotaType);
      client.db := client.db[limitKey := Entry(Counter(limit), None)];
      return None;
    }

    method ResetQuota(tenant: Option<string>, quotaType: string) returns (error: Option<string>)
      modifies client
      ensures error.None? <==> tenant.Some? && tenant.value != ""
      ensures client.db == if error.Some? then old(client.db)
                           else Stored(old(client.db), UsageKey(config.prefix, tenant.value, quotaType), None)
    {
      if tenant.None? || tenant.value == "" {
        return Some("tenant context required");
      }
      client.db := client.db - {UsageKey(config.prefix, tenant.value, quotaType)};
      return None;
    }
  }

  /** A successful check means a consumption of the same amount with the same limit, before anything else happens, is
      granted; a failed one that it is refused. */
  lemma CheckForeseesConsume(limit: int, amount: int, ttl: int, e: Option<Entry>, now: int)
    ensures var check, consume := CheckScript(limit, amount, e, now), ConsumeScript(limit, amount, ttl, e, now).1;
            (check.WrongType? <==> consume.WrongType?) && (check.Reply? ==> check.allowed == consume.allowed)
  {
  }
}
