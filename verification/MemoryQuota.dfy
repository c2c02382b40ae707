/** The in-memory quota manager, with periods that roll over on the next consumption. */
module MemoryQuota {
  import opened Decimal
  import opened QuotaKeys
  import opened Runs
  import opened Text

  datatype Usage = Usage(used: int, limit: int, period: string, start: int)

  datatype State = State(limits: map<string, int>, usage: map<string, Usage>)

  function DefaultLimits(): map<string, int> {
    map["api_requests_monthly" := 100000, "api_requests_daily" := 5000, "database_rows" := 1000000,
        "storage_bytes" := 1073741824]
  }

  function PeriodFor(quotaType: string): string {
    if quotaType == "api_requests_daily" then "daily"
    else if quotaType == "api_requests_monthly" then "monthly"
    else "short"
  }

  /** The time after which a period is over; other names have none. */
  function Duration(period: string): Option<int> {
    if period == "short" then Some(SECOND / 10)
    else if period == "daily" then Some(DAY)
    else if period == "monthly" then Some(30 * DAY)
    else None
  }

  predicate ShouldReset(u: Usage, now: int) {
    Duration(u.period).Some? && now - u.start >= Duration(u.period).value
  }

  function Key(tenant: string, quotaType: string): string {
    UsageKey("", tenant, quotaType)
  }

  function UsageOf(st: State, tenant: string, quotaType: string): Option<Usage> {
    if Key(tenant, quotaType) in st.usage then Some(st.usage[Key(tenant, quotaType)]) else None
  }

  /** The usage a consumption works on: a new one with the type's limit or none at all, one rolled over, or the old
      one. */
  function Opened(st: State, tenant: string, quotaType: string, now: int): Usage {
    match UsageOf(st, tenant, quotaType)
    case None =>
      Usage(0, if quotaType in st.limits then st.limits[quotaType] else MAX_INT, PeriodFor(quotaType), now)
    case Some(u) => if ShouldReset(u, now) then u.(used := 0, start := now) else u
  }

  function ConsumeStep(st: State, tenant: string, quotaType: string, amount: int, now: int): (State, Outcome<int>) {
    if amount < 0 then (st, Err("amount must be non-negative"))
    else
      var u := Opened(st, tenant, quotaType, now);
      var key := Key(tenant, quotaType);
      if Wrap(u.used + amount) > u.limit then (st.(usage := st.usage[key := u]), Err("quota exceeded"))
      else
        var newUsed := Wrap(u.used + amount);
        (st.(usage := st.usage[key := u.(used := newUsed)]), Ok(Wrap(u.limit - newUsed)))
  }

  function CheckAt(st: State, tenant: string, quotaType: string, amount: int): Outcome<bool> {
    if amount < 0 then Err("amount must be non-negative")
    else if quotaType !in st.limits then Err("unknown quota type: " + quotaType)
    else
      match UsageOf(st, tenant, quotaType)
      case None => Ok(amount <= st.limits[quotaType])
      case Some(u) => Ok(Wrap(u.used + amount) <= u.limit)
  }

  function ResetStep(st: State, tenant: string, quotaType: string, now: int): State {
    match UsageOf(st, tenant, quotaType)
    case None => st
    case Some(u) => st.(usage := st.usage[Key(tenant, quotaType) := u.(used := 0, start := now)])
  }

  /** The new limit becomes the default of the type, for every tenant, and the limit of the caller's own usage. */
  function SetLimitStep(st: State, tenant: string, quotaType: string, limit: int): State {
    if limit <= 0 then st
    else
      var usage := match UsageOf(st, tenant, quotaType)
                   case None => st.usage
                   case Some(u) => st.usage[Key(tenant, quotaType) := u.(limit := limit)];
      State(st.limits[quotaType := limit], usage)
  }

  // ----- What a check foresees -----

  /** The range of a stored usage, and room for one more amount in 64 bits. */
  ghost predicate Fits(st: State, tenant: string, quotaType: string, amount: int) {
    && 0 <= amount <= MAX_INT
    && (quotaType in st.limits ==> 0 <= st.limits[quotaType] <= MAX_INT)
    && match UsageOf(st, tenant, quotaType)
       case None => true
       case Some(u) => 0 <= u.used && u.used + amount <= MAX_INT && 0 <= u.limit <= MAX_INT
  }

  /** A check that succeeds at a time means a consumption of that amount at that time succeeds. A check that fails means
      one that fails too, except when the period is over and the amount alone fits: a check does not roll over. */
  lemma CheckForeseesConsume(st: State, tenant: string, quotaType: string, amount: int, now: int)
    requires Fits(st, tenant, quotaType, amount) && quotaType in st.limits
    ensures var check, consume := CheckAt(st, tenant, quotaType, amount),
            ConsumeStep(st, tenant, quotaType, amount, now).1;
            && check.Ok?
            && (check.value ==> consume.Ok?)
            && (!check.value && consume.Ok? <==>
                  var u := UsageOf(st, tenant, quotaType);
                  u.Some? && ShouldReset(u.value, now) && amount <= u.value.limit < u.value.used + amount)
  {
    hide Duration, PeriodFor, Key;
  }

  /** Negative amounts are errors that change nothing. */
  lemma NegativeRefused(st: State, tenant: string, quotaType: string, amount: int, now: int)
    requires amount < 0
    ensures CheckAt(st, tenant, quotaType, amount).Err?
    ensures ConsumeStep(st, tenant, quotaType, amount, now).0 == st
    ensures ConsumeStep(st, tenant, quotaType, amount, now).1.Err?
  {
  }

  /** Setting a limit reaches another tenant exactly when that tenant has no usage yet. */
  lemma SetLimitReaches(st: State, tenant: string, other: string, quotaType: string, limit: int, now: int)
    requires limit > 0 && ':' !in tenant && ':' !in other && tenant != other
    ensures var st' := SetLimitStep(st, tenant, quotaType, limit);
            Opened(st', other, quotaType, now).limit ==
            if UsageOf(st, other, quotaType).None? then limit else Opened(st, other, quotaType, now).limit
    ensures Opened(SetLimitStep(st, tenant, quotaType, limit), tenant, quotaType, now).limit == limit
  {
    UsageKeysDistinct("", tenant, quotaType, other, quotaType);
    hide Duration, PeriodFor, Key;
  }

  /** A consumption is granted beyond the limit exactly when the sum has no room in 64 bits: it wraps around to a
      negative number, passes the comparison and is stored. */
  lemma OverflowExact(st: State, tenant: string, quotaType: string, amount: int, now: int)
    requires var u := Opened(st, tenant, quotaType, now); 0 <= u.used <= MAX_INT && 0 <= u.limit <= MAX_INT
    requires 0 <= amount <= MAX_INT
    ensures var u, (st', r) := Opened(st, tenant, quotaType, now), ConsumeStep(st, tenant, quotaType, amount, now);
            && (r.Ok? && u.used + amount > u.limit <==> u.used + amount > MAX_INT)
            && (UsageOf(st', tenant, quotaType).value.used < 0 <==> u.used + amount > MAX_INT)
  {
    hide Duration, PeriodFor, Key;
  }

  // ----- Conservation over whole runs -----

  datatype Item = Granted(time: int, amount: int, limit: int, remaining: int) | Refused(time: int) | Cleared(time: int)

  datatype World = World(st: State, logs: map<(string, string), seq<Item>>)

  datatype Step =
    | Consume(tenant: string, quotaType: string, amount: int, now: int)
    | Check(tenant: string, quotaType: string, amount: int)
    | Reset(tenant: string, quotaType: string, now: int)
    | SetLimit(tenant: string, quotaType: string, limit: int)

  function LogOf(w: World, tenant: string, quotaType: string): seq<Item> {
    if (tenant, quotaType) in w.logs then w.logs[(tenant, quotaType)] else []
  }

  function Logged(w: World, tenant: string, quotaType: string, item: Item): map<(string, string), seq<Item>> {
    w.logs[(tenant, quotaType) := LogOf(w, tenant, quotaType) + [item]]
  }

  function Next(w: World, s: Step): World {
    match s
    case Consume(tenant, quotaType, amount, now) =>
      var (st', r) := ConsumeStep(w.st, tenant, quotaType, amount, now);
      if amount < 0 then w
      else
        var item := if r.Ok? then Granted(now, amount, Opened(w.st, tenant, quotaType, now).limit, r.value)
          else Refused(now);
        World(st', Logged(w, tenant, quotaType, item))
    case Check(_, _, _) => w
    case Reset(tenant, quotaType, now) =>
      World(ResetStep(w.st, tenant, quotaType, now), Logged(w, tenant, quotaType, Cleared(now)))
    case SetLimit(tenant, quotaType, limit) => w.(st := SetLimitStep(w.st, tenant, quotaType, limit))
  }

  function Exec(w: World, steps: seq<Step>): World
    decreases |steps|
  {
    if steps == [] then w else Exec(Next(w, steps[0]), steps[1..])
  }

  /** A period of usage: its start and the units granted since. */
  datatype Period = Period(start: int, sum: int)

  predicate Over(quotaType: string, p: Period, now: int) {
    now - p.start >= Duration(PeriodFor(quotaType)).value
  }

  /** The last period of a log: opened by the first consumption, restarted by a reset and by the first consumption after
      its end. */
  function Current(quotaType: string, log: seq<Item>): Option<Period> {
    if log == [] then None
    else
      var p := Current(quotaType, log[..|log| - 1]);
      var item := log[|log| - 1];
      if item.Cleared? then (if p.None? then None else Some(Period(item.time, 0)))
      else
        var q := if p.None? || Over(quotaType, p.value, item.time) then Period(item.time, 0) else p.value;
        Some(if item.Granted? then q.(sum := q.sum + item.amount) else q)
  }

  function Sum(log: seq<Item>): int {
    if log == [] then 0
    else Sum(log[..|log| - 1]) + (if log[|log| - 1].Granted? then log[|log| - 1].amount else 0)
  }

  lemma SumAppend(log: seq<Item>, item: Item)
    ensures Sum(log + [item]) == Sum(log) + (if item.Granted? then item.amount else 0)
  {
    assert (log + [item])[..|log|] == log;
  }

  /** The current period is the tail of the log from its first item on: no reset after that, no consumption past its
      end, and its sum is all that was granted. */
  lemma {:induction false} PeriodIsSuffix(quotaType: string, log: seq<Item>) returns (from: nat)
    requires Current(quotaType, log).Some?
    ensures from < |log| && log[from].time == Current(quotaType, log).value.start
    ensures Sum(log[from..]) == Current(quotaType, log).value.sum
    ensures forall i :: from < i < |log| ==>
              !log[i].Cleared? && !Over(quotaType, Current(quotaType, log).value, log[i].time)
  {
    var init, item := log[..|log| - 1], log[|log| - 1];
    var p := Current(quotaType, init);
    hide Over, Sum;
    if p.Some? && !item.Cleared? && !Over(quotaType, p.value, item.time) {
      from := PeriodIsSuffix(quotaType, init);
      assert log == init + [item];
      TailAppend(init, item, from);
      forall i | from < i < |log| ensures !log[i].Cleared? && !Over(quotaType, p.value, log[i].time) {
        if i < |init| {
          assert log[i] == init[i];
        }
      }
    } else {
      from := |log| - 1;
      SumOne(item);
      assert log[from..] == [item];
    }
  }

  lemma TailAppend(init: seq<Item>, item: Item, from: nat)
    requires from <= |init|
    ensures Sum((init + [item])[from..]) == Sum(init[from..]) + (if item.Granted? then item.amount else 0)
  {
    assert (init + [item])[from..] == init[from..] + [item];
    SumAppend(init[from..], item);
  }

  lemma SumOne(item: Item)
    ensures Sum([item]) == if item.Granted? then item.amount else 0
  {
    assert [item][..0] == [];
  }

  /** Every grant left the usage within the limit in force, and returned what was left of it. */
  ghost predicate WithinLimits(quotaType: string, log: seq<Item>) {
    forall i :: 0 <= i < |log| && log[i].Granted? ==>
                  var p := Current(quotaType, log[..i + 1]);
                  p.Some? && p.value.sum <= log[i].limit && log[i].remaining == log[i].limit - p.value.sum
  }

  lemma WithinLimitsAppend(quotaType: string, log: seq<Item>, item: Item)
    requires WithinLimits(quotaType, log)
    requires item.Granted? ==>
               var p := Current(quotaType, log + [item]);
               p.Some? && p.value.sum <= item.limit && item.remaining == item.limit - p.value.sum
    ensures WithinLimits(quotaType, log + [item])
  {
    hide Current;
    var log' := log + [item];
    forall i | 0 <= i < |log'| && log'[i].Granted?
      ensures var p := Current(quotaType, log'[..i + 1]);
              p.Some? && p.value.sum <= log'[i].limit && log'[i].remaining == log'[i].limit - p.value.sum
    {
      if i < |log| {
        assert log'[..i + 1] == log[..i + 1];
      } else {
        assert log'[..i + 1] == log';
      }
    }
  }

  /** The stored usage is the current period's. At most `spent` units were ever asked for. */
  ghost predicate SameUsage(quotaType: string, u: Option<Usage>, p: Option<Period>, spent: int) {
    && (u.Some? <==> p.Some?)
    && (u.Some? ==>
          && u.value.used == p.value.sum && u.value.start == p.value.start && u.value.period == PeriodFor(quotaType)
          && 0 <= u.value.used <= spent && 0 < u.value.limit <= MAX_INT)
  }

  ghost predicate Accounted(w: World, tenant: string, quotaType: string, spent: int) {
    var log := LogOf(w, tenant, quotaType);
    SameUsage(quotaType, UsageOf(w.st, tenant, quotaType), Current(quotaType, log), spent)
      && WithinLimits(quotaType, log)
  }

  ghost predicate Inv(w: World, spent: int) {
    && 0 <= spent
    && (forall q :: q in w.st.limits ==> 0 < w.st.limits[q] <= MAX_INT)
    && (forall tenant, quotaType :: ':' !in tenant ==> Accounted(w, tenant, quotaType, spent))
  }

  function Asked(s: Step): int {
    if s.Consume? && s.amount >= 0 then s.amount else 0
  }

  /** The units asked for in a run. */
  function TotalAsked(steps: seq<Step>): nat {
    if steps == [] then 0 else Asked(steps[0]) + TotalAsked(steps[1..])
  }

  ghost predicate NamedStep(s: Step) {
    ':' !in s.tenant && (s.SetLimit? ==> s.limit <= MAX_INT)
  }

  ghost predicate NamedRun(steps: seq<Step>) {
    forall s :: s in steps ==> NamedStep(s)
  }

  /** Consumption advances the stored usage as the log advances the period. */
  lemma ConsumeSame(st: State, tenant: string, quotaType: string, amount: int, now: int, log: seq<Item>, spent: int)
    requires SameUsage(quotaType, UsageOf(st, tenant, quotaType), Current(quotaType, log), spent)
    requires forall q :: q in st.limits ==> 0 < st.limits[q] <= MAX_INT
    requires 0 <= amount && 0 <= spent && spent + amount <= MAX_INT
    ensures var (st', r) := ConsumeStep(st, tenant, quotaType, amount, now);
            var limit := Opened(st, tenant, quotaType, now).limit;
            var item := if r.Ok? then Granted(now, amount, limit, r.value) else Refused(now);
            var p := Current(quotaType, log + [item]);
            && SameUsage(quotaType, UsageOf(st', tenant, quotaType), p, spent + amount)
            && (r.Ok? ==> p.Some? && p.value.sum <= limit && r.value == limit - p.value.sum)
  {
    var (st', r) := ConsumeStep(st, tenant, quotaType, amount, now);
    var limit := Opened(st, tenant, quotaType, now).limit;
    var item := if r.Ok? then Granted(now, amount, limit, r.value) else Refused(now);
    assert (log + [item])[..|log|] == log;
    assert Duration(PeriodFor(quotaType)).Some?;
    hide Duration, PeriodFor, Key;
  }

  lemma NextKeeps(w: World, s: Step, spent: int, tenant: string, quotaType: string)
    requires Inv(w, spent) && NamedStep(s) && ':' !in tenant && spent + Asked(s) <= MAX_INT
    ensures Accounted(Next(w, s), tenant, quotaType, spent + Asked(s))
  {
    UsageKeysDistinct("", s.tenant, s.quotaType, tenant, quotaType);
    assert Accounted(w, tenant, quotaType, spent);
    var log := LogOf(w, tenant, quotaType);
    if (s.tenant, s.quotaType) == (tenant, quotaType) {
      if s.Consume? && s.amount >= 0 {
        ConsumeKeeps(w, s, spent);
      } else if s.Reset? {
        assert (log + [Cleared(s.now)])[..|log|] == log;
        WithinLimitsAppend(quotaType, log, Cleared(s.now));
      }
    } else {
      hide Current, WithinLimits, Duration, PeriodFor, Wrap;
    }
  }

  lemma ConsumeKeeps(w: World, s: Step, spent: int)
    requires Inv(w, spent) && NamedStep(s) && s.Consume? && s.amount >= 0 && spent + s.amount <= MAX_INT
    ensures Accounted(Next(w, s), s.tenant, s.quotaType, spent + s.amount)
  {
    assert Accounted(w, s.tenant, s.quotaType, spent);
    var log := LogOf(w, s.tenant, s.quotaType);
    ConsumeSame(w.st, s.tenant, s.quotaType, s.amount, s.now, log, spent);
    var (st', r) := ConsumeStep(w.st, s.tenant, s.quotaType, s.amount, s.now);
    var limit := Opened(w.st, s.tenant, s.quotaType, s.now).limit;
    var item := if r.Ok? then Granted(s.now, s.amount, limit, r.value) else Refused(s.now);
    hide Current, SameUsage, WithinLimits, ConsumeStep, Opened;
    WithinLimitsAppend(s.quotaType, log, item);
  }

  lemma LimitsKeep(w: World, s: Step, spent: int)
    requires Inv(w, spent) && NamedStep(s)
    ensures forall q :: q in Next(w, s).st.limits ==> 0 < Next(w, s).st.limits[q] <= MAX_INT
  {
  }

  lemma {:induction false} ExecKeeps(w: World, steps: seq<Step>, spent: int)
    requires Inv(w, spent) && NamedRun(steps) && spent + TotalAsked(steps) <= MAX_INT
    ensures Inv(Exec(w, steps), spent + TotalAsked(steps))
    decreases |steps|
  {
    if steps != [] {
      var s := steps[0];
      assert s in steps;
      LimitsKeep(w, s, spent);
      var w', spent' := Next(w, s), spent + Asked(s);
      forall tenant, quotaType | ':' !in tenant ensures Accounted(w', tenant, quotaType, spent') {
        NextKeeps(w, s, spent, tenant, quotaType);
      }
      hide Accounted, Next, NamedStep;
      ExecKeeps(w', steps[1..], spent');
    }
  }

  function Start(): World {
    World(State(DefaultLimits(), map[]), map[])
  }

  lemma RunKeeps(steps: seq<Step>)
    requires NamedRun(steps) && TotalAsked(steps) <= MAX_INT
    ensures Inv(Exec(Start(), steps), TotalAsked(steps))
  {
    forall t, q | ':' !in t ensures Accounted(Start(), t, q, 0) {
    }
    hide Accounted, NamedStep;
    ExecKeeps(Start(), steps, 0);
  }

  /** Conservation over every interleaving of tenants and operations: the usage of a tenant's quota is what was granted
      to it since its last reset or roll-over; every success left it within the limit in force and returned the rest. */
  lemma EveryRunAccounts(steps: seq<Step>, tenant: string, quotaType: string)
    requires NamedRun(steps) && TotalAsked(steps) <= MAX_INT && ':' !in tenant
    ensures var w := Exec(Start(), steps);
            var u, log := UsageOf(w.st, tenant, quotaType), LogOf(w, tenant, quotaType);
            var p := Current(quotaType, log);
            && (u.Some? <==> p.Some?)
            && (u.Some? ==> u.value.used == p.value.sum && u.value.start == p.value.start && 0 <= u.value.used)
            && WithinLimits(quotaType, log)
  {
    RunKeeps(steps);
    assert Accounted(Exec(Start(), steps), tenant, quotaType, TotalAsked(steps));
  }

  // ----- Unknown types and overflow in whole runs -----

  /** After any run within 64 bits, whatever is consumed next is granted beyond its limit exactly when the sum has no
      room. */
  lemma NextOverflowExact(steps: seq<Step>, tenant: string, quotaType: string, amount: int, now: int)
    requires NamedRun(steps) && TotalAsked(steps) <= MAX_INT && ':' !in tenant && 0 <= amount <= MAX_INT
    ensures var st := Exec(Start(), steps).st;
            var u, (st', r) := Opened(st, tenant, quotaType, now), ConsumeStep(st, tenant, quotaType, amount, now);
            && (r.Ok? && u.used + amount > u.limit <==> u.used + amount > MAX_INT)
            && (UsageOf(st', tenant, quotaType).value.used < 0 <==> u.used + amount > MAX_INT)
  {
    RunKeeps(steps);
    var w := Exec(Start(), steps);
    assert Accounted(w, tenant, quotaType, TotalAsked(steps));
    OpenedInRange(w.st, tenant, quotaType, Current(quotaType, LogOf(w, tenant, quotaType)), TotalAsked(steps), now);
    hide Opened, ConsumeStep, UsageOf, Exec, Inv;
    OverflowExact(w.st, tenant, quotaType, amount, now);
  }

  lemma OpenedInRange(st: State, tenant: string, quotaType: string, p: Option<Period>, spent: int, now: int)
    requires SameUsage(quotaType, UsageOf(st, tenant, quotaType), p, spent) && 0 <= spent <= MAX_INT
    requires forall q :: q in st.limits ==> 0 < st.limits[q] <= MAX_INT
    ensures var u := Opened(st, tenant, quotaType, now); 0 <= u.used <= spent && 0 < u.limit <= MAX_INT
  {
    hide Duration, PeriodFor, Key;
  }

  /** Such a run: one unit and then 2^63-1 units of an unknown type within a tenth of a second, both granted. */
  lemma OverflowReached(tenant: string, quotaType: string, t1: int, t2: int)
    requires quotaType !in DefaultLimits() && t2 - t1 < SECOND / 10
    ensures var w := Exec(Start(), [Consume(tenant, quotaType, 1, t1), Consume(tenant, quotaType, MAX_INT, t2)]);
            && LogOf(w, tenant, quotaType) ==
               [Granted(t1, 1, MAX_INT, MAX_INT - 1), Granted(t2, MAX_INT, MAX_INT, -1)]
            && UsageOf(w.st, tenant, quotaType) == Some(Usage(-MAX_INT - 1, MAX_INT, "short", t1))
  {
    var s1, s2 := Consume(tenant, quotaType, 1, t1), Consume(tenant, quotaType, MAX_INT, t2);
    assert [s1, s2][1..] == [s2] && [s2][1..] == [];
    assert PeriodFor(quotaType) == "short";
    hide PeriodFor, DefaultLimits, Key;
    var w1 := Next(Start(), s1);
    assert UsageOf(w1.st, tenant, quotaType) == Some(Usage(1, MAX_INT, "short", t1));
    assert LogOf(w1, tenant, quotaType) == [Granted(t1, 1, MAX_INT, MAX_INT - 1)];
    assert Wrap(1 + MAX_INT) == -MAX_INT - 1 && Wrap(MAX_INT - (-MAX_INT - 1)) == -1;
    var w2 := Next(w1, s2);
    assert Exec(Start(), [s1, s2]) == Exec(w1, [s2]) == w2;
  }

  /** No limit is set for the type. */
  ghost predicate NeverLimited(steps: seq<Step>, quotaType: string) {
    forall s :: s in steps && s.SetLimit? ==> s.quotaType != quotaType
  }

  ghost predicate Unlimited(st: State, tenant: string, quotaType: string) {
    && quotaType !in st.limits
    && (UsageOf(st, tenant, quotaType).Some? ==> UsageOf(st, tenant, quotaType).value.limit == MAX_INT)
  }

  lemma NextUnlimited(w: World, s: Step, tenant: string, quotaType: string)
    requires Unlimited(w.st, tenant, quotaType) && NamedStep(s) && ':' !in tenant
    requires s.SetLimit? ==> s.quotaType != quotaType
    ensures Unlimited(Next(w, s).st, tenant, quotaType)
  {
    UsageKeysDistinct("", s.tenant, s.quotaType, tenant, quotaType);
    hide Duration, PeriodFor, Wrap;
  }

  lemma {:induction false} ExecUnlimited(w: World, steps: seq<Step>, tenant: string, quotaType: string)
    requires Unlimited(w.st, tenant, quotaType) && NamedRun(steps) && ':' !in tenant && NeverLimited(steps, quotaType)
    ensures Unlimited(Exec(w, steps).st, tenant, quotaType)
    decreases |steps|
  {
    if steps != [] {
      assert steps[0] in steps;
      hide Unlimited, NamedStep, Next;
      NextUnlimited(w, steps[0], tenant, quotaType);
      ExecUnlimited(Next(w, steps[0]), steps[1..], tenant, quotaType);
    }
  }

  /** At any point of any run, a type without a limit fails every check, and every consumption of it succeeds, as long
      as the run stays within 64 bits. */
  lemma UnknownTypeUnlimited(steps: seq<Step>, tenant: string, quotaType: string, amount: int, now: int)
    requires NamedRun(steps) && NeverLimited(steps, quotaType) && quotaType !in DefaultLimits() && ':' !in tenant
    requires 0 <= amount && TotalAsked(steps) + amount <= MAX_INT
    ensures var st := Exec(Start(), steps).st;
            && CheckAt(st, tenant, quotaType, amount).Err?
            && ConsumeStep(st, tenant, quotaType, amount, now).1 ==
               Ok(MAX_INT - (Opened(st, tenant, quotaType, now).used + amount))
  {
    RunKeeps(steps);
    ExecUnlimited(Start(), steps, tenant, quotaType);
    var w := Exec(Start(), steps);
    assert Accounted(w, tenant, quotaType, TotalAsked(steps));
    hide Exec, Inv, Duration, PeriodFor, Key, Current, WithinLimits;
    OpenedInRange(w.st, tenant, quotaType, Current(quotaType, LogOf(w, tenant, quotaType)), TotalAsked(steps), now);
  }

  // ----- The manager -----

  // ----- The four types that come with a limit -----

  /** Used up in one consumption, each of the four built-in quotas grants the next unit exactly after its period: 24
      hours for daily requests, 30 days for monthly ones, and a tenth of a second for the others. */
  lemma RenewedIff(tenant: string, quotaType: string, limit: int, period: int, now: int, d: nat)
    requires (quotaType, limit, period) in {("api_requests_daily", 5000, 86_400_000_000_000),
                                            ("api_requests_monthly", 100000, 2_592_000_000_000_000),
                                            ("database_rows", 1000000, 100_000_000),
                                            ("storage_bytes", 1073741824, 100_000_000)}
    ensures var w := Exec(Start(), [Consume(tenant, quotaType, limit, now), Consume(tenant, quotaType, 1, now + d)]);
            LogOf(w, tenant, quotaType) ==
            [Granted(now, limit, limit, 0), if d >= period then Granted(now + d, 1, limit, limit - 1)
             else Refused(now + d)]
  {
    var first, second := Consume(tenant, quotaType, limit, now), Consume(tenant, quotaType, 1, now + d);
    var w1 := Next(Start(), first);
    var u := UsageOf(w1.st, tenant, quotaType).value;
    assert u.used == limit == u.limit && u.start == now && Duration(u.period) == Some(period);
    assert LogOf(w1, tenant, quotaType) == [] + [Granted(now, limit, limit, 0)] == [Granted(now, limit, limit, 0)];
    var w2 := Next(w1, second);
    assert [first, second][1..] == [second] && [second][1..] == [];
    assert Exec(w2, []) == w2 && Exec(w1, [second]) == Exec(w2, []);
  }


  class InMemoryQuotaManager {
    var limits: map<string, int>
    var usage: map<string, Usage>
    var lastRun: map<string, int>

    function Abs(): State
      reads this
    {
      State(limits, usage)
    }

    constructor ()
      ensures Abs() == State(DefaultLimits(), map[]) && lastRun == map[]
    {
      limits, usage, lastRun := DefaultLimits(), map[], map[];
    }

    /** Calls without a tenant are metered together. */
    static function TenantOf(context: Option<string>): (tenant: string)
      ensures context.None? ==> tenant == "default-tenant"
    {
      if context.Some? then context.value else "default-tenant"
    }

    method CheckQuota(context: Option<string>, quotaType: string, amount: int) returns (r: Outcome<bool>)
      ensures r == CheckAt(Abs(), TenantOf(context), quotaType, amount)
    {
      if amount < 0 {
        return Err("amount must be non-negative");
      }
      var key := Key(TenantOf(context), quotaType);
      if quotaType !in limits {
        return Err("unknown quota type: " + quotaType);
      }
      if key !in usage {
        return Ok(amount <= limits[quotaType]);
      }
      return Ok(Wrap(usage[key].used + amount) <= usage[key].limit);
    }

    method ConsumeQuota(context: Option<string>, quotaType: string, amount: int, now: int) returns (r: Outcome<int>)
      modifies this`usage
      ensures (Abs(), r) == ConsumeStep(old(Abs()), TenantOf(context), quotaType, amount, now)
    {
      hide Duration, PeriodFor, Wrap;
      if amount < 0 {
        return Err("amount must be non-negative");
      }
      var key := Key(TenantOf(context), quotaType);
      ghost var before := usage;
      if key !in usage {
        var limit := if quotaType in limits then limits[quotaType] else MAX_INT;
        usage := usage[key := Usage(0, limit, PeriodFor(quotaType), now)];
      } else if ShouldReset(usage[key], now) {
        usage := usage[key := usage[key].(used := 0, start := now)];
      }
      var u := usage[key];
      assert u == Opened(old(Abs()), TenantOf(context), quotaType, now);
      assert usage == before[key := u];
      if Wrap(u.used + amount) > u.limit {
        return Err("quota exceeded");
      }
      var newUsed := Wrap(u.used + amount);
      usage := usage[key := u.(used := newUsed)];
      assert usage == before[key := u.(used := newUsed)];
      return Ok(Wrap(u.limit - newUsed));
    }

    method GetUsage(context: Option<string>, quotaType: string) returns (used: int, limit: int)
      ensures match UsageOf(Abs(), TenantOf(context), quotaType)
              case None => used == 0 && limit == if quotaType in limits then limits[quotaType] else 0
              case Some(u) => used == u.used && limit == u.limit
    {
      var key := Key(TenantOf(context), quotaType);
      if key !in usage {
        return 0, if quotaType in limits then limits[quotaType] else 0;
      }
      return usage[key].used, usage[key].limit;
    }

    method ResetQuota(context: Option<string>, quotaType: string, now: int)
      modifies this
      ensures Abs() == ResetStep(old(Abs()), TenantOf(context), quotaType, now)
      ensures lastRun == if UsageOf(old(Abs()), TenantOf(context), quotaType).Some? then old(lastRun)[quotaType := now]
                         else old(lastRun)
    {
      var key := Key(TenantOf(context), quotaType);
      if key !in usage {
        return;
      }
      usage := usage[key := usage[key].(used := 0, start := now)];
      lastRun := lastRun[quotaType := now];
    }

    method SetLimit(context: Option<string>, quotaType: string, limit: int) returns (error: Option<string>)
      modifies this
      ensures error.None? <==> limit > 0
      ensures Abs() == SetLimitStep(old(Abs()), TenantOf(context), quotaType, limit)
      ensures lastRun == old(lastRun)
    {
      if limit <= 0 {
        return Some("limit must be positive");
      }
      var key := Key(TenantOf(context), quotaType);
      limits := limits[quotaType := limit];
      if key in usage {
        usage := usage[key := usage[key].(limit := limit)];
      }
      return None;
    }
  }
}
