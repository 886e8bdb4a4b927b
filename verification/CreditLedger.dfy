/** The credit ledger: one account an anchor, kept in a store read and written one account at a time. */
module CreditLedger {
  import opened Wrappers
  import opened Sums
  import T = Throttle

  datatype Tier = Free | Credit | Paid | Provider

  datatype Account = Account(anchor: string, usageBytes: nat, usageSeconds: nat, debt: int, limit: int,
                             paymentCount: nat, lastPayment: nat, tier: Tier, trialAccepted: bool,
                             advanced: bool, lastNudge: nat)

  datatype Settings = Settings(trialCredit: int, linkedCredit: int, growth: real, softNudge: real,
                               policy: T.Policy, nudgeInterval: nat, advancedAfter: nat)

  datatype Status = Status(account: Account, utilization: real, premiumAllowed: bool, factor: real, fallsBack: bool)

  datatype Nudge = ThrottleActive | UrgePayment | SoftReminder

  type Store = map<string, Account>

  const BYTES_PER_GB: nat := 1_000_000_000

  const I64_MIN := -0x8000_0000_0000_0000

  type I64 = x: int | I64_MIN <= x <= I64_MAX

  /** Debt grows by the price of the bytes, rounded up to a whole micro-USDC. */
  function MicroForUsage(bytes: nat, price: nat): nat { (bytes * price + BYTES_PER_GB - 1) / BYTES_PER_GB }

  function ChargeFor(bytes: nat, price: nat): nat { Min(MicroForUsage(bytes, price), I64_MAX) }

  function BaseLimit(st: Settings, linked: bool): int { if linked then st.linkedCredit else st.trialCredit }

  function WrapI64(x: int): int { (x + 0x8000_0000_0000_0000) % 0x1_0000_0000_0000_0000 - 0x8000_0000_0000_0000 }

  /** `f64::round` (half away from zero) followed by `as i64`, which saturates. */
  function RoundToI64(x: real): int
  {
    var r := if x >= 0.0 then (x + 0.5).Floor else -((-x + 0.5).Floor);
    Max(I64_MIN, Min(r, I64_MAX))
  }

  /** The limit a payment earns, before the floor of the base limit. */
  function Grown(st: Settings, limit: int): int { RoundToI64(limit as real * st.growth) }

  function Opened(st: Settings, anchor: string, linked: bool): Account
  {
    Account(anchor, 0, 0, 0, BaseLimit(st, linked), 0, 0, Free, false, false, 0)
  }

  function EnsureLimit(st: Settings, a: Account, linked: bool): Account
  {
    a.(limit := Max(a.limit, BaseLimit(st, linked)), advanced := a.advanced || a.paymentCount >= st.advancedAfter)
  }

  /** The account an operation works on. */
  function Loaded(st: Settings, db: Store, anchor: string, linked: bool): Account
  {
    if anchor in db then EnsureLimit(st, db[anchor], linked) else Opened(st, anchor, linked)
  }

  /** Loading creates a missing account in the store, and leaves a present one as it is. */
  function AfterLoad(st: Settings, db: Store, anchor: string, linked: bool): Store
  {
    if anchor in db then db else db[anchor := Opened(st, anchor, linked)]
  }

  function Save(db: Store, a: Account): Store { db[a.anchor := a] }

  function PaidTier(a: Account): Tier { if a.paymentCount > 0 then Paid else Credit }

  function Trialled(a: Account): Account { a.(trialAccepted := true, tier := PaidTier(a)) }

  function Used(st: Settings, a: Account, linked: bool, bytes: nat, seconds: nat, price: nat): Account
  {
    var a1 := a.(usageBytes := SatAdd(a.usageBytes, bytes, U64_MAX),
                 usageSeconds := SatAdd(a.usageSeconds, seconds, U64_MAX));
    var a2 := if price == 0 then a1 else
      a1.(debt := Min(a.debt + ChargeFor(bytes, price), I64_MAX),
          tier := if a.trialAccepted then PaidTier(a) else a.tier);
    EnsureLimit(st, a2, linked).(advanced := a.paymentCount >= st.advancedAfter)
  }

  function Settled(st: Settings, a: Account, linked: bool, amount: int, now: nat): Account
  {
    var count := SatAdd(a.paymentCount, 1, U32_MAX);
    a.(debt := Max(WrapI64(a.debt - amount), 0), paymentCount := count, lastPayment := now,
       limit := Max(Grown(st, a.limit), BaseLimit(st, linked)),
       tier := Paid, advanced := count >= st.advancedAfter)
  }

  function Merged(st: Settings, from: Account, to: Account, linked: bool): Account
  {
    to.(usageBytes := SatAdd(to.usageBytes, from.usageBytes, U64_MAX),
        usageSeconds := SatAdd(to.usageSeconds, from.usageSeconds, U64_MAX),
        debt := Min(to.debt + from.debt, I64_MAX),
        limit := Max(Max(to.limit, from.limit), BaseLimit(st, linked)),
        paymentCount := Max(to.paymentCount, from.paymentCount),
        lastPayment := Max(to.lastPayment, from.lastPayment),
        trialAccepted := to.trialAccepted || from.trialAccepted,
        advanced := to.advanced || from.advanced,
        tier := if from.tier == Provider then Provider
                else if from.tier == Paid then Paid
                else if from.trialAccepted then Credit
                else to.tier)
  }

  function Checked(st: Settings, a: Account, linked: bool): Account
  {
    EnsureLimit(st, a, linked).(advanced := a.paymentCount >= st.advancedAfter)
  }

  function StatusOf(st: Settings, a: Account): Status
  {
    var u := T.Utilization(a.debt, a.limit);
    Status(a, u, a.trialAccepted && !T.FallsBack(st.policy, u), T.Factor(st.policy, u), T.FallsBack(st.policy, u))
  }

  /** What a status says, in terms of the account alone: premium is for those on trial or paid terms who owe less than
      the fallback share of their limit, and the rest of the curve is that of the speed factor. */
  lemma StatusExactly(st: Settings, a: Account)
    ensures var s, limit, owed := StatusOf(st, a), Max(a.limit, 1) as real, Max(a.debt, 0) as real;
            && s.account == a && s.utilization * limit == owed
            && (s.fallsBack <==> owed >= st.policy.fallback * limit)
            && (s.premiumAllowed <==> a.trialAccepted && owed < st.policy.fallback * limit)
            && (owed < st.policy.softThrottle * limit ==> s.factor == 1.0)
            && (st.policy.softThrottle <= st.policy.fallback && s.fallsBack ==> s.factor == st.policy.minSpeed)
  {
    var u, limit := T.Utilization(a.debt, a.limit), Max(a.limit, 1) as real;
    T.UtilizationExactly(a.debt, a.limit);
    T.FactorExactly(st.policy, u);
    hide T.Utilization, T.Factor;
    Shares(u, st.policy.fallback, limit);
    Shares(u, st.policy.softThrottle, limit);
  }

  lemma Shares(u: real, v: real, k: real)
    requires k > 0.0
    ensures u < v <==> u * k < v * k
  {
  }

  /** The nudge due at time `now`, if any. A clock behind the last nudge counts as no time having passed. */
  function NudgeFor(st: Settings, a: Account, now: nat): Option<Nudge>
  {
    var u := T.Utilization(a.debt, a.limit);
    if (if now > a.lastNudge then now - a.lastNudge else 0) < st.nudgeInterval then None
    else if u >= st.policy.fallback then Some(ThrottleActive)
    else if u >= st.policy.softThrottle then Some(UrgePayment)
    else if u >= st.softNudge then Some(SoftReminder)
    else None
  }

  /** The limit that a payment earns is the old one times the growth factor, to the nearest unit, as far as an `i64`
      goes. */
  lemma GrownExactly(st: Settings, limit: int)
    ensures var x := limit as real * st.growth;
            if x > I64_MAX as real then Grown(st, limit) == I64_MAX
            else if x < I64_MIN as real then Grown(st, limit) == I64_MIN
            else -0.5 <= Grown(st, limit) as real - x <= 0.5
  {
    var x := limit as real * st.growth;
    assert Grown(st, limit) == RoundToI64(x);
    RoundsToNearest(x);
  }

  lemma RoundsToNearest(x: real)
    ensures if x > I64_MAX as real then RoundToI64(x) == I64_MAX
            else if x < I64_MIN as real then RoundToI64(x) == I64_MIN
            else -0.5 <= RoundToI64(x) as real - x <= 0.5
  {
    if x < I64_MIN as real {
      var f := (-x + 0.5).Floor;
      assert f as real > -x - 0.5 && -x > 0x8000_0000_0000_0000 as real;
      assert f as real > 0x7FFF_FFFF_FFFF_FFFF as real;
    }
  }

  /** Which nudge is sent depends on the share of the limit that is owed alone: the alarm from fallback on, the urging
      from the soft threshold up to it, and the reminder below both. */
  lemma NudgeKinds(st: Settings, a: Account, now: nat)
    requires NudgeFor(st, a, now).Some?
    ensures var n, u := NudgeFor(st, a, now).value, T.Utilization(a.debt, a.limit);
            && (n.ThrottleActive? <==> u >= st.policy.fallback)
            && (n.UrgePayment? <==> st.policy.softThrottle <= u < st.policy.fallback)
            && (n.SoftReminder? <==> u < st.policy.softThrottle && u < st.policy.fallback)
            && (n.SoftReminder? ==> u >= st.softNudge)
  {
    hide T.Utilization;
  }

  // ---- the ledger as a transition function ----

  datatype Event =
    | Trial(anchor: string, linked: bool)
    | Usage(anchor: string, linked: bool, bytes: nat, seconds: nat, price: nat)
    | Payment(anchor: string, linked: bool, amount: I64, now: nat)
    | Merge(anchor: string, to: string, linked: bool)
    | Check(anchor: string, linked: bool)
    | Remind(anchor: string, linked: bool, now: nat)
    | Get(anchor: string, linked: bool)

  function Apply(st: Settings, db: Store, e: Event): Store
  {
    match e
    case Trial(k, l) => Save(AfterLoad(st, db, k, l), Trialled(Loaded(st, db, k, l)))
    case Usage(k, l, b, s, p) => Save(AfterLoad(st, db, k, l), Used(st, Loaded(st, db, k, l), l, b, s, p))
    case Payment(k, l, amount, now) => Save(AfterLoad(st, db, k, l), Settled(st, Loaded(st, db, k, l), l, amount, now))
    case Merge(from, to, l) =>
      if from == to || from !in db then AfterLoad(st, db, to, l)
      else Save(AfterLoad(st, db, to, l), Merged(st, db[from], Loaded(st, db, to, l), l)) - {from}
    case Check(k, l) => Save(AfterLoad(st, db, k, l), Checked(st, Loaded(st, db, k, l), l))
    case Remind(k, l, now) =>
      var a := EnsureLimit(st, Loaded(st, db, k, l), l);
      if NudgeFor(st, a, now).None? then AfterLoad(st, db, k, l)
      else Save(AfterLoad(st, db, k, l), a.(lastNudge := now))
    case Get(k, l) => AfterLoad(st, db, k, l)
  }

  function Run(st: Settings, es: seq<Event>): Store
    decreases |es|
  {
    if es == [] then map[] else Apply(st, Run(st, es[..|es| - 1]), es[|es| - 1])
  }

  /** Every account is filed under its own anchor. */
  ghost predicate FiledByAnchor(db: Store) { forall k :: k in db ==> db[k].anchor == k }

  lemma ApplyFiles(st: Settings, db: Store, e: Event)
    requires FiledByAnchor(db)
    ensures FiledByAnchor(Apply(st, db, e))
  {
  }

  // ---- the ledger as the program writes it ----

  class Ledger {
    var db: Store
    const settings: Settings

    constructor (settings: Settings)
      ensures db == map[] && this.settings == settings
    {
      db := map[];
      this.settings := settings;
    }

    method LoadOrCreate(anchor: string, linked: bool) returns (account: Account)
      modifies this
      ensures account == Loaded(settings, old(db), anchor, linked)
      ensures db == AfterLoad(settings, old(db), anchor, linked)
      ensures FiledByAnchor(old(db)) ==> account.anchor == anchor
    {
      if anchor in db {
        account := EnsureLimit(settings, db[anchor], linked);
      } else {
        account := Opened(settings, anchor, linked);
        Put(account);
      }
    }

    method Put(account: Account)
      modifies this
      ensures db == Save(old(db), account)
    {
      db := db[account.anchor := account];
    }

    method AcceptTrial(anchor: string, linked: bool) returns (account: Account)
      requires FiledByAnchor(db)
      modifies this
      ensures db == Apply(settings, old(db), Trial(anchor, linked)) && FiledByAnchor(db) && db[anchor] == account
    {
      account := LoadOrCreate(anchor, linked);
      account := account.(trialAccepted := true);
      account := account.(tier := if account.paymentCount > 0 then Paid else Credit);
      Put(account);
    }

    method RecordUsage(anchor: string, linked: bool, bytes: nat, seconds: nat, price: nat) returns (account: Account)
      requires FiledByAnchor(db)
      modifies this
      ensures db == Apply(settings, old(db), Usage(anchor, linked, bytes, seconds, price)) && FiledByAnchor(db)
              && db[anchor] == account
    {
      account := LoadOrCreate(anchor, linked);
      account := account.(usageBytes := SatAdd(account.usageBytes, bytes, U64_MAX));
      account := account.(usageSeconds := SatAdd(account.usageSeconds, seconds, U64_MAX));
      if price > 0 {
        var increment := Min(MicroForUsage(bytes, price), I64_MAX);
        account := account.(debt := Min(account.debt + increment, I64_MAX));
        if account.trialAccepted {
          account := account.(tier := if account.paymentCount > 0 then Paid else Credit);
        }
      }
      account := EnsureLimit(settings, account, linked);
      account := account.(advanced := account.paymentCount >= settings.advancedAfter);
      Put(account);
    }

    method RecordPayment(anchor: string, linked: bool, amount: I64, now: nat) returns (account: Account)
      requires FiledByAnchor(db)
      modifies this
      ensures db == Apply(settings, old(db), Payment(anchor, linked, amount, now)) && FiledByAnchor(db)
              && db[anchor] == account
    {
      hide WrapI64, Grown;
      ApplyFiles(settings, db, Payment(anchor, linked, amount, now));
      account := LoadOrCreate(anchor, linked);
      account := account.(debt := Max(WrapI64(account.debt - amount), 0));
      account := account.(paymentCount := SatAdd(account.paymentCount, 1, U32_MAX));
      account := account.(lastPayment := now);
      var grown := Grown(settings, account.limit);
      account := account.(limit := Max(grown, BaseLimit(settings, linked)));
      account := account.(tier := Paid);
      account := account.(advanced := account.paymentCount >= settings.advancedAfter);
      Put(account);
    }

    method MergeAccounts(fromAnchor: string, toAnchor: string, linked: bool) returns (account: Account)
      requires FiledByAnchor(db)
      modifies this
      ensures db == Apply(settings, old(db), Merge(fromAnchor, toAnchor, linked)) && FiledByAnchor(db)
    {
      hide Max, Min, SatAdd, BaseLimit, EnsureLimit;
      ApplyFiles(settings, db, Merge(fromAnchor, toAnchor, linked));
      if fromAnchor == toAnchor {
        account := LoadOrCreate(toAnchor, linked);
        return;
      }
      if fromAnchor !in db {
        account := LoadOrCreate(toAnchor, linked);
        return;
      }
      var from := db[fromAnchor];
      account := LoadOrCreate(toAnchor, linked);
      account := account.(usageBytes := SatAdd(account.usageBytes, from.usageBytes, U64_MAX));
      account := account.(usageSeconds := SatAdd(account.usageSeconds, from.usageSeconds, U64_MAX));
      account := account.(debt := Min(account.debt + from.debt, I64_MAX));
      account := account.(limit := Max(Max(account.limit, from.limit), BaseLimit(settings, linked)));
      account := account.(paymentCount := Max(account.paymentCount, from.paymentCount));
      account := account.(lastPayment := Max(account.lastPayment, from.lastPayment));
      account := account.(trialAccepted := account.trialAccepted || from.trialAccepted);
      account := account.(advanced := account.advanced || from.advanced);
      if from.tier == Provider {
        account := account.(tier := Provider);
      } else if from.tier == Paid {
        account := account.(tier := Paid);
      } else if from.trialAccepted {
        account := account.(tier := Credit);
      }
      Put(account);
      db := db - {fromAnchor};
    }

    method CheckCredit(anchor: string, linked: bool) returns (status: Status)
      requires FiledByAnchor(db)
      modifies this
      ensures db == Apply(settings, old(db), Check(anchor, linked)) && FiledByAnchor(db)
      ensures anchor in db && status == StatusOf(settings, db[anchor])
    {
      var account := LoadOrCreate(anchor, linked);
      account := EnsureLimit(settings, account, linked);
      account := account.(advanced := account.paymentCount >= settings.advancedAfter);
      Put(account);
      var limit := Max(account.limit, 1);
      var utilization := Max(account.debt, 0) as real / limit as real;
      var fallsBack := utilization >= settings.policy.fallback;
      status := Status(account, utilization, account.trialAccepted && !fallsBack,
                       T.Factor(settings.policy, utilization), fallsBack);
    }

    method ShouldNudge(anchor: string, linked: bool, now: nat) returns (nudge: Option<Nudge>)
      requires FiledByAnchor(db)
      modifies this
      ensures db == Apply(settings, old(db), Remind(anchor, linked, now)) && FiledByAnchor(db)
      ensures nudge == NudgeFor(settings, EnsureLimit(settings, Loaded(settings, old(db), anchor, linked), linked), now)
    {
      var account := LoadOrCreate(anchor, linked);
      account := EnsureLimit(settings, account, linked);
      var utilization := T.Utilization(account.debt, account.limit);
      if Max(now - account.lastNudge, 0) < settings.nudgeInterval { return None; }
      if utilization >= settings.policy.fallback {
        nudge := Some(ThrottleActive);
      } else if utilization >= settings.policy.softThrottle {
        nudge := Some(UrgePayment);
      } else if utilization >= settings.softNudge {
        nudge := Some(SoftReminder);
      } else {
        nudge := None;
      }
      if nudge.Some? {
        account := account.(lastNudge := now);
        Put(account);
      }
    }
  }
}
