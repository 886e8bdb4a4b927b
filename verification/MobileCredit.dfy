/** The mobile runtime over the ledger: usage goes to the installation's anchor until a Telegram user is logged in,
    and the installation's account is merged into that user's when the login is first seen. */
module MobileCredit {
  import opened Wrappers
  import opened Sums
  import opened CreditLedger
  import CreditRuns
  import T = Throttle

  /** The anchors of one installation: its own, and each Telegram user's. */
  datatype Anchors = Anchors(install: string, telegram: nat -> string)

  datatype Mobile = Mobile(db: Store, promoted: string, user: Option<nat>)

  datatype Context = Context(anchor: string, linked: bool)

  /** `Use` is one finished transfer; the others that touch the ledger first work out whose account is meant. */
  datatype Event =
    | Login(user: nat)
    | Logout
    | Use(bytes: nat, seconds: nat, price: nat)
    | Status
    | Reminder(now: nat)
    | TakeTrial

  function Resolved(st: Settings, w: Anchors, m: Mobile): (Mobile, Context)
  {
    match m.user
    case None => (m, Context(w.install, false))
    case Some(u) =>
      var anchor := w.telegram(u);
      (if m.promoted == anchor then m
       else m.(db := Apply(st, m.db, Merge(w.install, anchor, true)), promoted := anchor),
       Context(anchor, true))
  }

  function Step(st: Settings, w: Anchors, m: Mobile, e: Event): Mobile
  {
    match e
    case Login(u) => m.(user := Some(u))
    case Logout => m.(user := None)
    case Use(b, s, p) =>
      if p == 0 then m else
      var (m', c) := Resolved(st, w, m);
      m'.(db := Apply(st, m'.db, Usage(c.anchor, c.linked, b, Max(s, 1), p)))
    case Status =>
      var (m', c) := Resolved(st, w, m);
      m'.(db := Apply(st, m'.db, Check(c.anchor, c.linked)))
    case Reminder(now) =>
      var (m', c) := Resolved(st, w, m);
      m'.(db := Apply(st, m'.db, Remind(c.anchor, c.linked, now)))
    case TakeTrial =>
      var (m', c) := Resolved(st, w, m);
      m'.(db := Apply(st, m'.db, Trial(c.anchor, c.linked)))
  }

  const START := Mobile(map[], "", None)

  function Run(st: Settings, w: Anchors, es: seq<Event>): Mobile
    decreases |es|
  {
    if es == [] then START else Step(st, w, Run(st, w, es[..|es| - 1]), es[|es| - 1])
  }

  // ---- conservation ----

  /** The three running totals of an account. */
  datatype Field = Bytes | Seconds | DebtOwed

  function Value(f: Field, a: Account): int
  {
    match f case Bytes => a.usageBytes case Seconds => a.usageSeconds case DebtOwed => a.debt
  }

  function Cap(f: Field): nat { match f case Bytes => U64_MAX case Seconds => U64_MAX case DebtOwed => I64_MAX }

  /** What one event records. */
  function Recorded1(f: Field, e: Event): nat
  {
    if !e.Use? || e.price == 0 then 0 else
    match f case Bytes => e.bytes case Seconds => Max(e.seconds, 1) case DebtOwed => ChargeFor(e.bytes, e.price)
  }

  function Recorded(f: Field, es: seq<Event>): nat
    decreases |es|
  {
    if es == [] then 0 else Recorded(f, es[..|es| - 1]) + Recorded1(f, es[|es| - 1])
  }

  /** The whole ledger's total. */
  ghost function LedgerTotal(f: Field, db: Store): int { Total(db, (a: Account) => Value(f, a)) }

  ghost predicate Nonnegative(db: Store) { forall k :: k in db ==> db[k].debt >= 0 }

  ghost predicate Sound(db: Store) { FiledByAnchor(db) && Nonnegative(db) }

  lemma LoadKeepsTotal(st: Settings, db: Store, k: string, linked: bool, f: Field)
    requires Sound(db)
    ensures var db' := AfterLoad(st, db, k, linked);
            Sound(db') && k in db' && LedgerTotal(f, db') == LedgerTotal(f, db)
            && Value(f, Loaded(st, db, k, linked)) == Value(f, db'[k]) && Loaded(st, db, k, linked).anchor == k
  {
    if k !in db { TotalSet(db, k, Opened(st, k, linked), (a: Account) => Value(f, a)); }
  }

  /** Saving an account over itself moves the total by the change in that account. */
  lemma SaveMovesTotal(db: Store, a: Account, f: Field)
    requires a.anchor in db
    ensures LedgerTotal(f, Save(db, a)) == LedgerTotal(f, db) + Value(f, a) - Value(f, db[a.anchor])
  {
    TotalSet(db, a.anchor, a, (x: Account) => Value(f, x));
  }

  lemma AccountWithinTotal(db: Store, k: string, f: Field)
    requires Nonnegative(db) && k in db
    ensures 0 <= Value(f, db[k]) <= LedgerTotal(f, db)
  {
    TotalNonneg(db, (a: Account) => Value(f, a));
  }

  /** An operation that is neither a payment nor past the cap adds what it records to the ledger's total. */
  lemma UsageAddsToTotal(st: Settings, db: Store, k: string, linked: bool, bytes: nat, seconds: nat, price: nat,
                         f: Field)
    requires Sound(db) && price > 0
    ensures var db' := Apply(st, db, Usage(k, linked, bytes, seconds, price));
            var added := match f case Bytes => bytes case Seconds => seconds case DebtOwed => ChargeFor(bytes, price);
            && Sound(db') && LedgerTotal(f, db') <= LedgerTotal(f, db) + added
            && (LedgerTotal(f, db) + added <= Cap(f) ==> LedgerTotal(f, db') == LedgerTotal(f, db) + added)
  {
    var db1 := AfterLoad(st, db, k, linked);
    var a := Loaded(st, db, k, linked);
    LoadKeepsTotal(st, db, k, linked, f);
    AccountWithinTotal(db1, k, f);
    hide ChargeFor, BaseLimit;
    SaveMovesTotal(db1, Used(st, a, linked, bytes, seconds, price), f);
  }

  lemma MergeKeepsTotal(st: Settings, db: Store, from: string, to: string, linked: bool, f: Field)
    requires Sound(db)
    ensures var db' := Apply(st, db, Merge(from, to, linked));
            && Sound(db') && LedgerTotal(f, db') <= LedgerTotal(f, db)
            && (LedgerTotal(f, db) <= Cap(f) ==> LedgerTotal(f, db') == LedgerTotal(f, db))
  {
    LoadKeepsTotal(st, db, to, linked, f);
    if from != to && from in db {
      var db1, a := AfterLoad(st, db, to, linked), Loaded(st, db, to, linked);
      assert db1[from] == db[from];
      FoldInto(st, db1, from, a, linked, f);
    }
  }

  /** Saving the merged account and removing the other one. */
  lemma FoldInto(st: Settings, db: Store, from: string, to: Account, linked: bool, f: Field)
    requires Sound(db) && from in db && to.anchor in db && from != to.anchor && Value(f, to) == Value(f, db[to.anchor])
             && to.debt >= 0
    ensures var db' := Save(db, Merged(st, db[from], to, linked)) - {from};
            && Sound(db') && LedgerTotal(f, db') <= LedgerTotal(f, db)
            && (LedgerTotal(f, db) <= Cap(f) ==> LedgerTotal(f, db') == LedgerTotal(f, db))
  {
    hide BaseLimit;
    var g := (a: Account) => Value(f, a);
    var merged := Merged(st, db[from], to, linked);
    var saved := Save(db, merged);
    SaveMovesTotal(db, merged, f);
    TotalSplit(saved, from, g);
    AccountWithinTotal(db, from, f);
    AccountWithinTotal(db, to.anchor, f);
    TwoWithinTotal(db, from, to.anchor, f);
    assert Value(f, merged) == Min(Value(f, to) + Value(f, db[from]), Cap(f)) by { hide Total; }
  }

  lemma TwoWithinTotal(db: Store, j: string, k: string, f: Field)
    requires Nonnegative(db) && j in db && k in db && j != k
    ensures Value(f, db[j]) + Value(f, db[k]) <= LedgerTotal(f, db)
  {
    TotalSplit(db, j, (a: Account) => Value(f, a));
    assert (db - {j})[k] == db[k];
    AccountWithinTotal(db - {j}, k, f);
  }

  /** The operations that only look, flag or remind. */
  lemma QuietKeepsTotal(st: Settings, db: Store, e: CreditLedger.Event, f: Field)
    requires Sound(db) && (e.Trial? || e.Check? || e.Remind?)
    ensures Sound(Apply(st, db, e)) && LedgerTotal(f, Apply(st, db, e)) == LedgerTotal(f, db)
  {
    var db1, a := AfterLoad(st, db, e.anchor, e.linked), Loaded(st, db, e.anchor, e.linked);
    LoadKeepsTotal(st, db, e.anchor, e.linked, f);
    hide NudgeFor, BaseLimit;
    match e
    case Trial(_, _) => SaveMovesTotal(db1, Trialled(a), f);
    case Check(_, l) => SaveMovesTotal(db1, Checked(st, a, l), f);
    case Remind(_, l, now) => SaveMovesTotal(db1, EnsureLimit(st, a, l).(lastNudge := now), f);
  }

  lemma ResolveKeepsTotal(st: Settings, w: Anchors, m: Mobile, f: Field)
    requires Sound(m.db)
    ensures var db' := Resolved(st, w, m).0.db;
            && Sound(db') && LedgerTotal(f, db') <= LedgerTotal(f, m.db)
            && (LedgerTotal(f, m.db) <= Cap(f) ==> LedgerTotal(f, db') == LedgerTotal(f, m.db))
  {
    hide Apply;
    if m.user.Some? { MergeKeepsTotal(st, m.db, w.install, w.telegram(m.user.value), true, f); }
  }

  lemma StepRecords(st: Settings, w: Anchors, m: Mobile, e: Event, f: Field)
    requires Sound(m.db)
    ensures var t, t' := LedgerTotal(f, m.db), LedgerTotal(f, Step(st, w, m, e).db);
            && Sound(Step(st, w, m, e).db) && t' <= t + Recorded1(f, e)
            && (t + Recorded1(f, e) <= Cap(f) ==> t' == t + Recorded1(f, e))
  {
    ResolveKeepsTotal(st, w, m, f);
    var (m', c) := Resolved(st, w, m);
    hide Apply, Resolved, ChargeFor, Sound;
    match e
    case Use(b, s, p) => if p > 0 { UsageAddsToTotal(st, m'.db, c.anchor, c.linked, b, Max(s, 1), p, f); }
    case Status => QuietKeepsTotal(st, m'.db, Check(c.anchor, c.linked), f);
    case Reminder(now) => QuietKeepsTotal(st, m'.db, Remind(c.anchor, c.linked, now), f);
    case TakeTrial => QuietKeepsTotal(st, m'.db, Trial(c.anchor, c.linked), f);
    case _ =>
  }

  /** Over any run of transfers, logins, logouts and switches of user, the ledger's totals of bytes, seconds and debt
      never exceed what was recorded, and equal it as long as it fits the counter. */
  lemma {:induction false} LedgerConserves(st: Settings, w: Anchors, es: seq<Event>, f: Field)
    ensures var db := Run(st, w, es).db;
            && Sound(db) && LedgerTotal(f, db) <= Recorded(f, es)
            && (Recorded(f, es) <= Cap(f) ==> LedgerTotal(f, db) == Recorded(f, es))
    decreases |es|
  {
    if es != [] {
      LedgerConserves(st, w, es[..|es| - 1], f);
      StepRecords(st, w, Run(st, w, es[..|es| - 1]), es[|es| - 1], f);
    }
  }

  // ---- who is charged ----

  /** The anchor of whoever is using the installation. */
  function AnchorOf(w: Anchors, user: Option<nat>): string
  {
    match user case None => w.install case Some(u) => w.telegram(u)
  }

  function DebtOf(db: Store, k: string): int { if k in db then db[k].debt else 0 }

  /** A priced transfer is charged to the user who is logged in, and to the installation when nobody is. The first time
      a user is seen, the installation's debt comes along and the installation is left with none. No other account is
      touched. */
  lemma ChargedToUser(st: Settings, w: Anchors, m: Mobile, bytes: nat, seconds: nat, price: nat, k: string)
    requires Sound(m.db) && price > 0
    requires DebtOf(m.db, k) + DebtOf(m.db, w.install) + ChargeFor(bytes, price) <= I64_MAX
    ensures var db, owner := Step(st, w, m, Use(bytes, seconds, price)).db, AnchorOf(w, m.user);
            var moves := m.user.Some? && m.promoted != owner && owner != w.install;
            var brought := if moves then DebtOf(m.db, w.install) else 0;
            DebtOf(db, k) == if k == owner then DebtOf(m.db, k) + brought + ChargeFor(bytes, price)
                             else if moves && k == w.install then 0
                             else DebtOf(m.db, k)
  {
    var (m', c) := Resolved(st, w, m);
    ResolveKeepsTotal(st, w, m, DebtOwed);
    ResolvedDebts(st, w, m, k);
    hide Resolved, ChargeFor, BaseLimit;
  }

  lemma ResolvedDebts(st: Settings, w: Anchors, m: Mobile, k: string)
    requires Sound(m.db) && DebtOf(m.db, k) + DebtOf(m.db, w.install) <= I64_MAX
    ensures var (m', c) := Resolved(st, w, m);
            var moves := m.user.Some? && m.promoted != c.anchor && c.anchor != w.install;
            && c.anchor == AnchorOf(w, m.user) && (c.linked <==> m.user.Some?)
            && DebtOf(m'.db, k) == (if !moves then DebtOf(m.db, k)
                                    else if k == c.anchor then DebtOf(m.db, k) + DebtOf(m.db, w.install)
                                    else if k == w.install then 0
                                    else DebtOf(m.db, k))
  {
    hide BaseLimit;
  }

  // ---- nudges through a login ----

  /** Does a reminder at this moment nudge the account of `k`? */
  predicate Reminded(st: Settings, w: Anchors, m: Mobile, now: nat, k: string)
  {
    var (m', c) := Resolved(st, w, m);
    c.anchor == k && CreditRuns.Nudges(st, m'.db, Remind(c.anchor, c.linked, now), k)
  }

  /** An installation's account that a login has merged away forgets its nudge. After the logout, with enough new
      usage, it is nudged again at that very moment. */
  lemma MergeForgetsNudge(st: Settings, w: Anchors, user: nat, bytes: nat, seconds: nat, price: nat, now: nat)
    requires w.telegram(user) != w.install && w.telegram(user) != START.promoted
    requires 0 < st.nudgeInterval <= now && price > 0
    requires T.Utilization(ChargeFor(bytes, price), st.trialCredit) >= CreditRuns.LeastThreshold(st)
    ensures var use := Use(bytes, seconds, price);
            var es := [use, Reminder(now), Login(user), Event.Status, Logout, use, Reminder(now)];
            Reminded(st, w, Run(st, w, es[..1]), now, w.install) && Reminded(st, w, Run(st, w, es[..6]), now, w.install)
  {
    var use := Use(bytes, seconds, price);
    var es := [use, Reminder(now), Login(user), Event.Status, Logout, use, Reminder(now)];
    hide Step, Reminded, Sound;
    assert Run(st, w, es[..0]) == START;
    forall i | 0 <= i < 6 ensures Run(st, w, es[..i + 1]) == Step(st, w, Run(st, w, es[..i]), es[i]) {
      assert es[..i + 1][..i] == es[..i];
    }
    NudgedAfterUse(st, w, START, use, now);
    var m2 := Run(st, w, es[..2]);
    StaysOut(st, w, START, use);
    StaysOut(st, w, Run(st, w, es[..1]), Reminder(now));
    LedgerConserves(st, w, es[..2], Bytes);
    MergedOut(st, w, m2, user);
    assert Run(st, w, es[..5]) == Step(st, w, Step(st, w, Step(st, w, m2, Login(user)), Event.Status), Logout);
    NudgedAfterUse(st, w, Run(st, w, es[..5]), use, now);
  }

  lemma NudgedAfterUse(st: Settings, w: Anchors, m: Mobile, use: Event, now: nat)
    requires m.user.None? && w.install !in m.db
    requires 0 < st.nudgeInterval <= now && use.Use? && use.price > 0
    requires T.Utilization(ChargeFor(use.bytes, use.price), st.trialCredit) >= CreditRuns.LeastThreshold(st)
    ensures Reminded(st, w, Step(st, w, m, use), now, w.install)
  {
    assert ChargeFor(use.bytes, use.price) <= I64_MAX;
    hide ChargeFor, T.Utilization;
  }

  /** Without a login nobody is promoted. */
  lemma StaysOut(st: Settings, w: Anchors, m: Mobile, e: Event)
    requires m.user.None? && !e.Login?
    ensures Step(st, w, m, e).user.None? && Step(st, w, m, e).promoted == m.promoted
  {
    hide Apply;
  }

  /** Logging in, being looked up and logging out leaves the installation without an account. */
  lemma MergedOut(st: Settings, w: Anchors, m: Mobile, user: nat)
    requires Sound(m.db) && w.telegram(user) != w.install && w.telegram(user) != m.promoted
    ensures var m' := Step(st, w, Step(st, w, Step(st, w, m, Login(user)), Event.Status), Logout);
            m'.user.None? && w.install !in m'.db
  {
    hide BaseLimit;
  }

  // ---- the runtime as the program writes it ----

  class Controller {
    const ledger: Ledger
    var promoted: string
    var user: Option<nat>
    const anchors: Anchors

    ghost function Abstract(): Mobile
      reads this, ledger
    {
      Mobile(ledger.db, promoted, user)
    }

    constructor (settings: Settings, anchors: Anchors)
      ensures Abstract() == START && ledger.settings == settings && this.anchors == anchors && fresh(ledger)
    {
      ledger := new Ledger(settings);
      promoted, user := "", None;
      this.anchors := anchors;
    }

    method ResolveAnchorContext() returns (c: Context)
      requires FiledByAnchor(ledger.db)
      modifies this, ledger
      ensures (Abstract(), c) == Resolved(ledger.settings, anchors, old(Abstract())) && FiledByAnchor(ledger.db)
    {
      if user.Some? {
        var anchor := anchors.telegram(user.value);
        if promoted != anchor {
          var merged := ledger.MergeAccounts(anchors.install, anchor, true);
          promoted := anchor;
        }
        c := Context(anchor, true);
      } else {
        c := Context(anchors.install, false);
      }
    }

    method RecordUsage(bytes: nat, seconds: nat, price: nat)
      requires FiledByAnchor(ledger.db)
      modifies this, ledger
      ensures Abstract() == Step(ledger.settings, anchors, old(Abstract()), Use(bytes, seconds, price))
              && FiledByAnchor(ledger.db)
    {
      if price == 0 { return; }
      var c := ResolveAnchorContext();
      var account := ledger.RecordUsage(c.anchor, c.linked, bytes, Max(seconds, 1), price);
    }

    method ShouldNudge(now: nat) returns (nudge: Option<Nudge>)
      requires FiledByAnchor(ledger.db)
      modifies this, ledger
      ensures Abstract() == Step(ledger.settings, anchors, old(Abstract()), Reminder(now)) && FiledByAnchor(ledger.db)
    {
      var c := ResolveAnchorContext();
      nudge := ledger.ShouldNudge(c.anchor, c.linked, now);
    }

    method AcceptTrial()
      requires FiledByAnchor(ledger.db)
      modifies this, ledger
      ensures Abstract() == Step(ledger.settings, anchors, old(Abstract()), TakeTrial) && FiledByAnchor(ledger.db)
    {
      var c := ResolveAnchorContext();
      var account := ledger.AcceptTrial(c.anchor, c.linked);
    }

    method CurrentStatus() returns (s: CreditLedger.Status)
      requires FiledByAnchor(ledger.db)
      modifies this, ledger
      ensures Abstract() == Step(ledger.settings, anchors, old(Abstract()), Event.Status) && FiledByAnchor(ledger.db)
      ensures var (m, c) := Resolved(ledger.settings, anchors, old(Abstract()));
              s == CreditRuns.Reported(ledger.settings, m.db, c.anchor, c.linked)
    {
      var c := ResolveAnchorContext();
      s := ledger.CheckCredit(c.anchor, c.linked);
    }

    /** Whatever happens to the runtime, handled. */
    method Handle(e: Event)
      requires FiledByAnchor(ledger.db)
      modifies this, ledger
      ensures Abstract() == Step(ledger.settings, anchors, old(Abstract()), e) && FiledByAnchor(ledger.db)
    {
      hide FiledByAnchor;
      match e
      case Login(u) => user := Some(u);
      case Logout => user := None;
      case Use(bytes, seconds, price) => RecordUsage(bytes, seconds, price);
      case Status => var s := CurrentStatus();
      case Reminder(now) => var nudge := ShouldNudge(now);
      case TakeTrial => AcceptTrial();
    }
  }
}
