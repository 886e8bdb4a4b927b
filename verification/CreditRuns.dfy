/** What holds of the credit ledger over whole runs of operations. */
module CreditRuns {
  import opened Sums
  import opened CreditLedger
  import T = Throttle

  lemma {:induction false} RunFiles(st: Settings, es: seq<Event>)
    ensures FiledByAnchor(Run(st, es))
    decreases |es|
  {
    if es != [] {
      RunFiles(st, es[..|es| - 1]);
      ApplyFiles(st, Run(st, es[..|es| - 1]), es[|es| - 1]);
    }
  }

  // ---- one account's debt ----

  function Debt(db: Store, k: string): int { if k in db then db[k].debt else 0 }

  /** What an operation does to the debt of anchor `k`: a charge adds, a payment takes off, a merge brings the other
      account's debt along, and merging `k` itself away takes all of it off. */
  function Delta(db: Store, e: Event, k: string): seq<int>
  {
    match e
    case Usage(anchor, _, bytes, _, price) => if anchor == k && price > 0 then [ChargeFor(bytes, price)] else []
    case Payment(anchor, _, amount, _) => if anchor == k then [-(amount as int)] else []
    case Merge(from, to, _) =>
      if from == to || from !in db then []
      else if to == k then [db[from].debt]
      else if from == k then [-db[k].debt]
      else []
    case _ => []
  }

  function Deltas(st: Settings, es: seq<Event>, k: string): seq<int>
    decreases |es|
  {
    if es == [] then [] else
    var before := es[..|es| - 1];
    Deltas(st, before, k) + Delta(Run(st, before), es[|es| - 1], k)
  }

  ghost predicate InRange(db: Store) { forall k :: k in db ==> 0 <= db[k].debt <= I64_MAX }

  /** The debt of `k` moves by `d`: exactly as long as the result can be represented, and held at zero. */
  ghost predicate Moves(db: Store, db': Store, k: string, d: seq<int>, saturates: bool)
  {
    var was, debt := Debt(db, k), Debt(db', k);
    if d == [] then debt == was
    else if was + d[0] <= I64_MAX then debt == Max(0, was + d[0])
    else saturates ==> debt == I64_MAX
  }

  lemma ApplyDebt(st: Settings, db: Store, e: Event, k: string)
    requires FiledByAnchor(db) && InRange(db)
    ensures InRange(Apply(st, db, e)) && Moves(db, Apply(st, db, e), k, Delta(db, e, k), !e.Payment?)
  {
    hide *;
    match e
    case Usage(_, _, _, _, _) => UsageDebt(st, db, e, k);
    case Payment(_, _, _, _) => PaymentDebt(st, db, e, k);
    case Merge(_, _, _) => MergeDebt(st, db, e, k);
    case _ => QuietDebt(st, db, e, k);
  }

  lemma UsageDebt(st: Settings, db: Store, e: Event, k: string)
    requires FiledByAnchor(db) && InRange(db) && e.Usage?
    ensures InRange(Apply(st, db, e)) && Moves(db, Apply(st, db, e), k, Delta(db, e, k), true)
  {
    hide ChargeFor, BaseLimit;
  }

  lemma PaymentDebt(st: Settings, db: Store, e: Event, k: string)
    requires FiledByAnchor(db) && InRange(db) && e.Payment?
    ensures InRange(Apply(st, db, e)) && Moves(db, Apply(st, db, e), k, Delta(db, e, k), false)
  {
    var owed := Debt(db, e.anchor) - e.amount;
    assert owed <= I64_MAX ==> WrapI64(owed) == owed;
    assert WrapI64(owed) <= I64_MAX;
    hide BaseLimit, Grown, WrapI64;
  }

  lemma MergeDebt(st: Settings, db: Store, e: Event, k: string)
    requires FiledByAnchor(db) && InRange(db) && e.Merge?
    ensures InRange(Apply(st, db, e)) && Moves(db, Apply(st, db, e), k, Delta(db, e, k), true)
  {
    hide BaseLimit;
  }

  lemma QuietDebt(st: Settings, db: Store, e: Event, k: string)
    requires FiledByAnchor(db) && InRange(db) && (e.Trial? || e.Check? || e.Remind? || e.Get?)
    ensures InRange(Apply(st, db, e)) && Moves(db, Apply(st, db, e), k, Delta(db, e, k), true)
  {
    hide BaseLimit, NudgeFor;
  }

  lemma {:induction false} DebtInRange(st: Settings, es: seq<Event>)
    ensures InRange(Run(st, es))
    decreases |es|
  {
    if es != [] {
      var init := es[..|es| - 1];
      DebtInRange(st, init);
      RunFiles(st, init);
      ApplyDebt(st, Run(st, init), es[|es| - 1], "");
    }
  }

  /** Did no prefix of the run reach the largest representable debt? */
  ghost predicate Unsaturated(st: Settings, es: seq<Event>, k: string)
  {
    forall n :: 0 <= n <= |es| ==> Walk(Deltas(st, es[..n], k)) <= I64_MAX
  }

  ghost predicate DebtWalks(st: Settings, es: seq<Event>, k: string)
  {
    forall n :: 0 <= n <= |es| ==> Debt(Run(st, es[..n]), k) == Walk(Deltas(st, es[..n], k))
  }

  lemma UnsaturatedPrefix(st: Settings, es: seq<Event>, k: string)
    requires es != [] && Unsaturated(st, es, k)
    ensures Unsaturated(st, es[..|es| - 1], k) && Walk(Deltas(st, es, k)) <= I64_MAX
  {
    hide Walk, Deltas;
    assert es[..|es|] == es;
    assert Walk(Deltas(st, es[..|es|], k)) <= I64_MAX;
    var init := es[..|es| - 1];
    forall n | 0 <= n <= |init| ensures Walk(Deltas(st, init[..n], k)) <= I64_MAX {
      assert init[..n] == es[..n];
      assert Walk(Deltas(st, es[..n], k)) <= I64_MAX;
    }
  }

  lemma {:induction false} DebtIsWalk(st: Settings, es: seq<Event>, k: string)
    requires Unsaturated(st, es, k)
    ensures Debt(Run(st, es), k) == Walk(Deltas(st, es, k))
    decreases |es|
  {
    hide *;
    Unrolled(st, es, k);
    if es != [] {
      UnsaturatedPrefix(st, es, k);
      DebtIsWalk(st, es[..|es| - 1], k);
      DebtStep(st, es[..|es| - 1], es[|es| - 1], k);
    }
  }

  /** One more operation, by the definitions of a run and of its steps. */
  lemma Unrolled(st: Settings, es: seq<Event>, k: string)
    ensures es == [] ==> Debt(Run(st, es), k) == Walk(Deltas(st, es, k)) == 0
    ensures es != [] ==>
              var init, e := es[..|es| - 1], es[|es| - 1];
              && Run(st, es) == Apply(st, Run(st, init), e)
              && Deltas(st, es, k) == Deltas(st, init, k) + Delta(Run(st, init), e, k)
  {
    hide Apply, Delta;
  }

  lemma DebtStep(st: Settings, init: seq<Event>, e: Event, k: string)
    requires Debt(Run(st, init), k) == Walk(Deltas(st, init, k))
    requires Walk(Deltas(st, init, k) + Delta(Run(st, init), e, k)) <= I64_MAX
    ensures Debt(Apply(st, Run(st, init), e), k) == Walk(Deltas(st, init, k) + Delta(Run(st, init), e, k))
  {
    DeltaIsShort(Run(st, init), e, k);
    hide Apply, Debt, Run, Delta, Deltas, Walk;
    RunFiles(st, init);
    DebtInRange(st, init);
    ApplyDebt(st, Run(st, init), e, k);
    WalkStep(Deltas(st, init, k), Delta(Run(st, init), e, k));
  }

  lemma DeltaIsShort(db: Store, e: Event, k: string)
    ensures |Delta(db, e, k)| <= 1
  {
  }

  lemma WalkStep(ds: seq<int>, d: seq<int>)
    requires |d| <= 1
    ensures Walk(ds + d) == if d == [] then Walk(ds) else Max(0, Walk(ds) + d[0])
  {
    if d == [] {
      assert ds + d == ds;
    } else {
      assert (ds + d)[..|ds + d| - 1] == ds;
    }
  }

  /** Through any operations whatever, merges included, the stored debt is at every point the account's walk of
      charges, payments and merges held at zero, if and only if that walk never passes the largest `i64`. */
  lemma DebtWalksExactly(st: Settings, es: seq<Event>, k: string)
    ensures DebtWalks(st, es, k) <==> Unsaturated(st, es, k)
  {
    forall n | 0 <= n <= |es|
      ensures 0 <= Debt(Run(st, es[..n]), k) <= I64_MAX
      ensures Unsaturated(st, es, k) ==> Debt(Run(st, es[..n]), k) == Walk(Deltas(st, es[..n], k))
    {
      DebtInRange(st, es[..n]);
      if Unsaturated(st, es, k) {
        assert forall m :: 0 <= m <= n ==> es[..n][..m] == es[..m];
        DebtIsWalk(st, es[..n], k);
      }
    }
  }

  /** Debt in closed form: the largest sum, over all ends of the run, of what was charged and brought in less what was
      paid and taken away. It is never negative, and an overpayment is never carried over. */
  lemma DebtClosedForm(st: Settings, es: seq<Event>, k: string)
    requires Unsaturated(st, es, k)
    ensures IsLargestSuffixSum(Deltas(st, es, k), Debt(Run(st, es), k))
  {
    DebtIsWalk(st, es, k);
    WalkIsLargestSuffixSum(Deltas(st, es, k));
  }

  /** Does this operation never take off the debt of `k`? */
  predicate OnlyAdds(e: Event, k: string)
  {
    !(e.Payment? && e.anchor == k) && !(e.Merge? && e.anchor == k && e.to != k)
  }

  /** Where nothing is paid or merged away, the debt is the sum of all charges and of all debts brought in, stopped at
      the largest `i64`. */
  lemma {:induction false} DebtWithoutPayments(st: Settings, es: seq<Event>, k: string)
    requires forall i :: 0 <= i < |es| ==> OnlyAdds(es[i], k)
    ensures Sums.Sum(Deltas(st, es, k)) >= 0
    ensures Debt(Run(st, es), k) == Min(Sums.Sum(Deltas(st, es, k)), I64_MAX)
    decreases |es|
  {
    if es != [] {
      var init, e := es[..|es| - 1], es[|es| - 1];
      DebtWithoutPayments(st, init, k);
      RunFiles(st, init);
      DebtInRange(st, init);
      Unrolled(st, es, k);
      AddedStep(st, Run(st, init), e, k);
      hide Run, Apply, Delta, Deltas, Debt, OnlyAdds;
      SumAppend(Deltas(st, init, k), Delta(Run(st, init), e, k));
    }
  }

  lemma AddedStep(st: Settings, db: Store, e: Event, k: string)
    requires FiledByAnchor(db) && InRange(db) && OnlyAdds(e, k)
    ensures |Delta(db, e, k)| <= 1 && Sums.Sum(Delta(db, e, k)) >= 0
    ensures Debt(Apply(st, db, e), k) == Min(Debt(db, k) + Sums.Sum(Delta(db, e, k)), I64_MAX)
  {
    ApplyDebt(st, db, e, k);
    hide Apply;
    SumOfOne(Delta(db, e, k));
  }

  lemma SumOfOne(ds: seq<int>)
    requires |ds| <= 1
    ensures Sums.Sum(ds) == if ds == [] then 0 else ds[0]
  {
  }

  lemma SumAppend(ds: seq<int>, d: seq<int>)
    requires |d| <= 1
    ensures Sums.Sum(ds + d) == Sums.Sum(ds) + Sums.Sum(d)
  {
    SumOfOne(d);
    if d == [] {
      assert ds + d == ds;
    } else {
      assert d == [d[0]];
      SumSnoc(ds, d[0]);
    }
  }

  // ---- the unlock flag ----

  ghost predicate UnlockedByPayments(st: Settings, db: Store)
  {
    forall k :: k in db ==> (db[k].advanced <==> db[k].paymentCount >= st.advancedAfter)
  }

  lemma ApplyUnlocks(st: Settings, db: Store, e: Event)
    requires FiledByAnchor(db) && st.advancedAfter >= 1 && UnlockedByPayments(st, db)
    ensures UnlockedByPayments(st, Apply(st, db, e))
  {
    hide ChargeFor, BaseLimit, Grown, WrapI64, NudgeFor;
  }

  lemma {:induction false} RunUnlocks(st: Settings, es: seq<Event>)
    requires st.advancedAfter >= 1
    ensures UnlockedByPayments(st, Run(st, es))
    decreases |es|
  {
    if es != [] {
      RunFiles(st, es[..|es| - 1]);
      RunUnlocks(st, es[..|es| - 1]);
      ApplyUnlocks(st, Run(st, es[..|es| - 1]), es[|es| - 1]);
    }
  }

  /** Through any operations, merges included, the stored unlock flag says whether enough payments were made, if
      and only if at least one payment is asked for: with none asked for, an account is first stored locked. */
  lemma UnlockExactly(st: Settings)
    ensures (forall es :: UnlockedByPayments(st, Run(st, es))) <==> st.advancedAfter >= 1
  {
    if st.advancedAfter >= 1 {
      forall es ensures UnlockedByPayments(st, Run(st, es)) { RunUnlocks(st, es); }
    } else {
      var es := [Get("a", false)];
      assert es[..0] == [];
      assert Run(st, es) == map["a" := Opened(st, "a", false)];
      assert !UnlockedByPayments(st, Run(st, es));
    }
  }

  // ---- one account's standing ----

  /** When `k` was paid for. */
  function PaymentTimes(es: seq<Event>, k: string): seq<nat>
    decreases |es|
  {
    if es == [] then [] else
    var e := es[|es| - 1];
    PaymentTimes(es[..|es| - 1], k) + (if e.Payment? && e.anchor == k then [e.now] else [])
  }

  ghost predicate TookTrial(es: seq<Event>, k: string)
  {
    exists i :: 0 <= i < |es| && es[i].Trial? && es[i].anchor == k
  }

  /** What an account must look like, by the history of its trial and payments alone. */
  ghost predicate Stands(a: Account, times: seq<nat>, trial: bool)
  {
    && a.paymentCount == Min(|times|, U32_MAX)
    && a.lastPayment == (if times == [] then 0 else times[|times| - 1])
    && a.trialAccepted == trial
    && a.tier == (if times != [] then Paid else if trial then Credit else Free)
  }

  /** Does this operation leave the account of `k` unmerged? */
  predicate KeepsApart(e: Event, k: string) { e.Merge? && e.anchor != e.to ==> e.anchor != k && e.to != k }

  /** Does the store agree with such a history of `k`? */
  ghost predicate StandsIn(db: Store, k: string, times: seq<nat>, trial: bool)
  {
    if k in db then Stands(db[k], times, trial) else times == [] && !trial
  }

  lemma ApplyStands(st: Settings, db: Store, e: Event, k: string, times: seq<nat>, trial: bool)
    requires FiledByAnchor(db) && KeepsApart(e, k) && StandsIn(db, k, times, trial)
    ensures StandsIn(Apply(st, db, e), k, times + (if e.Payment? && e.anchor == k then [e.now] else []),
                     trial || (e.Trial? && e.anchor == k))
  {
    assert times + [] == times;
    if e.Payment? {
      PaymentStands(st, db, e, k, times, trial);
    } else if e.Merge? {
      MergeStands(st, db, e, k, times, trial);
    } else if e.Usage? {
      UsageStands(st, db, e, k, times, trial);
    } else {
      hide ChargeFor, BaseLimit, Grown, WrapI64, NudgeFor;
    }
  }

  lemma PaymentStands(st: Settings, db: Store, e: Event, k: string, times: seq<nat>, trial: bool)
    requires FiledByAnchor(db) && StandsIn(db, k, times, trial) && e.Payment?
    ensures StandsIn(Apply(st, db, e), k, times + (if e.anchor == k then [e.now] else []), trial)
  {
    assert times + [] == times;
    hide BaseLimit, Grown, WrapI64;
  }

  lemma MergeStands(st: Settings, db: Store, e: Event, k: string, times: seq<nat>, trial: bool)
    requires FiledByAnchor(db) && StandsIn(db, k, times, trial) && e.Merge? && KeepsApart(e, k)
    ensures StandsIn(Apply(st, db, e), k, times, trial)
  {
    hide BaseLimit;
  }

  lemma UsageStands(st: Settings, db: Store, e: Event, k: string, times: seq<nat>, trial: bool)
    requires FiledByAnchor(db) && StandsIn(db, k, times, trial) && e.Usage?
    ensures StandsIn(Apply(st, db, e), k, times, trial)
  {
    hide BaseLimit, ChargeFor;
  }

  /** Through any operations that do not merge it, an account has been paid for as often and as lately as it says, is on
      trial if and only if a trial was accepted, and is Paid once paid for, Credit on trial alone, and Free before. */
  lemma {:induction false} StandsExactly(st: Settings, es: seq<Event>, k: string)
    requires forall i :: 0 <= i < |es| ==> KeepsApart(es[i], k)
    ensures StandsIn(Run(st, es), k, PaymentTimes(es, k), TookTrial(es, k))
    decreases |es|
  {
    if es != [] {
      var init, e := es[..|es| - 1], es[|es| - 1];
      StandsExactly(st, init, k);
      RunFiles(st, init);
      ApplyStands(st, Run(st, init), e, k, PaymentTimes(init, k), TookTrial(init, k));
      TrialMore(es, k);
      hide Apply, StandsIn, TookTrial;
    }
  }

  lemma TrialMore(es: seq<Event>, k: string)
    requires es != []
    ensures var e := es[|es| - 1];
            TookTrial(es, k) <==> TookTrial(es[..|es| - 1], k) || (e.Trial? && e.anchor == k)
  {
    var init := es[..|es| - 1];
    if TookTrial(init, k) {
      var i :| 0 <= i < |init| && init[i].Trial? && init[i].anchor == k;
      assert es[i].Trial? && es[i].anchor == k;
    }
  }

  /** A merged account has the better of each standing: the larger limit, the more payments, the later one, and a trial
      or an unlocking that either had; and it keeps its own last nudge. */
  lemma MergeKeepsBest(st: Settings, db: Store, from: string, to: string, linked: bool)
    requires FiledByAnchor(db) && from != to && from in db && to in db
    ensures var a, b := db[from], db[to];
            var m := Apply(st, db, Merge(from, to, linked))[to];
            && m.limit >= a.limit && m.limit >= b.limit && m.limit >= BaseLimit(st, linked)
            && m.limit in {a.limit, b.limit, BaseLimit(st, linked)}
            && m.paymentCount >= a.paymentCount && m.paymentCount >= b.paymentCount
            && m.paymentCount in {a.paymentCount, b.paymentCount}
            && m.lastPayment >= a.lastPayment && m.lastPayment >= b.lastPayment
            && m.lastPayment in {a.lastPayment, b.lastPayment}
            && (m.trialAccepted <==> a.trialAccepted || b.trialAccepted) && m.lastNudge == b.lastNudge
            && (a.tier in {Paid, Provider} ==> m.tier == a.tier)
            && (a.tier !in {Paid, Provider} && !a.trialAccepted ==> m.tier == b.tier)
            && from !in Apply(st, db, Merge(from, to, linked))
  {
    hide BaseLimit;
  }

  /** A payment sets the limit to the old one times the growth factor, to the nearest unit, or to the base limit if
      that is more. */
  lemma LimitAfterPayment(st: Settings, db: Store, k: string, linked: bool, amount: I64, now: nat)
    requires FiledByAnchor(db)
    ensures var was, next := Loaded(st, db, k, linked).limit, Apply(st, db, Payment(k, linked, amount, now))[k].limit;
            var x := was as real * st.growth;
            && next >= BaseLimit(st, linked)
            && (I64_MIN as real <= x <= I64_MAX as real && next != BaseLimit(st, linked) ==>
                  -0.5 <= next as real - x <= 0.5)
            && (I64_MIN as real <= x <= I64_MAX as real ==> next as real >= x - 0.5)
  {
    GrownExactly(st, Loaded(st, db, k, linked).limit);
    hide Grown, BaseLimit, WrapI64;
  }

  /** A new account starts with the trial's limit, or with a linked one's if it is linked. */
  lemma OpensAtBase(st: Settings, db: Store, e: Event, k: string)
    requires FiledByAnchor(db) && k !in db && k in Apply(st, db, e) && !e.Payment? && !e.Merge?
    ensures Apply(st, db, e)[k].limit == if e.linked then st.linkedCredit else st.trialCredit
  {
    hide ChargeFor, NudgeFor;
  }

  /** Whatever is not a payment leaves a stored limit as it is, or lifts it to a base limit or to a merged account's. */
  lemma LimitOnlyGrows(st: Settings, db: Store, e: Event, k: string)
    requires FiledByAnchor(db) && k in db && !MergesAway(e, k) && !(e.Payment? && e.anchor == k)
    ensures var db' := Apply(st, db, e);
            && k in db' && db'[k].limit >= db[k].limit
            && (db'[k].limit == db[k].limit || db'[k].limit == BaseLimit(st, e.linked)
                || (e.Merge? && e.to == k && e.anchor in db && db'[k].limit == db[e.anchor].limit))
            && ((e.Usage? || e.Check? || e.Trial?) && e.anchor == k ==>
                  db'[k].limit >= if e.linked then st.linkedCredit else st.trialCredit)
  {
    hide ChargeFor, Grown, WrapI64, NudgeFor;
  }

  // ---- nudges ----

  /** Does this operation send anchor `k` a nudge? */
  predicate Nudges(st: Settings, db: Store, e: Event, k: string)
  {
    e.Remind? && e.anchor == k && NudgeFor(st, EnsureLimit(st, Loaded(st, db, k, e.linked), e.linked), e.now).Some?
  }

  /** Does this operation merge the account of `k` into another? */
  predicate MergesAway(e: Event, k: string) { e.Merge? && e.anchor == k && e.to != k }

  /** When `k` was last nudged, by its history alone. An account merged away starts over. */
  function NudgeTime(st: Settings, es: seq<Event>, k: string): nat
    decreases |es|
  {
    if es == [] then 0 else
    var before, e := es[..|es| - 1], es[|es| - 1];
    if MergesAway(e, k) then 0
    else if Nudges(st, Run(st, before), e, k) then e.now
    else NudgeTime(st, before, k)
  }

  function LastNudge(db: Store, k: string): nat { if k in db then db[k].lastNudge else 0 }

  lemma ApplyNudgeTime(st: Settings, db: Store, e: Event, k: string)
    requires FiledByAnchor(db)
    ensures LastNudge(Apply(st, db, e), k)
         == if MergesAway(e, k) then 0 else if Nudges(st, db, e, k) then e.now else LastNudge(db, k)
  {
    hide ChargeFor, BaseLimit, Grown, WrapI64, NudgeFor;
  }

  lemma {:induction false} NudgeTimeStored(st: Settings, es: seq<Event>, k: string)
    ensures LastNudge(Run(st, es), k) == NudgeTime(st, es, k)
    decreases |es|
  {
    if es != [] {
      var before := es[..|es| - 1];
      RunFiles(st, before);
      NudgeTimeStored(st, before, k);
      ApplyNudgeTime(st, Run(st, before), es[|es| - 1], k);
      hide Apply, Nudges, LastNudge;
    }
  }

  /** The lowest utilization that calls for any nudge. */
  function LeastThreshold(st: Settings): real
  {
    var low := if st.policy.softThrottle <= st.policy.fallback then st.policy.softThrottle else st.policy.fallback;
    if st.softNudge <= low then st.softNudge else low
  }

  /** Does the account owe enough to be nudged at all? */
  predicate Owing(st: Settings, db: Store, k: string, linked: bool)
  {
    var a := EnsureLimit(st, Loaded(st, db, k, linked), linked);
    T.Utilization(a.debt, a.limit) >= LeastThreshold(st)
  }

  predicate IntervalOver(st: Settings, since: nat, now: nat)
  {
    st.nudgeInterval == 0 || now >= since + st.nudgeInterval
  }

  /** After any history whatever, a reminder sends a nudge if and only if the account owes enough and the interval
      since its last nudge is over, where being merged away counts as never having been nudged. */
  lemma NudgedExactly(st: Settings, es: seq<Event>, k: string, linked: bool, now: nat)
    ensures Nudges(st, Run(st, es), Remind(k, linked, now), k)
            <==> IntervalOver(st, NudgeTime(st, es, k), now) && Owing(st, Run(st, es), k, linked)
  {
    NudgeTimeStored(st, es, k);
    hide Run, T.Utilization, NudgeTime, BaseLimit;
  }

  lemma NudgeTimeStep(st: Settings, es: seq<Event>, j: nat, k: string)
    requires 0 < j <= |es|
    ensures var before, e := es[..j - 1], es[j - 1];
            && (Nudges(st, Run(st, before), e, k) ==> !MergesAway(e, k) && e.Remind? && e.anchor == k)
            && NudgeTime(st, es[..j], k)
               == if MergesAway(e, k) then 0
                  else if Nudges(st, Run(st, before), e, k) then e.now
                  else NudgeTime(st, before, k)
  {
    assert es[..j][..j - 1] == es[..j - 1];
    hide Run, NudgeFor, EnsureLimit;
  }

  lemma {:induction false} NudgeTimeSince(st: Settings, es: seq<Event>, i: nat, j: nat, k: string)
    requires i < j <= |es| && Nudges(st, Run(st, es[..i]), es[i], k)
    requires forall m :: i < m < j ==> !Nudges(st, Run(st, es[..m]), es[m], k)
    ensures NudgeTime(st, es[..j], k) == if exists m :: i < m < j && MergesAway(es[m], k) then 0 else es[i].now
    decreases j
  {
    hide *;
    NudgeTimeStep(st, es, j, k);
    if j > i + 1 { NudgeTimeSince(st, es, i, j - 1, k); }
  }

  /** Of two reminders of one account, the first of which sent its last nudge, the second sends one if and only if the
      account owes enough and the interval is over: since the first, or since the start of time if the account was
      merged away in between. */
  lemma NudgedAgainExactly(st: Settings, es: seq<Event>, i: nat, j: nat, k: string)
    requires i < j < |es| && Nudges(st, Run(st, es[..i]), es[i], k) && es[j].Remind? && es[j].anchor == k
    requires forall m :: i < m < j ==> !Nudges(st, Run(st, es[..m]), es[m], k)
    ensures var since := if exists m :: i < m < j && MergesAway(es[m], k) then 0 else es[i].now;
            Nudges(st, Run(st, es[..j]), es[j], k)
            <==> IntervalOver(st, since, es[j].now) && Owing(st, Run(st, es[..j]), k, es[j].linked)
  {
    NudgeTimeSince(st, es, i, j, k);
    NudgedExactly(st, es[..j], k, es[j].linked, es[j].now);
    hide Run, Nudges, Owing, NudgeTime;
  }

  lemma {:induction false} NudgeTimeKept(st: Settings, es: seq<Event>, i: nat, j: nat, k: string)
    requires i < j <= |es| && st.nudgeInterval > 0 && Nudges(st, Run(st, es[..i]), es[i], k)
    requires forall m :: i < m < j ==> !MergesAway(es[m], k)
    ensures NudgeTime(st, es[..j], k) >= es[i].now
    decreases j
  {
    hide *;
    NudgeTimeStep(st, es, j, k);
    if j > i + 1 {
      NudgeTimeKept(st, es, i, j - 1, k);
      if Nudges(st, Run(st, es[..j - 1]), es[j - 1], k) { NudgeWaits(st, es[..j - 1], es[j - 1], k); }
    }
  }

  lemma NudgeWaits(st: Settings, es: seq<Event>, e: Event, k: string)
    requires Nudges(st, Run(st, es), e, k)
    ensures st.nudgeInterval == 0 || e.now >= NudgeTime(st, es, k) + st.nudgeInterval
  {
    assert e == Remind(k, e.linked, e.now);
    NudgedExactly(st, es, k, e.linked, e.now);
    hide Run, NudgeTime, Owing;
  }

  /** Two nudges for one account are at least the nudge interval apart, whatever the clock does between them, or the
      account was merged away in between. */
  lemma NudgesApart(st: Settings, es: seq<Event>, i: nat, j: nat, k: string)
    requires i < j < |es| && st.nudgeInterval > 0
    requires Nudges(st, Run(st, es[..i]), es[i], k) && Nudges(st, Run(st, es[..j]), es[j], k)
    ensures es[j].now >= es[i].now + st.nudgeInterval || exists m :: i < m < j && MergesAway(es[m], k)
  {
    NudgeWaits(st, es[..j], es[j], k);
    hide *;
    if forall m :: i < m < j ==> !MergesAway(es[m], k) { NudgeTimeKept(st, es, i, j, k); }
  }

  // ---- merging ----

  /** Merging the same two anchors again changes nothing. */
  lemma MergeTwiceIsOnce(st: Settings, db: Store, from: string, to: string, linked: bool)
    requires FiledByAnchor(db)
    ensures var once := Apply(st, db, Merge(from, to, linked)); Apply(st, once, Merge(from, to, linked)) == once
  {
    hide EnsureLimit, Merged, BaseLimit;
  }

  // ---- what usage and payments do to a user's speed ----

  /** What `CheckCredit` reports. */
  function Reported(st: Settings, db: Store, k: string, linked: bool): Status
  {
    StatusOf(st, Checked(st, Loaded(st, db, k, linked), linked))
  }

  /** `b` leaves a user no better off than `a`: no faster, no more premium, no higher rate on any transport. */
  ghost predicate NoBetter(b: Status, a: Status)
  {
    && b.factor <= a.factor
    && (b.premiumAllowed ==> a.premiumAllowed)
    && (forall premium, mbps :: T.NoFaster(T.RateLimit(premium, mbps, b.factor), T.RateLimit(premium, mbps, a.factor)))
  }

  lemma MoreDebtIsNoBetter(st: Settings, a: Account, b: Account)
    requires T.Sensible(st.policy)
    requires Max(a.debt, 0) <= Max(b.debt, 0) && Max(b.limit, 1) <= Max(a.limit, 1)
             && (b.trialAccepted ==> a.trialAccepted)
    ensures NoBetter(StatusOf(st, b), StatusOf(st, a))
  {
    T.UtilizationMonotone(a.debt, a.limit, b.debt, b.limit);
    T.FactorMonotone(st.policy, T.Utilization(a.debt, a.limit), T.Utilization(b.debt, b.limit));
    hide T.Utilization, T.Factor, T.RateLimit, T.NoFaster;
    forall premium, mbps
      ensures T.NoFaster(T.RateLimit(premium, mbps, StatusOf(st, b).factor),
                         T.RateLimit(premium, mbps, StatusOf(st, a).factor))
    {
      T.RateLimitMonotone(premium, mbps, StatusOf(st, b).factor, StatusOf(st, a).factor);
    }
  }

  /** Recording usage never speeds a user up, never grants premium, and never raises a byte-rate cap. */
  lemma UsageNeverHelps(st: Settings, db: Store, k: string, linked: bool, bytes: nat, seconds: nat, price: nat)
    requires FiledByAnchor(db) && T.Sensible(st.policy) && 0 <= Debt(db, k) <= I64_MAX
    ensures NoBetter(Reported(st, Apply(st, db, Usage(k, linked, bytes, seconds, price)), k, linked),
                     Reported(st, db, k, linked))
  {
    hide ChargeFor, T.Utilization, T.Factor, NoBetter;
    var a := Checked(st, Loaded(st, db, k, linked), linked);
    var b := Checked(st, Loaded(st, Apply(st, db, Usage(k, linked, bytes, seconds, price)), k, linked), linked);
    MoreDebtIsNoBetter(st, a, b);
  }

  lemma GrownGrows(st: Settings, limit: int)
    requires st.growth >= 1.0 && -0x8000_0000_0000_0000 <= limit <= I64_MAX
    ensures Max(Grown(st, limit), 1) >= Max(limit, 1)
  {
    if limit > 0 {
      var l := limit as real;
      var x := l * st.growth;
      AtLeast(l, st.growth, x);
      assert Grown(st, limit) == RoundToI64(x);
      hide Grown;
      RoundsUpTo(limit, x);
    }
  }

  lemma RoundsUpTo(limit: int, x: real)
    requires limit as real <= x && limit <= I64_MAX
    ensures RoundToI64(x) >= limit
  {
    RoundsToNearest(x);
    hide RoundToI64;
    if x >= I64_MIN as real && x <= I64_MAX as real { assert RoundToI64(x) as real >= limit as real - 0.5; }
  }

  lemma AtLeast(l: real, k: real, x: real)
    requires l >= 0.0 && k >= 1.0 && x == l * k
    ensures l <= x
  {
    var more := k - 1.0;
    assert l * more >= 0.0;
    assert l * k == l * more + l;
  }

  /** With a growth factor of at least one, a payment never slows a user down, never takes premium away, and never
      lowers a byte-rate cap. */
  lemma PaymentNeverHurts(st: Settings, db: Store, k: string, linked: bool, amount: int, now: nat)
    requires FiledByAnchor(db) && T.Sensible(st.policy) && st.growth >= 1.0 && 0 <= amount <= I64_MAX
    requires 0 <= Debt(db, k) <= I64_MAX && -0x8000_0000_0000_0000 <= Loaded(st, db, k, linked).limit <= I64_MAX
    ensures NoBetter(Reported(st, db, k, linked),
                     Reported(st, Apply(st, db, Payment(k, linked, amount, now)), k, linked))
  {
    var loaded := Loaded(st, db, k, linked);
    GrownGrows(st, loaded.limit);
    assert WrapI64(loaded.debt - amount) == loaded.debt - amount;
    hide WrapI64, Grown, T.Utilization, T.Factor, NoBetter;
    var a := Checked(st, loaded, linked);
    var b := Checked(st, Loaded(st, Apply(st, db, Payment(k, linked, amount, now)), k, linked), linked);
    MoreDebtIsNoBetter(st, b, a);
  }
}
