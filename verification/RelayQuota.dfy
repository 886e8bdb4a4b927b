/** The relay worker's daily byte quota: one record a device and day in a key-value store. */
module RelayQuota {
  import opened Sums
  import opened Wrappers

  datatype Record = Record(used: nat, limit: nat)

  datatype Verdict = Verdict(allowed: bool, remaining: nat)

  /** The record a read finds: an absent or unreadable entry starts at zero, and a missing limit is the default one. */
  function Current(entry: Option<Record>, defaultLimit: nat): Record
  {
    match entry
    case None => Record(0, defaultLimit)
    case Some(r) => Record(r.used, if r.limit == 0 then defaultLimit else r.limit)
  }

  /** One call: what it answers and what it leaves in the store. */
  function Checked(entry: Option<Record>, bytes: nat, defaultLimit: nat): (Verdict, Option<Record>)
  {
    var r := Current(entry, defaultLimit);
    var remaining := if r.limit > r.used then r.limit - r.used else 0;
    if bytes > 0 && r.used + bytes <= r.limit then
      (Verdict(true, remaining - bytes), Some(Record(r.used + bytes, r.limit)))
    else
      (Verdict(r.used < r.limit, remaining), entry)
  }

  class QuotaStore {
    var entries: map<string, Record>

    constructor ()
      ensures entries == map[]
    {
      entries := map[];
    }

    function Entry(key: string): Option<Record>
      reads this
    {
      if key in entries then Some(entries[key]) else None
    }

    method CheckAndUpdate(key: string, bytes: nat, defaultLimit: nat) returns (v: Verdict)
      modifies this
      ensures (v, Entry(key)) == Checked(old(Entry(key)), bytes, defaultLimit)
      ensures forall k :: k != key ==> Entry(k) == old(Entry(k))
    {
      var used, limit := 0, defaultLimit;
      if key in entries {
        used := entries[key].used;
        limit := if entries[key].limit == 0 then defaultLimit else entries[key].limit;
      }
      var remaining := if limit - used > 0 then limit - used else 0;
      if bytes > 0 && used + bytes <= limit {
        entries := entries[key := Record(used + bytes, limit)];
        return Verdict(true, remaining - bytes);
      }
      return Verdict(used < limit, remaining);
    }
  }

  /** What a call answers: whether there is anything left, or all of it fitted, and how much is left afterwards. */
  lemma AnsweredExactly(entry: Option<Record>, bytes: nat, defaultLimit: nat)
    requires var r := Current(entry, defaultLimit); r.used <= r.limit
    ensures var (v, after) := Checked(entry, bytes, defaultLimit);
            var was, now := Current(entry, defaultLimit), Current(after, defaultLimit);
            && v.remaining == now.limit - now.used && now.limit == was.limit
            && (v.allowed <==> was.used < was.limit) && (now.used == was.used || now.used == was.used + bytes)
  {
  }

  // ---- a day of charges against one record ----

  /** What a session hands over: bytes to record, and the limit to record them under if there is no record yet. */
  datatype Charge = Charge(bytes: nat, limit: nat)

  function Charged(entry: Option<Record>, charges: seq<Charge>): Option<Record>
    decreases |charges|
  {
    if charges == [] then entry else Charged(Checked(entry, charges[0].bytes, charges[0].limit).1, charges[1..])
  }

  function Total(charges: seq<Charge>): nat { if charges == [] then 0 else charges[0].bytes + Total(charges[1..]) }

  function Used(entry: Option<Record>): nat { if entry.Some? then entry.value.used else 0 }

  /** Is this a record a call could have written? */
  predicate Sound(entry: Option<Record>)
  {
    entry.Some? ==> 0 < entry.value.limit && entry.value.used <= entry.value.limit
  }

  /** A record never exceeds its limit, never loses bytes, keeps its limit, and gains no more than was handed over. */
  lemma {:induction false} NeverOverLimit(entry: Option<Record>, charges: seq<Charge>)
    requires Sound(entry)
    ensures var after := Charged(entry, charges);
            && Sound(after) && Used(entry) <= Used(after) <= Used(entry) + Total(charges)
            && (entry.Some? ==> after.Some? && after.value.limit == entry.value.limit)
            && (entry.None? && after.Some? ==> exists i :: 0 <= i < |charges| && charges[i].limit == after.value.limit)
    decreases |charges|
  {
    if charges != [] {
      var next, rest := Checked(entry, charges[0].bytes, charges[0].limit).1, charges[1..];
      NeverOverLimit(next, rest);
      if next.None? && Charged(next, rest).Some? {
        var i :| 0 <= i < |rest| && rest[i].limit == Charged(next, rest).value.limit;
        assert charges[i + 1] == rest[i];
      }
    }
  }

  /** The limit a new record is written under if nothing handed over before it is dropped. */
  function FirstLimit(charges: seq<Charge>): nat
  {
    if charges == [] then 0 else if charges[0].bytes > 0 then charges[0].limit else FirstLimit(charges[1..])
  }

  /** Everything handed over is on record exactly when all of it fits: a charge that would pass the limit is not
      recorded at all, not even up to the limit. */
  lemma {:induction false} AllRecordedExactly(entry: Option<Record>, charges: seq<Charge>)
    requires Sound(entry)
    ensures Used(Charged(entry, charges)) == Used(entry) + Total(charges)
            <==> Used(entry) + Total(charges) <= if entry.Some? then entry.value.limit else FirstLimit(charges)
    decreases |charges|
  {
    NeverOverLimit(entry, charges);
    if charges != [] {
      var next := Checked(entry, charges[0].bytes, charges[0].limit).1;
      NeverOverLimit(next, charges[1..]);
      AllRecordedExactly(next, charges[1..]);
    }
  }

  predicate Refused(entry: Option<Record>, limit: nat) { !Checked(entry, 0, limit).0.allowed }

  lemma {:induction false} ChargedSnoc(entry: Option<Record>, charges: seq<Charge>, c: Charge)
    ensures Charged(entry, charges + [c]) == Checked(Charged(entry, charges), c.bytes, c.limit).1
    decreases |charges|
  {
    if charges == [] {
      assert charges + [c] == [c];
    } else {
      ChargedSnoc(Checked(entry, charges[0].bytes, charges[0].limit).1, charges[1..], c);
      assert (charges + [c])[1..] == charges[1..] + [c];
    }
  }

  /** Does charge `n` fill what the charges before it left, to the byte? */
  ghost predicate Fills(charges: seq<Charge>, n: nat, limit: nat)
    requires n < |charges|
  {
    charges[n].bytes > 0 && Used(Charged(None, charges[..n])) + charges[n].bytes == limit
  }

  /** Under one limit a device is turned away exactly when some charge filled up what those before it had left, to
      the byte. Traffic that overshoots instead is dropped, and the device stays welcome. */
  lemma {:induction false} RefusedExactly(charges: seq<Charge>, limit: nat)
    requires limit > 0 && forall i :: 0 <= i < |charges| ==> charges[i].limit == limit
    ensures Refused(Charged(None, charges), limit) <==> exists n :: 0 <= n < |charges| && Fills(charges, n, limit)
    decreases |charges|
  {
    if charges != [] {
      var k := |charges| - 1;
      var init, c := charges[..k], charges[k];
      RefusedExactly(init, limit);
      NeverOverLimit(None, init);
      ChargedSnoc(None, init, c);
      assert charges == init + [c];
      hide Charged;
      forall n | 0 <= n < k ensures Fills(charges, n, limit) == Fills(init, n, limit) {
        assert charges[..n] == init[..n];
      }
      assert Fills(charges, k, limit) <==> c.bytes > 0 && Used(Charged(None, init)) + c.bytes == limit;
      if Refused(Charged(None, init), limit) {
        var n :| 0 <= n < k && Fills(init, n, limit);
        assert Fills(charges, n, limit);
      }
    }
  }

  function Equal(n: nat, c: Charge): (cs: seq<Charge>)
    ensures |cs| == n
  {
    seq(n, _ => c)
  }

  /** Charges of one size are recorded until the next no longer fits. */
  lemma {:induction false} EqualCharges(n: nat, c: Charge)
    requires c.bytes > 0 && c.limit > 0
    ensures var entry := Charged(None, Equal(n, c));
            Used(entry) == Min(n, c.limit / c.bytes) * c.bytes && (entry.Some? ==> entry.value.limit == c.limit)
    decreases n
  {
    if n > 0 {
      EqualCharges(n - 1, c);
      ChargedSnoc(None, Equal(n - 1, c), c);
      assert Equal(n, c) == Equal(n - 1, c) + [c];
      hide Charged, Equal;
      Parts(n - 1, c.bytes, c.limit);
      OneMore(Charged(None, Equal(n - 1, c)), n - 1, c);
    }
  }

  lemma OneMore(entry: Option<Record>, m: nat, c: Charge)
    requires c.bytes > 0 && c.limit > 0 && (entry.Some? ==> entry.value.limit == c.limit)
    requires var q := c.limit / c.bytes;
             Used(entry) == Min(m, q) * c.bytes && (m >= q <==> Used(entry) + c.bytes > c.limit)
    ensures var after := Checked(entry, c.bytes, c.limit).1;
            Used(after) == Min(m + 1, c.limit / c.bytes) * c.bytes
            && (after.Some? ==> after.value.limit == c.limit)
  {
  }

  /** So a device that is charged in equal parts is turned away exactly when the parts divide the limit and enough
      of them have come. */
  lemma EqualChargesRefused(n: nat, c: Charge)
    requires c.bytes > 0 && c.limit > 0
    ensures Refused(Charged(None, Equal(n, c)), c.limit) <==> c.limit % c.bytes == 0 && n >= c.limit / c.bytes
  {
    EqualCharges(n, c);
    NeverOverLimit(None, Equal(n, c));
    hide Charged, Equal, Total;
    PartsFill(n, c.bytes, c.limit);
  }

  lemma Parts(m: nat, bytes: nat, limit: nat)
    requires bytes > 0
    ensures m >= limit / bytes <==> m * bytes + bytes > limit
    ensures (m + 1) * bytes == m * bytes + bytes
    ensures m >= limit / bytes ==> limit / bytes * bytes + bytes > limit
  {
    var q := limit / bytes;
    assert limit == q * bytes + limit % bytes;
    if m >= q { assert m * bytes >= q * bytes; } else { assert (m + 1) * bytes <= q * bytes; }
  }

  lemma PartsFill(n: nat, bytes: nat, limit: nat)
    requires bytes > 0
    ensures Min(n, limit / bytes) * bytes == limit <==> limit % bytes == 0 && n >= limit / bytes
  {
    var q := limit / bytes;
    assert limit == q * bytes + limit % bytes;
    if n < q { assert n * bytes < q * bytes; }
  }

  /** The daily quota does not bound a day's traffic: any charges each over its own limit leave no record at all. */
  lemma {:induction false} OversizedChargesAreFree(charges: seq<Charge>)
    requires forall i :: 0 <= i < |charges| ==> charges[i].bytes > charges[i].limit
    ensures Charged(None, charges) == None
    ensures forall limit :: limit > 0 ==> Checked(None, 0, limit).0 == Verdict(true, limit)
    decreases |charges|
  {
    if charges != [] { OversizedChargesAreFree(charges[1..]); }
  }

  // ---- calls that overlap ----

  /** The two ends of a call: reading the record, and writing it back. Other calls may come in between. */
  datatype Half = Begin(charge: Charge) | Finish(call: nat)

  /** A call under way: what it is to record, and the record it read. */
  datatype Call = Call(charge: Charge, seen: Option<Record>)

  datatype Desk = Desk(entry: Option<Record>, open: map<nat, Call>, begun: nat)

  predicate Fits(seen: Option<Record>, c: Charge)
  {
    var r := Current(seen, c.limit);
    c.bytes > 0 && r.used + c.bytes <= r.limit
  }

  /** A call writes back what it makes of the record it read, not of the one it now finds. */
  function Serve(d: Desk, h: Half): Desk
  {
    match h
    case Begin(c) => d.(open := d.open[d.begun := Call(c, d.entry)], begun := d.begun + 1)
    case Finish(n) =>
      if n !in d.open then d else
      var Call(c, seen) := d.open[n];
      d.(entry := if Fits(seen, c) then Checked(seen, c.bytes, c.limit).1 else d.entry, open := d.open - {n})
  }

  function ServeAll(hs: seq<Half>): Desk
    decreases |hs|
  {
    if hs == [] then Desk(None, map[], 0) else Serve(ServeAll(hs[..|hs| - 1]), hs[|hs| - 1])
  }

  /** The charges of the calls begun, in order. */
  function Begun(hs: seq<Half>): seq<Charge>
    decreases |hs|
  {
    if hs == [] then [] else
    var h := hs[|hs| - 1];
    Begun(hs[..|hs| - 1]) + (if h.Begin? then [h.charge] else [])
  }

  /** The bytes a step finishes handing over. */
  function FinishedBy(d: Desk, h: Half): nat
  {
    if h.Finish? && h.call in d.open then d.open[h.call].charge.bytes else 0
  }

  /** The bytes of the calls that are over. */
  function Finished(hs: seq<Half>): nat
    decreases |hs|
  {
    if hs == [] then 0 else
    var before := hs[..|hs| - 1];
    Finished(before) + FinishedBy(ServeAll(before), hs[|hs| - 1])
  }

  /** A call that is handing bytes over finds room in the record it read, and nobody has changed it since. */
  predicate Undisturbed(d: Desk, h: Half)
  {
    FinishedBy(d, h) > 0 ==>
      Fits(d.open[h.call].seen, d.open[h.call].charge) && Used(d.open[h.call].seen) == Used(d.entry)
  }

  ghost predicate Consistent(d: Desk, finished: nat)
  {
    && Sound(d.entry) && Used(d.entry) <= finished
    && (forall n :: n in d.open ==>
          n < d.begun && Sound(d.open[n].seen) && Used(d.open[n].seen) <= finished
          && (Used(d.open[n].seen) == finished ==> Used(d.entry) == finished))
  }

  lemma ServeConsistently(d: Desk, h: Half, finished: nat)
    requires Consistent(d, finished)
    ensures var d', finished' := Serve(d, h), finished + FinishedBy(d, h);
            && Consistent(d', finished')
            && (Used(d'.entry) == finished' <==> Used(d.entry) == finished && Undisturbed(d, h))
  {
  }

  lemma {:induction false} ServedConsistently(hs: seq<Half>)
    ensures Consistent(ServeAll(hs), Finished(hs))
    decreases |hs|
  {
    if hs != [] {
      ServedConsistently(hs[..|hs| - 1]);
      ServeConsistently(ServeAll(hs[..|hs| - 1]), hs[|hs| - 1], Finished(hs[..|hs| - 1]));
      hide Serve, FinishedBy, Consistent;
    }
  }

  /** However calls on one record overlap, it never passes its limit and never gains more than was handed over. */
  lemma OverlapsNeverOvercharge(hs: seq<Half>)
    ensures Sound(ServeAll(hs).entry) && Used(ServeAll(hs).entry) <= Finished(hs) <= Total(Begun(hs))
  {
    ServedConsistently(hs);
    BytesUnderWay(hs);
    TotalNonneg(ServeAll(hs).open, (c: Call) => c.charge.bytes);
  }

  ghost predicate NoneDisturbed(hs: seq<Half>)
  {
    forall n :: 0 <= n < |hs| ==> Undisturbed(ServeAll(hs[..n]), hs[n])
  }

  lemma DisturbedOrNot(hs: seq<Half>)
    requires hs != []
    ensures var init := hs[..|hs| - 1];
            NoneDisturbed(hs) <==> NoneDisturbed(init) && Undisturbed(ServeAll(init), hs[|hs| - 1])
  {
    hide ServeAll, Undisturbed;
    var init := hs[..|hs| - 1];
    forall n | 0 <= n < |init|
      ensures Undisturbed(ServeAll(hs[..n]), hs[n]) == Undisturbed(ServeAll(init[..n]), init[n])
    {
      assert hs[..n] == init[..n];
    }
  }

  /** The record holds all that was handed over if and only if every call that handed bytes over found room, and a
      record that nobody had changed since the call read it. */
  lemma {:induction false} OverlapsRecordAllExactly(hs: seq<Half>)
    ensures Used(ServeAll(hs).entry) == Finished(hs) <==> NoneDisturbed(hs)
    decreases |hs|
  {
    if hs != [] {
      var init, h := hs[..|hs| - 1], hs[|hs| - 1];
      OverlapsRecordAllExactly(init);
      DisturbedOrNot(hs);
      ServedConsistently(init);
      ServeConsistently(ServeAll(init), h, Finished(init));
      hide Serve, FinishedBy, Consistent, Undisturbed, NoneDisturbed;
    }
  }

  /** Two calls that overlap can leave a record of only one of them. */
  lemma OverlapLoses(c: Charge)
    requires 0 < c.bytes <= c.limit
    ensures var hs := [Begin(c), Begin(c), Finish(0), Finish(1)];
            Finished(hs) == 2 * c.bytes && ServeAll(hs).entry == Some(Record(c.bytes, c.limit))
  {
    var hs := [Begin(c), Begin(c), Finish(0), Finish(1)];
    assert hs[..1][..0] == [] && hs[..2][..1] == hs[..1] && hs[..3][..2] == hs[..2] && hs[..4] == hs;
    var call := Call(c, None);
    assert ServeAll(hs[..1]) == Desk(None, map[0 := call], 1);
    assert ServeAll(hs[..2]) == Desk(None, map[0 := call, 1 := call], 2);
    assert ServeAll(hs[..3]) == Desk(Some(Record(c.bytes, c.limit)), map[1 := call], 2);
    assert Finished([]) == 0 && Finished(hs[..1]) == 0 && Finished(hs[..2]) == 0 && Finished(hs[..3]) == c.bytes;
  }

  lemma {:induction false} TotalSnoc(cs: seq<Charge>, c: Charge)
    ensures Total(cs + [c]) == Total(cs) + c.bytes
  {
    if cs == [] {
      assert cs + [c] == [c];
    } else {
      TotalSnoc(cs[1..], c);
      assert (cs + [c])[1..] == cs[1..] + [c];
    }
  }

  lemma {:induction false} BytesUnderWay(hs: seq<Half>)
    ensures Finished(hs) + Sums.Total(ServeAll(hs).open, (c: Call) => c.charge.bytes) == Total(Begun(hs))
    decreases |hs|
  {
    if hs != [] {
      var init, h := hs[..|hs| - 1], hs[|hs| - 1];
      var d, f := ServeAll(init), (c: Call) => c.charge.bytes;
      BytesUnderWay(init);
      ServedConsistently(init);
      hide Sums.Total, Total, Fits, Checked;
      match h {
        case Begin(c) =>
          TotalSnoc(Begun(init), c);
          TotalSet(d.open, d.begun, Call(c, d.entry), f);
        case Finish(n) =>
          assert Begun(init) + [] == Begun(init);
          if n in d.open { TotalSplit(d.open, n, f); }
      }
    }
  }

  /** Calls one after another. */
  function InTurn(cs: seq<Charge>): seq<Half>
    decreases |cs|
  {
    if cs == [] then [] else InTurn(cs[..|cs| - 1]) + [Begin(cs[|cs| - 1]), Finish(|cs| - 1)]
  }

  /** Calls that do not overlap leave the record that charging them in order leaves. */
  lemma {:induction false} InTurnIsCharged(cs: seq<Charge>)
    ensures ServeAll(InTurn(cs)) == Desk(Charged(None, cs), map[], |cs|) && Begun(InTurn(cs)) == cs
    decreases |cs|
  {
    if cs != [] {
      var init, c := cs[..|cs| - 1], cs[|cs| - 1];
      InTurnIsCharged(init);
      ChargedSnoc(None, init, c);
      assert cs == init + [c];
      var hs := InTurn(init);
      hide InTurn, Charged;
      assert InTurn(cs) == hs + [Begin(c), Finish(|init|)] by { UnfoldInTurn(cs); }
      TwoHalves(hs, c, |init|);
    }
  }

  lemma UnfoldInTurn(cs: seq<Charge>)
    requires cs != []
    ensures InTurn(cs) == InTurn(cs[..|cs| - 1]) + [Begin(cs[|cs| - 1]), Finish(|cs| - 1)]
  {
  }

  lemma TwoHalves(hs: seq<Half>, c: Charge, n: nat)
    requires ServeAll(hs).open == map[] && ServeAll(hs).begun == n
    ensures var more := hs + [Begin(c), Finish(n)];
            && ServeAll(more) == Desk(Checked(ServeAll(hs).entry, c.bytes, c.limit).1, map[], n + 1)
            && Begun(more) == Begun(hs) + [c]
  {
    var one, two := hs + [Begin(c)], hs + [Begin(c), Finish(n)];
    assert one[..|one| - 1] == hs && two[..|two| - 1] == one;
    BothHalves(ServeAll(hs), c);
    assert Begun(two) == Begun(one) + [];
    hide Serve, Checked;
  }

  lemma BothHalves(d: Desk, c: Charge)
    requires d.open == map[]
    ensures Serve(Serve(d, Begin(c)), Finish(d.begun)) == Desk(Checked(d.entry, c.bytes, c.limit).1, map[], d.begun + 1)
  {
    var open := map[d.begun := Call(c, d.entry)];
    assert d.open[d.begun := Call(c, d.entry)] == open;
    assert open - {d.begun} == map[];
  }

  // ---- charges in any order ----

  lemma {:induction false} TotalWithout(cs: seq<Charge>, j: nat)
    requires j < |cs|
    ensures Total(cs) == cs[j].bytes + Total(cs[..j] + cs[j + 1..])
  {
    if j == 0 {
      assert cs[..0] + cs[1..] == cs[1..];
    } else {
      TotalWithout(cs[1..], j - 1);
      assert (cs[..j] + cs[j + 1..])[1..] == cs[1..][..j - 1] + cs[1..][j..];
    }
  }

  lemma RemoveOne(cs: seq<Charge>, j: nat)
    requires j < |cs|
    ensures multiset(cs[..j] + cs[j + 1..]) == multiset(cs) - multiset{cs[j]}
  {
    assert cs == cs[..j] + [cs[j]] + cs[j + 1..];
  }

  lemma {:induction false} TotalPermutes(a: seq<Charge>, b: seq<Charge>)
    requires multiset(a) == multiset(b)
    ensures Total(a) == Total(b)
    decreases |a|
  {
    if a == [] {
      assert |b| == |multiset(b)| == 0;
    } else {
      var j := Find(a[0], b);
      TotalWithout(a, 0);
      TotalWithout(b, j);
      RestsAgree(a, b, j);
      hide *;
      TotalPermutes(a[..0] + a[1..], b[..j] + b[j + 1..]);
    }
  }

  lemma RestsAgree(a: seq<Charge>, b: seq<Charge>, j: nat)
    requires multiset(a) == multiset(b) && a != [] && j < |b| && b[j] == a[0]
    ensures multiset(a[..0] + a[1..]) == multiset(b[..j] + b[j + 1..])
  {
    RemoveOne(a, 0);
    RemoveOne(b, j);
  }

  lemma Find(c: Charge, b: seq<Charge>) returns (j: nat)
    requires c in multiset(b)
    ensures j < |b| && b[j] == c
  {
    j :| 0 <= j < |b| && b[j] == c;
  }

  lemma {:induction false} TotalAppend(a: seq<Charge>, b: seq<Charge>)
    ensures Total(a + b) == Total(a) + Total(b)
  {
    if a == [] {
      assert a + b == b;
    } else {
      TotalAppend(a[1..], b);
      assert (a + b)[1..] == a[1..] + b;
    }
  }
}
