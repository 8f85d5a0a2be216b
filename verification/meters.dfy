/** Meters, meter readings and the billing rules of the meter app: which
    reading is the latest, when a new reading is accepted, what saving a
    reading derives, the per-house meter page, and the "one current meter
    per house" rule with the operations that keep or break it. */
module Meters {
  import opened Base
  import opened Money

  datatype MeterStatus = Active | Inactive | Damaged | Replaced

  datatype Meter = Meter(
    id: nat,
    number: string,
    house: nat,
    installationDate: int,
    status: MeterStatus,
    isCurrent: bool)

  /** A meter created without a status or an is_current flag takes the field
      defaults: status active, and current. */
  function NewMeter(id: nat, number: string, house: nat, installationDate: int): (m: Meter)
    ensures m.status == Active && m.isCurrent
    ensures m.id == id && m.number == number && m.house == house
    ensures m.installationDate == installationDate
  {
    Meter(id, number, house, installationDate, Active, true)
  }

  /** `Meter.deactivate` on the record: inactive and no longer current,
      every other field as it was. */
  function Deactivated(m: Meter): (r: Meter)
    ensures r.status == Inactive && !r.isCurrent
    ensures r.id == m.id && r.number == m.number && r.house == m.house
    ensures r.installationDate == m.installationDate
  {
    m.(status := Inactive, isCurrent := false)
  }

  datatype Reading = Reading(
    id: nat,
    meter: nat,
    current: int,      // hundredths
    previous: int,     // hundredths
    date: int,
    readBy: nat,
    consumption: int,  // hundredths
    rate: int)         // hundredths per unit

  /** `MeterReading.bill_amount` of one reading, from its own rate. */
  function Bill(r: Reading): (b: int)
    ensures IsHalfEvenRounding(r.consumption * r.rate, b)
  {
    BillAmount(r.consumption, r.rate)
  }

  /** `a` is listed before `b` in the readings' default order
      (reading date descending, then id descending). */
  predicate NewerThan(a: Reading, b: Reading)
  {
    a.date > b.date || (a.date == b.date && a.id > b.id)
  }

  /** The first reading of `meter` in the default order, i.e. the latest. */
  function Latest(rs: seq<Reading>, meter: nat): (r: Option<Reading>)
    ensures r.None? <==> forall i :: 0 <= i < |rs| ==> rs[i].meter != meter
    ensures r.Some? ==> r.value in rs && r.value.meter == meter
    ensures r.Some? ==>
      forall i :: 0 <= i < |rs| && rs[i].meter == meter ==> !NewerThan(rs[i], r.value)
  {
    if rs == [] then None
    else
      var rest := Latest(rs[1..], meter);
      assert forall i :: 1 <= i < |rs| ==> rs[i] == rs[1..][i - 1];
      if rs[0].meter != meter then rest
      else if rest.None? || NewerThan(rs[0], rest.value) then Some(rs[0])
      else rest
  }

  /** The value a new reading of `meter` is compared with and takes as its
      previous reading: the latest reading's value, or 0 with no readings. */
  function PreviousValue(rs: seq<Reading>, meter: nat): (v: int)
    ensures (forall i :: 0 <= i < |rs| ==> rs[i].meter != meter) ==> v == 0
    ensures (exists i :: 0 <= i < |rs| && rs[i].meter == meter) ==>
      exists i :: 0 <= i < |rs| && rs[i].meter == meter && rs[i].current == v &&
        forall j :: 0 <= j < |rs| && rs[j].meter == meter ==> !NewerThan(rs[j], rs[i])
  {
    match Latest(rs, meter)
    case None => 0
    case Some(r) =>
      var i :| 0 <= i < |rs| && rs[i] == r;
      r.current
  }

  /** `MeterReadingForm.clean` as written: the comparison is skipped when the
      submitted value is falsy (the decimal zero) or no meter is given. */
  predicate ReadingAcceptedAsWritten(current: int, meter: Option<nat>, rs: seq<Reading>)
  {
    !(current != 0 && meter.Some? && current <= PreviousValue(rs, meter.value))
  }

  /** The check as its error message states it: with a meter, the submitted
      value must exceed the previous reading. */
  predicate ReadingAccepted(current: int, meter: Option<nat>, rs: seq<Reading>)
  {
    meter.None? || current > PreviousValue(rs, meter.value)
  }

  /** `MeterReading.save`. A new reading (no pk yet) takes the latest value
      of its meter as its previous reading; a stored one keeps its own. Both
      then recompute consumption. */
  function Saved(r: Reading, isNew: bool, rs: seq<Reading>): (s: Reading)
    ensures s.previous == (if isNew then PreviousValue(rs, r.meter) else r.previous)
    ensures s.consumption == s.current - s.previous
    ensures s.(previous := r.previous, consumption := r.consumption) == r
  {
    var previous := if isNew then PreviousValue(rs, r.meter) else r.previous;
    r.(previous := previous, consumption := r.current - previous)
  }

  /** An accepted reading of a meter, once saved, has a positive
      consumption and is billed at least nothing at a non-negative rate. */
  lemma AcceptedReadingConsumptionPositive(r: Reading, rs: seq<Reading>)
    requires ReadingAccepted(r.current, Some(r.meter), rs)
    requires 0 <= r.rate
    ensures Saved(r, true, rs).consumption > 0
    ensures Bill(Saved(r, true, rs)) >= 0
  {
    BillMonotone(0, Saved(r, true, rs).consumption, r.rate);
  }

  /** The check as written lets a zero reading through after a reading of
      100.00: the saved reading then has consumption -100.00 and a bill of
      -17100.00, which the stated check refuses. */
  lemma ZeroReadingAcceptedAsWritten()
    ensures var rs := [Reading(1, 7, 10000, 0, 20, 1, 10000, DefaultRate)];
            var r := Reading(2, 7, 0, 0, 21, 1, 0, DefaultRate);
            ReadingAcceptedAsWritten(0, Some(7), rs) &&
            !ReadingAccepted(0, Some(7), rs) &&
            Saved(r, true, rs).consumption == -10000 &&
            Bill(Saved(r, true, rs)) == -1710000
  {
    var rs := [Reading(1, 7, 10000, 0, 20, 1, 10000, DefaultRate)];
    assert Latest(rs, 7) == Some(rs[0]);
    BillAtWholeRate(-10000, 171);
  }

  /** The check as written and the stated check disagree only on a reading
      of zero against a previous reading of zero or more: then the first
      accepts and the second refuses. Elsewhere they agree. */
  lemma CheckAsWrittenDiffersOnlyAtZero(current: int, meter: Option<nat>, rs: seq<Reading>)
    ensures ReadingAccepted(current, meter, rs) ==> ReadingAcceptedAsWritten(current, meter, rs)
    ensures ReadingAcceptedAsWritten(current, meter, rs) && !ReadingAccepted(current, meter, rs) <==>
      current == 0 && meter.Some? && PreviousValue(rs, meter.value) >= 0
  {
  }

  /** The readings of each meter increase along the default order. */
  ghost predicate Increasing(rs: seq<Reading>)
  {
    forall i, j ::
      (0 <= i < |rs| && 0 <= j < |rs| && rs[i].meter == rs[j].meter && NewerThan(rs[i], rs[j]))
      ==> rs[i].current > rs[j].current
  }

  ghost predicate DistinctIds(rs: seq<Reading>)
  {
    forall i, j :: 0 <= i < j < |rs| ==> rs[i].id != rs[j].id
  }

  /** A reading that passes the check, dated no earlier than the other
      readings of its meter and with a newer id, keeps the readings of every
      meter increasing. */
  lemma AcceptedKeepsIncreasing(rs: seq<Reading>, n: Reading)
    requires Increasing(rs) && DistinctIds(rs)
    requires ReadingAccepted(n.current, Some(n.meter), rs)
    requires forall i :: 0 <= i < |rs| ==> rs[i].id < n.id
    requires forall i :: 0 <= i < |rs| && rs[i].meter == n.meter ==> rs[i].date <= n.date
    ensures Increasing(rs + [n])
  {
    var rs' := rs + [n];
    forall i, j | 0 <= i < |rs'| && 0 <= j < |rs'| && rs'[i].meter == rs'[j].meter &&
      NewerThan(rs'[i], rs'[j])
      ensures rs'[i].current > rs'[j].current
    {
      if i == |rs| && j < |rs| {
        var k :| 0 <= k < |rs| && rs[k].meter == n.meter && rs[k].current == PreviousValue(rs, n.meter) &&
          forall m :: 0 <= m < |rs| && rs[m].meter == n.meter ==> !NewerThan(rs[m], rs[k]);
        if k != j {
          assert rs[k].id != rs[j].id;
          assert NewerThan(rs[k], rs[j]);
        }
      }
    }
  }

  /** Listed in the readings' default order: no reading is newer than one
      listed before it. */
  ghost predicate NewestFirst(rs: seq<Reading>)
  {
    forall i, j :: 0 <= i < j < |rs| ==> !NewerThan(rs[j], rs[i])
  }

  /** Puts `x` into a list in default order, before the first reading that
      is not newer than it. */
  function InsertNewest(x: Reading, rs: seq<Reading>): (r: seq<Reading>)
    requires NewestFirst(rs)
    ensures NewestFirst(r)
    ensures multiset(r) == multiset(rs) + multiset{x}
  {
    if rs == [] then [x]
    else if !NewerThan(rs[0], x) then [x] + rs
    else
      var rest := InsertNewest(x, rs[1..]);
      assert rs == [rs[0]] + rs[1..];
      assert forall y :: y in rest ==> !NewerThan(y, rs[0]) by {
        forall y | y in rest
          ensures !NewerThan(y, rs[0])
        {
          assert y in multiset(rest);
          if y != x {
            assert y in multiset(rs[1..]);
          }
        }
      }
      [rs[0]] + rest
  }

  /** `meter.readings.all()`: the readings of one meter, each as often as it
      is stored, listed in the default order. */
  function OnMeter(rs: seq<Reading>, meter: nat): (r: seq<Reading>)
    ensures NewestFirst(r)
    ensures forall x :: multiset(r)[x] == if x.meter == meter then multiset(rs)[x] else 0
    ensures forall x :: x in r <==> x in rs && x.meter == meter
  {
    if rs == [] then []
    else
      assert rs == [rs[0]] + rs[1..];
      var rest := OnMeter(rs[1..], meter);
      var r := if rs[0].meter == meter then InsertNewest(rs[0], rest) else rest;
      assert forall x :: x in r <==> x in multiset(r);
      assert forall x :: x in rs <==> x in multiset(rs);
      r
  }

  /** With distinct keys, the value of the meter's latest reading is the
      value of the first reading the page lists. */
  lemma PreviousIsFirstListed(rs: seq<Reading>, meter: nat)
    requires DistinctIds(rs)
    requires OnMeter(rs, meter) != []
    ensures PreviousValue(rs, meter) == OnMeter(rs, meter)[0].current
  {
    var own := OnMeter(rs, meter);
    var first := own[0];
    var latest := Latest(rs, meter).value;
    assert latest in own;
    var j :| 0 <= j < |own| && own[j] == latest;
    assert !NewerThan(latest, first) by {
      if j > 0 {}
    }
    var a :| 0 <= a < |rs| && rs[a] == first;
    var b :| 0 <= b < |rs| && rs[b] == latest;
    assert a == b by {
      if a < b {} else if b < a {}
    }
  }

  /** `sum(reading.consumption for reading in readings)` */
  function TotalConsumption(rs: seq<Reading>): (c: int)
  {
    if rs == [] then 0 else rs[0].consumption + TotalConsumption(rs[1..])
  }

  /** `sum(reading.bill_amount for reading in readings)`: each reading is
      rounded on its own, then the rounded bills are added. */
  function TotalBill(rs: seq<Reading>): (b: int)
  {
    if rs == [] then 0 else Bill(rs[0]) + TotalBill(rs[1..])
  }

  /** When every reading is billed at the default rate, the total bill is the
      total consumption at 171.00 per unit, with no rounding. */
  lemma {:induction false} TotalBillAtDefaultRate(rs: seq<Reading>)
    requires forall i :: 0 <= i < |rs| ==> rs[i].rate == DefaultRate
    ensures TotalBill(rs) == 171 * TotalConsumption(rs)
  {
    if rs != [] {
      BillAtWholeRate(rs[0].consumption, 171);
      TotalBillAtDefaultRate(rs[1..]);
    }
  }

  /** The rate belongs to each reading: changing one reading changes the
      total bill by that reading's own bill and nothing else. */
  lemma {:induction false} TotalBillUpdate(rs: seq<Reading>, k: nat, r: Reading)
    requires k < |rs|
    ensures TotalBill(rs[k := r]) == TotalBill(rs) - Bill(rs[k]) + Bill(r)
  {
    if k > 0 {
      assert rs[k := r][1..] == rs[1..][k - 1 := r];
      TotalBillUpdate(rs[1..], k - 1, r);
    } else {
      assert rs[k := r][1..] == rs[1..];
    }
  }

  /** `max(readings, key=consumption)` over readings listed in the default
      order: the reading of greatest consumption, and among several of equal
      consumption the one listed first. */
  function Highest(rs: seq<Reading>): (r: Option<Reading>)
    ensures r.None? <==> rs == []
    ensures r.Some? ==> r.value in rs
    ensures r.Some? ==> forall i :: 0 <= i < |rs| ==> rs[i].consumption <= r.value.consumption
    ensures r.Some? ==> forall i :: 0 <= i < |rs| && rs[i].consumption == r.value.consumption ==>
      !NewerThan(rs[i], r.value)
  {
    if rs == [] then None
    else
      var rest := Highest(rs[1..]);
      assert forall i :: 1 <= i < |rs| ==> rs[i] == rs[1..][i - 1];
      if rest.None? then Some(rs[0])
      else
        var b := rest.value;
        if rs[0].consumption > b.consumption ||
           (rs[0].consumption == b.consumption && NewerThan(rs[0], b))
        then Some(rs[0])
        else rest
  }

  predicate IsCurrentOf(m: Meter, house: nat)
  {
    m.isCurrent && m.house == house
  }

  /** `house.meters.filter(is_current=True).exists()` */
  predicate HasCurrentMeter(ms: seq<Meter>, house: nat)
  {
    exists i :: 0 <= i < |ms| && IsCurrentOf(ms[i], house)
  }

  /** `MeterForm.clean_meter_number`: a current meter already has this number. */
  predicate NumberInUse(ms: seq<Meter>, number: string)
  {
    exists i :: 0 <= i < |ms| && ms[i].number == number && ms[i].isCurrent
  }

  /** Some meter, current or not, already has this number (the unique column). */
  predicate NumberTaken(ms: seq<Meter>, number: string)
  {
    exists i :: 0 <= i < |ms| && ms[i].number == number
  }

  /** `MeterReplacementForm.clean`: only an inactive or damaged meter is replaced. */
  predicate Replaceable(status: MeterStatus)
  {
    status == Inactive || status == Damaged
  }

  /** At most one current meter per house. */
  ghost predicate OneCurrentPerHouse(ms: seq<Meter>)
  {
    forall i, j :: 0 <= i < j < |ms| && ms[i].isCurrent && ms[j].isCurrent ==>
      ms[i].house != ms[j].house
  }

  /** A new meter for a house without a current meter keeps the rule. */
  lemma AddingMeterKeepsOneCurrent(ms: seq<Meter>, m: Meter)
    requires OneCurrentPerHouse(ms)
    requires !HasCurrentMeter(ms, m.house)
    ensures OneCurrentPerHouse(ms + [m])
  {
    forall i, j | 0 <= i < j < |ms + [m]| && (ms + [m])[i].isCurrent && (ms + [m])[j].isCurrent
      ensures (ms + [m])[i].house != (ms + [m])[j].house
    {
      if j == |ms| {
        assert !IsCurrentOf(ms[i], m.house);
      }
    }
  }

  /** Deactivating a meter keeps the rule. */
  lemma DeactivatingKeepsOneCurrent(ms: seq<Meter>, k: nat)
    requires k < |ms| && OneCurrentPerHouse(ms)
    ensures OneCurrentPerHouse(ms[k := Deactivated(ms[k])])
  {
  }

  /** The meters after `MeterReplaceView.form_valid`: the old meter takes the
      submitted status and stops being current; a new current meter with the
      submitted number is installed in the same house on `today`. */
  function AfterReplacement(ms: seq<Meter>, k: nat, status: MeterStatus, number: string,
                            newId: nat, today: int): (r: seq<Meter>)
    requires k < |ms|
    ensures |r| == |ms| + 1
  {
    ms[k := ms[k].(status := status, isCurrent := false)] + [NewMeter(newId, number, ms[k].house, today)]
  }

  /** Replacing the current meter of a house (or any meter of a house that
      has none) keeps the rule, and the house then has exactly one current
      meter: the new one. */
  lemma ReplacementKeepsOneCurrent(ms: seq<Meter>, k: nat, status: MeterStatus, number: string,
                                   newId: nat, today: int)
    requires k < |ms| && OneCurrentPerHouse(ms)
    requires ms[k].isCurrent || !HasCurrentMeter(ms, ms[k].house)
    ensures OneCurrentPerHouse(AfterReplacement(ms, k, status, number, newId, today))
    ensures var r := AfterReplacement(ms, k, status, number, newId, today);
      forall i :: 0 <= i < |r| ==> (IsCurrentOf(r[i], ms[k].house) <==> i == |ms|)
  {
    var r := AfterReplacement(ms, k, status, number, newId, today);
    forall i | 0 <= i < |ms| && r[i].isCurrent
      ensures r[i].house != ms[k].house
    {
      assert i != k;
      if ms[k].isCurrent {
        if i < k {
          assert ms[i].house != ms[k].house;
        } else {
          assert ms[k].house != ms[i].house;
        }
      } else {
        assert !IsCurrentOf(ms[i], ms[k].house);
      }
    }
  }

  /** Replacing a meter that is no longer current, in a house that has a
      current meter, leaves that house with two current meters: nothing in
      the replacement path refuses it. */
  lemma ReplacingStaleMeterBreaksOneCurrent(ms: seq<Meter>, k: nat, status: MeterStatus,
                                            number: string, newId: nat, today: int)
    requires k < |ms| && !ms[k].isCurrent && HasCurrentMeter(ms, ms[k].house)
    ensures !OneCurrentPerHouse(AfterReplacement(ms, k, status, number, newId, today))
  {
    var r := AfterReplacement(ms, k, status, number, newId, today);
    var i :| 0 <= i < |ms| && IsCurrentOf(ms[i], ms[k].house);
    assert r[i] == ms[i] && r[|ms|].isCurrent && r[|ms|].house == ms[i].house;
  }

  /** `house.meters.filter(is_current=True).first()`: the current meter of the
      house with the lowest pk (the first in store order). */
  function FirstCurrent(ms: seq<Meter>, house: nat): (r: Option<Meter>)
    ensures r.None? <==> !HasCurrentMeter(ms, house)
    ensures r.Some? ==>
      exists i :: (0 <= i < |ms| && ms[i] == r.value && IsCurrentOf(ms[i], house) &&
                   forall j :: 0 <= j < i ==> !IsCurrentOf(ms[j], house))
  {
    if ms == [] then None
    else if IsCurrentOf(ms[0], house) then Some(ms[0])
    else
      var rest := FirstCurrent(ms[1..], house);
      assert forall i :: 1 <= i < |ms| ==> ms[i] == ms[1..][i - 1];
      rest
  }

  datatype Summary = Summary(totalConsumption: int, totalBill: int, highest: Reading)

  /** What `HouseMeterView.get_context_data` adds for a house: its current
      meter, that meter's readings, the previous reading, and the totals
      (which need at least one reading). */
  datatype MeterPage = MeterPage(
    meter: Option<Meter>,
    readings: seq<Reading>,
    previousReading: Option<int>,
    summary: Option<Summary>)

  function HouseMeterPage(house: nat, ms: seq<Meter>, rs: seq<Reading>): (p: MeterPage)
    ensures p.meter == FirstCurrent(ms, house)
    ensures p.meter.None? ==> p.readings == [] && p.previousReading.None? && p.summary.None?
    ensures p.meter.Some? ==>
      && NewestFirst(p.readings)
      && (forall x :: multiset(p.readings)[x] ==
            if x.meter == p.meter.value.id then multiset(rs)[x] else 0)
      && p.previousReading == Some(PreviousValue(rs, p.meter.value.id))
      && (p.summary.Some? <==> p.readings != [])
    ensures p.summary.Some? ==>
      && p.summary.value.totalConsumption == TotalConsumption(p.readings)
      && p.summary.value.totalBill == TotalBill(p.readings)
      && p.summary.value.highest in p.readings
      && (forall x :: x in p.readings ==> x.consumption <= p.summary.value.highest.consumption)
      && (forall x :: x in p.readings && x.consumption == p.summary.value.highest.consumption ==>
            !NewerThan(x, p.summary.value.highest))
  {
    match FirstCurrent(ms, house)
    case None => MeterPage(None, [], None, None)
    case Some(m) =>
      var own := OnMeter(rs, m.id);
      if own == [] then MeterPage(Some(m), own, Some(0), None)
      else
        var h := Highest(own);
        MeterPage(Some(m), own, Some(PreviousValue(rs, m.id)),
                  Some(Summary(TotalConsumption(own), TotalBill(own), h.value)))
  }
}
