/** The integrity rules of the database, one table at a time: primary keys
    in increasing order and below the next key handed out, the unique
    columns, and foreign keys into the referenced table (given as its set of
    primary keys). Each write the store makes comes with a lemma saying the
    rules survive it. */
module Tables {
  import opened Base
  import opened Houses
  import opened Meters
  import opened Tenants

  // ---- primary keys ----

  function HouseIds(hs: seq<House>): (ids: set<nat>)
  {
    set i | 0 <= i < |hs| :: hs[i].id
  }

  function TenantIds(ts: seq<Tenant>): (ids: set<nat>)
  {
    set i | 0 <= i < |ts| :: ts[i].id
  }

  function MeterIds(ms: seq<Meter>): (ids: set<nat>)
  {
    set i | 0 <= i < |ms| :: ms[i].id
  }

  /** The position of the house with primary key `id`. */
  function HouseIndex(hs: seq<House>, id: nat): (r: Option<nat>)
    ensures r.Some? ==> r.value < |hs| && hs[r.value].id == id
    ensures r.None? <==> id !in HouseIds(hs)
  {
    if hs == [] then None
    else if hs[|hs| - 1].id == id then Some(|hs| - 1)
    else
      var r := HouseIndex(hs[..|hs| - 1], id);
      assert HouseIds(hs) == HouseIds(hs[..|hs| - 1]) + {hs[|hs| - 1].id};
      r
  }

  /** The position of the tenant with primary key `id`. */
  function TenantIndex(ts: seq<Tenant>, id: nat): (r: Option<nat>)
    ensures r.Some? ==> r.value < |ts| && ts[r.value].id == id
    ensures r.None? <==> id !in TenantIds(ts)
  {
    if ts == [] then None
    else if ts[|ts| - 1].id == id then Some(|ts| - 1)
    else
      var r := TenantIndex(ts[..|ts| - 1], id);
      assert TenantIds(ts) == TenantIds(ts[..|ts| - 1]) + {ts[|ts| - 1].id};
      r
  }

  /** The position of the meter with primary key `id`. */
  function MeterIndex(ms: seq<Meter>, id: nat): (r: Option<nat>)
    ensures r.Some? ==> r.value < |ms| && ms[r.value].id == id
    ensures r.None? <==> id !in MeterIds(ms)
  {
    if ms == [] then None
    else if ms[|ms| - 1].id == id then Some(|ms| - 1)
    else
      var r := MeterIndex(ms[..|ms| - 1], id);
      assert MeterIds(ms) == MeterIds(ms[..|ms| - 1]) + {ms[|ms| - 1].id};
      r
  }

  // ---- the rules of each table, stated row by row ----

  /** Each table is valid when it is the empty table or a valid table with
      one more row appended: the new row's key is above every earlier key
      and below the next key handed out, its unique columns repeat no
      earlier row's, and its foreign keys point at stored rows. */
  ghost predicate HousesOk(hs: seq<House>, next: nat)
    decreases |hs|
  {
    hs == [] ||
    (var p, h := hs[..|hs| - 1], hs[|hs| - 1];
     HousesOk(p, h.id) && h.id < next && !HouseNumberTaken(p, h.number))
  }

  ghost predicate OwnersOk(os: seq<Owner>, houseIds: set<nat>, next: nat)
    decreases |os|
  {
    os == [] ||
    (var p, o := os[..|os| - 1], os[|os| - 1];
     OwnersOk(p, houseIds, o.id) && o.id < next && !OwnerKeyTaken(p, o) && o.houses <= houseIds)
  }

  /** A stored tenant has the email, phone number or id card number of `t`. */
  predicate TenantKeyUsed(ts: seq<Tenant>, t: Tenant)
  {
    exists j :: 0 <= j < |ts| && KeyClash(ts[j].email, ts[j].phone, ts[j].idCard, t.email, t.phone, t.idCard)
  }

  ghost predicate TenantsOk(ts: seq<Tenant>, houseIds: set<nat>, next: nat)
    decreases |ts|
  {
    ts == [] ||
    (var p, t := ts[..|ts| - 1], ts[|ts| - 1];
     TenantsOk(p, houseIds, t.id) && t.id < next && !TenantKeyUsed(p, t) &&
     (t.house.Some? ==> !Linked(p, t.house.value) && t.house.value in houseIds))
  }

  /** A stored household has the email, phone number or id card number of `h`. */
  predicate HouseholdKeyUsed(hs: seq<Household>, h: Household)
  {
    exists j :: 0 <= j < |hs| && KeyClash(hs[j].email, hs[j].phone, hs[j].idCard, h.email, h.phone, h.idCard)
  }

  ghost predicate HouseholdsOk(hs: seq<Household>, tenantIds: set<nat>, next: nat)
    decreases |hs|
  {
    hs == [] ||
    (var p, h := hs[..|hs| - 1], hs[|hs| - 1];
     HouseholdsOk(p, tenantIds, h.id) && h.id < next && !HouseholdKeyUsed(p, h) && h.tenant in tenantIds)
  }

  ghost predicate MetersOk(ms: seq<Meter>, houseIds: set<nat>, next: nat)
    decreases |ms|
  {
    ms == [] ||
    (var p, m := ms[..|ms| - 1], ms[|ms| - 1];
     MetersOk(p, houseIds, m.id) && m.id < next && !NumberTaken(p, m.number) && m.house in houseIds)
  }

  ghost predicate ReadingsOk(rs: seq<Reading>, meterIds: set<nat>, next: nat)
    decreases |rs|
  {
    rs == [] ||
    (var p, r := rs[..|rs| - 1], rs[|rs| - 1];
     ReadingsOk(p, meterIds, r.id) && r.id < next && r.meter in meterIds)
  }

  /** The whole database: every table valid, the foreign keys resolved
      against the referenced tables. */
  ghost predicate TablesOk(houses: seq<House>, owners: seq<Owner>, tenants: seq<Tenant>,
                           households: seq<Household>, meters: seq<Meter>, readings: seq<Reading>,
                           next: nat)
  {
    && HousesOk(houses, next)
    && OwnersOk(owners, HouseIds(houses), next)
    && TenantsOk(tenants, HouseIds(houses), next)
    && HouseholdsOk(households, TenantIds(tenants), next)
    && MetersOk(meters, HouseIds(houses), next)
    && ReadingsOk(readings, MeterIds(meters), next)
  }

  lemma EmptyTablesOk(next: nat)
    ensures TablesOk([], [], [], [], [], [], next)
  {
    assert HouseIds([]) == {} && TenantIds([]) == {} && MeterIds([]) == {};
  }

  // ---- the same rules, stated over all rows at once ----

  ghost predicate HouseRules(hs: seq<House>, next: nat)
  {
    && (forall i, j :: 0 <= i < j < |hs| ==> hs[i].id < hs[j].id)
    && (forall i :: 0 <= i < |hs| ==> hs[i].id < next)
    && UniqueHouseNumbers(hs)
  }

  ghost predicate OwnerRules(os: seq<Owner>, houseIds: set<nat>, next: nat)
  {
    && (forall i, j :: 0 <= i < j < |os| ==> os[i].id < os[j].id)
    && (forall i :: 0 <= i < |os| ==> os[i].id < next)
    && UniqueOwnerKeys(os)
    && (forall i :: 0 <= i < |os| ==> os[i].houses <= houseIds)
  }

  ghost predicate UniqueTenantKeys(ts: seq<Tenant>)
  {
    forall i, j :: 0 <= i < j < |ts| ==>
      ts[i].email != ts[j].email && ts[i].phone != ts[j].phone && ts[i].idCard != ts[j].idCard
  }

  ghost predicate TenantRules(ts: seq<Tenant>, houseIds: set<nat>, next: nat)
  {
    && (forall i, j :: 0 <= i < j < |ts| ==> ts[i].id < ts[j].id)
    && (forall i :: 0 <= i < |ts| ==> ts[i].id < next)
    && UniqueTenantKeys(ts)
    && OneTenantPerHouse(ts)
    && (forall i :: 0 <= i < |ts| && ts[i].house.Some? ==> ts[i].house.value in houseIds)
  }

  ghost predicate UniqueHouseholdKeys(hs: seq<Household>)
  {
    forall i, j :: 0 <= i < j < |hs| ==>
      hs[i].email != hs[j].email && hs[i].phone != hs[j].phone && hs[i].idCard != hs[j].idCard
  }

  ghost predicate HouseholdRules(hs: seq<Household>, tenantIds: set<nat>, next: nat)
  {
    && (forall i, j :: 0 <= i < j < |hs| ==> hs[i].id < hs[j].id)
    && (forall i :: 0 <= i < |hs| ==> hs[i].id < next)
    && UniqueHouseholdKeys(hs)
    && (forall i :: 0 <= i < |hs| ==> hs[i].tenant in tenantIds)
  }

  ghost predicate UniqueMeterNumbers(ms: seq<Meter>)
  {
    forall i, j :: 0 <= i < j < |ms| ==> ms[i].number != ms[j].number
  }

  ghost predicate MeterRules(ms: seq<Meter>, houseIds: set<nat>, next: nat)
  {
    && (forall i, j :: 0 <= i < j < |ms| ==> ms[i].id < ms[j].id)
    && (forall i :: 0 <= i < |ms| ==> ms[i].id < next)
    && UniqueMeterNumbers(ms)
    && (forall i :: 0 <= i < |ms| ==> ms[i].house in houseIds)
  }

  ghost predicate ReadingRules(rs: seq<Reading>, meterIds: set<nat>, next: nat)
  {
    && (forall i, j :: 0 <= i < j < |rs| ==> rs[i].id < rs[j].id)
    && (forall i :: 0 <= i < |rs| ==> rs[i].id < next)
    && (forall i :: 0 <= i < |rs| ==> rs[i].meter in meterIds)
  }

  // ---- the two statements agree ----

  lemma {:induction false} HouseRulesHold(hs: seq<House>, next: nat)
    requires HousesOk(hs, next)
    ensures HouseRules(hs, next)
    decreases |hs|
  {
    if hs != [] {
      var p, h := hs[..|hs| - 1], hs[|hs| - 1];
      HouseRulesHold(p, h.id);
      assert forall i :: 0 <= i < |p| ==> p[i] == hs[i];
    }
  }

  lemma {:induction false} HousesOkFromRules(hs: seq<House>, next: nat)
    requires HouseRules(hs, next)
    ensures HousesOk(hs, next)
    decreases |hs|
  {
    if hs != [] {
      var p, h := hs[..|hs| - 1], hs[|hs| - 1];
      assert forall i :: 0 <= i < |p| ==> p[i] == hs[i];
      HousesOkFromRules(p, h.id);
    }
  }

  lemma {:induction false} OwnerRulesHold(os: seq<Owner>, ids: set<nat>, next: nat)
    requires OwnersOk(os, ids, next)
    ensures OwnerRules(os, ids, next)
    decreases |os|
  {
    if os != [] {
      var p, o := os[..|os| - 1], os[|os| - 1];
      OwnerRulesHold(p, ids, o.id);
      assert forall i :: 0 <= i < |p| ==> p[i] == os[i];
    }
  }

  lemma {:induction false} OwnersOkFromRules(os: seq<Owner>, ids: set<nat>, next: nat)
    requires OwnerRules(os, ids, next)
    ensures OwnersOk(os, ids, next)
    decreases |os|
  {
    if os != [] {
      var p, o := os[..|os| - 1], os[|os| - 1];
      assert forall i :: 0 <= i < |p| ==> p[i] == os[i];
      OwnersOkFromRules(p, ids, o.id);
    }
  }

  lemma {:induction false} TenantRulesHold(ts: seq<Tenant>, ids: set<nat>, next: nat)
    requires TenantsOk(ts, ids, next)
    ensures TenantRules(ts, ids, next)
    decreases |ts|
  {
    if ts != [] {
      var p, t := ts[..|ts| - 1], ts[|ts| - 1];
      TenantRulesHold(p, ids, t.id);
      assert forall i :: 0 <= i < |p| ==> p[i] == ts[i];
    }
  }

  lemma {:induction false} TenantsOkFromRules(ts: seq<Tenant>, ids: set<nat>, next: nat)
    requires TenantRules(ts, ids, next)
    ensures TenantsOk(ts, ids, next)
    decreases |ts|
  {
    if ts != [] {
      var p, t := ts[..|ts| - 1], ts[|ts| - 1];
      assert forall i :: 0 <= i < |p| ==> p[i] == ts[i];
      TenantsOkFromRules(p, ids, t.id);
    }
  }

  lemma {:induction false} HouseholdRulesHold(hs: seq<Household>, ids: set<nat>, next: nat)
    requires HouseholdsOk(hs, ids, next)
    ensures HouseholdRules(hs, ids, next)
    decreases |hs|
  {
    if hs != [] {
      var p, h := hs[..|hs| - 1], hs[|hs| - 1];
      HouseholdRulesHold(p, ids, h.id);
      assert forall i :: 0 <= i < |p| ==> p[i] == hs[i];
    }
  }

  lemma {:induction false} HouseholdsOkFromRules(hs: seq<Household>, ids: set<nat>, next: nat)
    requires HouseholdRules(hs, ids, next)
    ensures HouseholdsOk(hs, ids, next)
    decreases |hs|
  {
    if hs != [] {
      var p, h := hs[..|hs| - 1], hs[|hs| - 1];
      assert forall i :: 0 <= i < |p| ==> p[i] == hs[i];
      HouseholdsOkFromRules(p, ids, h.id);
    }
  }

  lemma {:induction false} MeterRulesHold(ms: seq<Meter>, ids: set<nat>, next: nat)
    requires MetersOk(ms, ids, next)
    ensures MeterRules(ms, ids, next)
    decreases |ms|
  {
    if ms != [] {
      var p, m := ms[..|ms| - 1], ms[|ms| - 1];
      MeterRulesHold(p, ids, m.id);
      assert forall i :: 0 <= i < |p| ==> p[i] == ms[i];
    }
  }

  lemma {:induction false} MetersOkFromRules(ms: seq<Meter>, ids: set<nat>, next: nat)
    requires MeterRules(ms, ids, next)
    ensures MetersOk(ms, ids, next)
    decreases |ms|
  {
    if ms != [] {
      var p, m := ms[..|ms| - 1], ms[|ms| - 1];
      assert forall i :: 0 <= i < |p| ==> p[i] == ms[i];
      MetersOkFromRules(p, ids, m.id);
    }
  }

  lemma {:induction false} ReadingRulesHold(rs: seq<Reading>, ids: set<nat>, next: nat)
    requires ReadingsOk(rs, ids, next)
    ensures ReadingRules(rs, ids, next)
    decreases |rs|
  {
    if rs != [] {
      var p, r := rs[..|rs| - 1], rs[|rs| - 1];
      ReadingRulesHold(p, ids, r.id);
      assert forall i :: 0 <= i < |p| ==> p[i] == rs[i];
    }
  }

  lemma {:induction false} ReadingsOkFromRules(rs: seq<Reading>, ids: set<nat>, next: nat)
    requires ReadingRules(rs, ids, next)
    ensures ReadingsOk(rs, ids, next)
    decreases |rs|
  {
    if rs != [] {
      var p, r := rs[..|rs| - 1], rs[|rs| - 1];
      assert forall i :: 0 <= i < |p| ==> p[i] == rs[i];
      ReadingsOkFromRules(p, ids, r.id);
    }
  }

  // ---- the rules survive a larger next key and larger referenced tables ----

  lemma HousesWiden(hs: seq<House>, next: nat, next': nat)
    requires HousesOk(hs, next) && next <= next'
    ensures HousesOk(hs, next')
  {
  }

  lemma {:induction false} OwnersWiden(os: seq<Owner>, ids: set<nat>, ids': set<nat>, next: nat, next': nat)
    requires OwnersOk(os, ids, next) && ids <= ids' && next <= next'
    ensures OwnersOk(os, ids', next')
    decreases |os|
  {
    if os != [] {
      OwnersWiden(os[..|os| - 1], ids, ids', os[|os| - 1].id, os[|os| - 1].id);
    }
  }

  lemma {:induction false} TenantsWiden(ts: seq<Tenant>, ids: set<nat>, ids': set<nat>, next: nat, next': nat)
    requires TenantsOk(ts, ids, next) && ids <= ids' && next <= next'
    ensures TenantsOk(ts, ids', next')
    decreases |ts|
  {
    if ts != [] {
      TenantsWiden(ts[..|ts| - 1], ids, ids', ts[|ts| - 1].id, ts[|ts| - 1].id);
    }
  }

  lemma {:induction false} HouseholdsWiden(hs: seq<Household>, ids: set<nat>, ids': set<nat>, next: nat, next': nat)
    requires HouseholdsOk(hs, ids, next) && ids <= ids' && next <= next'
    ensures HouseholdsOk(hs, ids', next')
    decreases |hs|
  {
    if hs != [] {
      HouseholdsWiden(hs[..|hs| - 1], ids, ids', hs[|hs| - 1].id, hs[|hs| - 1].id);
    }
  }

  lemma {:induction false} MetersWiden(ms: seq<Meter>, ids: set<nat>, ids': set<nat>, next: nat, next': nat)
    requires MetersOk(ms, ids, next) && ids <= ids' && next <= next'
    ensures MetersOk(ms, ids', next')
    decreases |ms|
  {
    if ms != [] {
      MetersWiden(ms[..|ms| - 1], ids, ids', ms[|ms| - 1].id, ms[|ms| - 1].id);
    }
  }

  lemma {:induction false} ReadingsWiden(rs: seq<Reading>, ids: set<nat>, ids': set<nat>, next: nat, next': nat)
    requires ReadingsOk(rs, ids, next) && ids <= ids' && next <= next'
    ensures ReadingsOk(rs, ids', next')
    decreases |rs|
  {
    if rs != [] {
      ReadingsWiden(rs[..|rs| - 1], ids, ids', rs[|rs| - 1].id, rs[|rs| - 1].id);
    }
  }

  // ---- the writes ----

  /** A house whose number is not taken can be inserted under the next key. */
  lemma HouseInserted(hs: seq<House>, next: nat, h: House)
    requires HousesOk(hs, next) && h.id == next && !HouseNumberTaken(hs, h.number)
    ensures HousesOk(hs + [h], next + 1)
    ensures HouseIds(hs + [h]) == HouseIds(hs) + {h.id}
  {
    assert (hs + [h])[..|hs|] == hs;
    forall x | x in HouseIds(hs + [h]) ensures x in HouseIds(hs) + {h.id} {
      var i :| 0 <= i < |hs + [h]| && (hs + [h])[i].id == x;
      if i < |hs| {
        assert hs[i].id == x;
      }
    }
    forall x | x in HouseIds(hs) + {h.id} ensures x in HouseIds(hs + [h]) {
      if x == h.id {
        assert (hs + [h])[|hs|].id == x;
      } else {
        var i :| 0 <= i < |hs| && hs[i].id == x;
        assert (hs + [h])[i].id == x;
      }
    }
  }

  /** The houses after setting the status of the house with id `house`. */
  function WithHouseStatus(hs: seq<House>, house: nat, s: HouseStatus): (r: seq<House>)
    ensures |r| == |hs|
    ensures forall i :: 0 <= i < |hs| ==>
      r[i] == if hs[i].id == house then hs[i].(status := s) else hs[i]
  {
    if hs == [] then []
    else [if hs[0].id == house then hs[0].(status := s) else hs[0]] + WithHouseStatus(hs[1..], house, s)
  }

  /** Changing a house's status keeps the rules and the set of keys. */
  lemma HouseStatusSet(hs: seq<House>, next: nat, house: nat, s: HouseStatus)
    requires HousesOk(hs, next)
    ensures HousesOk(WithHouseStatus(hs, house, s), next)
    ensures HouseIds(WithHouseStatus(hs, house, s)) == HouseIds(hs)
  {
    var r := WithHouseStatus(hs, house, s);
    HouseRulesHold(hs, next);
    HouseRulesTransfer(hs, r, next);
    HousesOkFromRules(r, next);
    SameHouseIds(hs, r);
  }

  lemma SameHouseIds(hs: seq<House>, r: seq<House>)
    requires |r| == |hs| && forall i :: 0 <= i < |hs| ==> r[i].id == hs[i].id
    ensures HouseIds(r) == HouseIds(hs)
  {
    forall x | x in HouseIds(hs) ensures x in HouseIds(r) {
      var i :| 0 <= i < |hs| && hs[i].id == x;
      assert r[i].id == x;
    }
    forall x | x in HouseIds(r) ensures x in HouseIds(hs) {
      var i :| 0 <= i < |r| && r[i].id == x;
      assert hs[i].id == x;
    }
  }

  /** The house rules look only at keys and numbers. */
  lemma HouseRulesTransfer(hs: seq<House>, r: seq<House>, next: nat)
    requires HouseRules(hs, next) && |r| == |hs|
    requires forall i :: 0 <= i < |hs| ==> r[i].id == hs[i].id && r[i].number == hs[i].number
    ensures HouseRules(r, next)
  {
  }

  /** Setting a house's status to the one it already has changes nothing. */
  lemma SameStatusLeavesHouses(hs: seq<House>, next: nat, h: nat)
    requires HousesOk(hs, next) && h < |hs|
    ensures WithHouseStatus(hs, hs[h].id, hs[h].status) == hs
  {
    HouseRulesHold(hs, next);
    var r := WithHouseStatus(hs, hs[h].id, hs[h].status);
    forall i | 0 <= i < |hs| ensures r[i] == hs[i] {
      if hs[i].id == hs[h].id {
        assert i == h by {
          if i < h {} else if i > h {}
        }
      }
    }
  }

  /** An owner whose keys are free and whose houses all exist can be inserted
      under the next key. */
  lemma OwnerInserted(os: seq<Owner>, ids: set<nat>, next: nat, o: Owner)
    requires OwnersOk(os, ids, next) && o.id == next && !OwnerKeyTaken(os, o) && o.houses <= ids
    ensures OwnersOk(os + [o], ids, next + 1)
  {
    assert (os + [o])[..|os|] == os;
  }

  /** `t` may be stored at position `k` of the tenants (`k == |ts|` for a new
      one): its unique columns and its house link repeat no other tenant's,
      and its house exists. */
  ghost predicate TenantFits(ts: seq<Tenant>, houseIds: set<nat>, k: nat, t: Tenant)
  {
    (forall j :: 0 <= j < |ts| && j != k ==>
       ts[j].email != t.email && ts[j].phone != t.phone && ts[j].idCard != t.idCard &&
       (t.house.Some? ==> ts[j].house != t.house)) &&
    (t.house.Some? ==> t.house.value in houseIds)
  }

  lemma TenantInserted(ts: seq<Tenant>, ids: set<nat>, next: nat, t: Tenant)
    requires TenantsOk(ts, ids, next) && t.id == next && TenantFits(ts, ids, |ts|, t)
    ensures TenantsOk(ts + [t], ids, next + 1)
    ensures TenantIds(ts + [t]) == TenantIds(ts) + {t.id}
  {
    assert (ts + [t])[..|ts|] == ts;
    forall x | x in TenantIds(ts + [t]) ensures x in TenantIds(ts) + {t.id} {
      var i :| 0 <= i < |ts + [t]| && (ts + [t])[i].id == x;
      if i < |ts| {
        assert ts[i].id == x;
      }
    }
    forall x | x in TenantIds(ts) + {t.id} ensures x in TenantIds(ts + [t]) {
      if x == t.id {
        assert (ts + [t])[|ts|].id == x;
      } else {
        var i :| 0 <= i < |ts| && ts[i].id == x;
        assert (ts + [t])[i].id == x;
      }
    }
  }

  lemma TenantReplaced(ts: seq<Tenant>, ids: set<nat>, next: nat, k: nat, t: Tenant)
    requires TenantsOk(ts, ids, next) && k < |ts| && t.id == ts[k].id && TenantFits(ts, ids, k, t)
    ensures TenantsOk(ts[k := t], ids, next)
    ensures TenantIds(ts[k := t]) == TenantIds(ts)
  {
    TenantRulesHold(ts, ids, next);
    TenantRulesAfterReplacing(ts, ids, next, k, t);
    TenantsOkFromRules(ts[k := t], ids, next);
    SameTenantIds(ts, ts[k := t]);
  }

  lemma TenantRulesAfterReplacing(ts: seq<Tenant>, ids: set<nat>, next: nat, k: nat, t: Tenant)
    requires TenantRules(ts, ids, next) && k < |ts| && t.id == ts[k].id && TenantFits(ts, ids, k, t)
    ensures TenantRules(ts[k := t], ids, next)
  {
    var ts' := ts[k := t];
    assert forall i :: 0 <= i < |ts| ==> ts'[i].id == ts[i].id;
    assert UniqueTenantKeys(ts') by {
      forall i, j | 0 <= i < j < |ts'|
        ensures ts'[i].email != ts'[j].email && ts'[i].phone != ts'[j].phone && ts'[i].idCard != ts'[j].idCard
      {
        if i == k {
          assert ts'[j] == ts[j];
        } else if j == k {
          assert ts'[i] == ts[i];
        } else {
          assert ts'[i] == ts[i] && ts'[j] == ts[j];
        }
      }
    }
    assert OneTenantPerHouse(ts') by {
      forall i, j | 0 <= i < j < |ts'| && ts'[i].house.Some?
        ensures ts'[i].house != ts'[j].house
      {
        if i == k {
          assert ts[j].house != t.house;
        } else if j == k {
          assert ts[i].house != t.house;
        }
      }
    }
  }

  lemma SameTenantIds(ts: seq<Tenant>, r: seq<Tenant>)
    requires |r| == |ts| && forall i :: 0 <= i < |ts| ==> r[i].id == ts[i].id
    ensures TenantIds(r) == TenantIds(ts)
  {
    forall x | x in TenantIds(ts) ensures x in TenantIds(r) {
      var i :| 0 <= i < |ts| && ts[i].id == x;
      assert r[i].id == x;
    }
    forall x | x in TenantIds(r) ensures x in TenantIds(ts) {
      var i :| 0 <= i < |r| && r[i].id == x;
      assert ts[i].id == x;
    }
  }

  /** A household whose keys are free, of a stored tenant, can be inserted
      under the next key. */
  lemma HouseholdInserted(hs: seq<Household>, ids: set<nat>, next: nat, h: Household)
    requires HouseholdsOk(hs, ids, next) && h.id == next && h.tenant in ids
    requires !HouseholdKeyUsed(hs, h)
    ensures HouseholdsOk(hs + [h], ids, next + 1)
  {
    assert (hs + [h])[..|hs|] == hs;
  }

  /** The household update of `Tenant.save` only sets end dates. */
  lemma HouseholdsCascaded(hs: seq<Household>, ids: set<nat>, next: nat, t: Tenant, now: int)
    requires HouseholdsOk(hs, ids, next)
    ensures HouseholdsOk(SaveCascade(hs, t, now), ids, next)
  {
    var r := SaveCascade(hs, t, now);
    HouseholdRulesHold(hs, ids, next);
    HouseholdRulesTransfer(hs, r, ids, next);
    HouseholdsOkFromRules(r, ids, next);
  }

  /** The household rules look only at keys, unique columns and tenants. */
  lemma HouseholdRulesTransfer(hs: seq<Household>, r: seq<Household>, ids: set<nat>, next: nat)
    requires HouseholdRules(hs, ids, next) && |r| == |hs|
    requires forall i :: 0 <= i < |hs| ==>
      r[i].id == hs[i].id && r[i].email == hs[i].email && r[i].phone == hs[i].phone &&
      r[i].idCard == hs[i].idCard && r[i].tenant == hs[i].tenant
    ensures HouseholdRules(r, ids, next)
  {
  }

  /** A meter whose number is not taken, in a stored house, can be inserted
      under the next key. */
  lemma MeterInserted(ms: seq<Meter>, ids: set<nat>, next: nat, m: Meter)
    requires MetersOk(ms, ids, next) && m.id == next && !NumberTaken(ms, m.number) && m.house in ids
    ensures MetersOk(ms + [m], ids, next + 1)
    ensures MeterIds(ms + [m]) == MeterIds(ms) + {m.id}
  {
    assert (ms + [m])[..|ms|] == ms;
    forall x | x in MeterIds(ms + [m]) ensures x in MeterIds(ms) + {m.id} {
      var i :| 0 <= i < |ms + [m]| && (ms + [m])[i].id == x;
      if i < |ms| {
        assert ms[i].id == x;
      }
    }
    forall x | x in MeterIds(ms) + {m.id} ensures x in MeterIds(ms + [m]) {
      if x == m.id {
        assert (ms + [m])[|ms|].id == x;
      } else {
        var i :| 0 <= i < |ms| && ms[i].id == x;
        assert (ms + [m])[i].id == x;
      }
    }
  }

  /** Changing a meter's status and current flag keeps the rules and keys. */
  lemma MeterRestatused(ms: seq<Meter>, ids: set<nat>, next: nat, k: nat, m: Meter)
    requires MetersOk(ms, ids, next) && k < |ms|
    requires m == ms[k].(status := m.status, isCurrent := m.isCurrent)
    ensures MetersOk(ms[k := m], ids, next)
    ensures MeterIds(ms[k := m]) == MeterIds(ms)
  {
    var ms' := ms[k := m];
    MeterRulesHold(ms, ids, next);
    MetersOkFromRules(ms', ids, next);
    SameMeterIds(ms, ms');
  }

  lemma SameMeterIds(ms: seq<Meter>, r: seq<Meter>)
    requires |r| == |ms| && forall i :: 0 <= i < |ms| ==> r[i].id == ms[i].id
    ensures MeterIds(r) == MeterIds(ms)
  {
    forall x | x in MeterIds(ms) ensures x in MeterIds(r) {
      var i :| 0 <= i < |ms| && ms[i].id == x;
      assert r[i].id == x;
    }
    forall x | x in MeterIds(r) ensures x in MeterIds(ms) {
      var i :| 0 <= i < |r| && r[i].id == x;
      assert ms[i].id == x;
    }
  }

  /** A replacement whose new number is not taken keeps the rules; the new
      meter's key is the only new key. */
  lemma MeterReplaced(ms: seq<Meter>, ids: set<nat>, next: nat, k: nat, status: MeterStatus,
                      number: string, today: int)
    requires MetersOk(ms, ids, next) && k < |ms| && !NumberTaken(ms, number)
    ensures MetersOk(AfterReplacement(ms, k, status, number, next, today), ids, next + 1)
    ensures MeterIds(AfterReplacement(ms, k, status, number, next, today)) == MeterIds(ms) + {next}
  {
    var old_ := ms[k].(status := status, isCurrent := false);
    MeterRulesHold(ms, ids, next);
    MeterRestatused(ms, ids, next, k, old_);
    var ms1 := ms[k := old_];
    assert !NumberTaken(ms1, number) by {
      forall i | 0 <= i < |ms1| ensures ms1[i].number != number {
        assert ms1[i].number == ms[i].number;
      }
    }
    MeterInserted(ms1, ids, next, NewMeter(next, number, ms[k].house, today));
    assert AfterReplacement(ms, k, status, number, next, today) == ms1 + [NewMeter(next, number, ms[k].house, today)];
  }

  /** The keys of stored readings are distinct and below the next key. */
  lemma ReadingKeys(rs: seq<Reading>, ids: set<nat>, next: nat)
    requires ReadingsOk(rs, ids, next)
    ensures DistinctIds(rs) && forall i :: 0 <= i < |rs| ==> rs[i].id < next
  {
    ReadingRulesHold(rs, ids, next);
  }

  lemma ReadingInserted(rs: seq<Reading>, ids: set<nat>, next: nat, r: Reading)
    requires ReadingsOk(rs, ids, next) && r.id == next && r.meter in ids
    ensures ReadingsOk(rs + [r], ids, next + 1)
  {
    assert (rs + [r])[..|rs|] == rs;
  }

  lemma ReadingReplaced(rs: seq<Reading>, ids: set<nat>, next: nat, k: nat, r: Reading)
    requires ReadingsOk(rs, ids, next) && k < |rs| && r.id == rs[k].id && r.meter == rs[k].meter
    ensures ReadingsOk(rs[k := r], ids, next)
  {
    ReadingRulesHold(rs, ids, next);
    ReadingsOkFromRules(rs[k := r], ids, next);
  }
}
