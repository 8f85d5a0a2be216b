/** The record store of one estate and the requests that change it. Each
    table is a sequence of records in primary-key order; `nextId` is the next
    primary key handed out. Each method is one request (or one model method)
    and runs as a whole: a refused request leaves the store as it was. */
module EstateStore {
  import opened Base
  import opened Money
  import opened Houses
  import opened Meters
  import opened Tenants
  import opened Tables

  /** The fields a household form submits. */
  datatype HouseholdForm = HouseholdForm(
    firstName: string,
    lastName: string,
    email: string,
    phone: string,
    idCard: nat,
    address: string,
    nationality: string)

  /** The household columns that may not be blank: first name, last name,
      phone number and nationality. */
  predicate HouseholdFieldsGiven(f: HouseholdForm)
  {
    f.firstName != "" && f.lastName != "" && f.phone != "" && f.nationality != ""
  }

  /** A stored household already has this email, phone number or id card
      number (the unique columns). */
  predicate HouseholdKeyTaken(hs: seq<Household>, f: HouseholdForm)
  {
    exists j :: 0 <= j < |hs| && KeyClash(hs[j].email, hs[j].phone, hs[j].idCard, f.email, f.phone, f.idCard)
  }

  /** The tenant `t` after a tenant form `f` is saved over it. */
  function Edited(t: Tenant, f: TenantForm): (r: Tenant)
    ensures r.id == t.id && r.createdBy == t.createdBy && r.createdAt == t.createdAt
    ensures r.house == f.house && r.status == f.status && r.enddate == f.enddate
    ensures r.email == f.email && r.phone == f.phone && r.idCard == f.idCard
    ensures r.firstName == f.firstName && r.middleName == f.middleName && r.lastName == f.lastName
    ensures r.nationality == f.nationality
  {
    t.(firstName := f.firstName, middleName := f.middleName, lastName := f.lastName,
       email := f.email, phone := f.phone, idCard := f.idCard, nationality := f.nationality,
       house := f.house, status := f.status, enddate := f.enddate)
  }

  /** A tenant form that passes validation while editing the tenant at `k`
      gives a record that fits at `k`: the house offered is free or the
      tenant's own, and the unique columns are checked against the others. */
  lemma EditFits(ts: seq<Tenant>, hs: seq<House>, next: nat, k: nat, f: TenantForm)
    requires TenantsOk(ts, HouseIds(hs), next) && k < |ts|
    requires TenantFormError(f, hs, ts, Some(ts[k])).None?
    ensures TenantFits(ts, HouseIds(hs), k, Edited(ts[k], f))
  {
    TenantRulesHold(ts, HouseIds(hs), next);
    var t := Edited(ts[k], f);
    var h := f.house.value;
    assert h in HouseChoices(hs, ts, Some(ts[k]));
    forall j | 0 <= j < |ts| && j != k
      ensures ts[j].email != t.email && ts[j].phone != t.phone && ts[j].idCard != t.idCard
      ensures ts[j].house != t.house
    {
      assert ts[j].id != ts[k].id by {
        if j < k {} else {}
      }
      assert ts[j].house == t.house ==> Linked(ts, h);
      if j < k {} else {}
    }
    var i :| 0 <= i < |hs| && hs[i].id == h;
  }

  /** A tenant form that passes validation for a new tenant gives a record
      that fits at the end of the table. */
  lemma NewFits(ts: seq<Tenant>, hs: seq<House>, f: TenantForm, t: Tenant)
    requires TenantFormError(f, hs, ts, None).None?
    requires t.house == f.house && t.email == f.email && t.phone == f.phone && t.idCard == f.idCard
    ensures TenantFits(ts, HouseIds(hs), |ts|, t)
  {
    var h := f.house.value;
    assert h in HouseChoices(hs, ts, None);
    forall j | 0 <= j < |ts|
      ensures ts[j].email != t.email && ts[j].phone != t.phone && ts[j].idCard != t.idCard
      ensures ts[j].house != t.house
    {
      assert !(Some(ts[j].id) != None &&
        (ts[j].email == f.email || ts[j].phone == f.phone || ts[j].idCard == f.idCard));
      assert !Linked(ts, h);
    }
    var i :| 0 <= i < |hs| && hs[i].id == h;
  }

  /** A tenant whose keys and house are unchanged still fits where it is. */
  lemma SameKeysFit(ts: seq<Tenant>, ids: set<nat>, next: nat, k: nat, t: Tenant)
    requires TenantsOk(ts, ids, next) && k < |ts|
    requires t.email == ts[k].email && t.phone == ts[k].phone && t.idCard == ts[k].idCard
    requires t.house == ts[k].house
    ensures TenantFits(ts, ids, k, t)
  {
    TenantRulesHold(ts, ids, next);
    forall j | 0 <= j < |ts| && j != k
      ensures ts[j].email != t.email && ts[j].phone != t.phone && ts[j].idCard != t.idCard
      ensures t.house.Some? ==> ts[j].house != t.house
    {
      if j < k {} else {}
    }
  }

  /** What a replacement does to the rule of one current meter per house,
      in both cases. */
  lemma ReplacementCurrentMeters(ms: seq<Meter>, k: nat, status: MeterStatus, number: string,
                                 newId: nat, today: int)
    requires k < |ms|
    ensures var r := AfterReplacement(ms, k, status, number, newId, today);
      OneCurrentPerHouse(ms) && (ms[k].isCurrent || !HasCurrentMeter(ms, ms[k].house)) ==>
        && OneCurrentPerHouse(r)
        && forall i :: 0 <= i < |r| ==> (IsCurrentOf(r[i], ms[k].house) <==> i == |r| - 1)
    ensures !ms[k].isCurrent && HasCurrentMeter(ms, ms[k].house) ==>
      !OneCurrentPerHouse(AfterReplacement(ms, k, status, number, newId, today))
  {
    if OneCurrentPerHouse(ms) && (ms[k].isCurrent || !HasCurrentMeter(ms, ms[k].house)) {
      ReplacementKeepsOneCurrent(ms, k, status, number, newId, today);
    }
    if !ms[k].isCurrent && HasCurrentMeter(ms, ms[k].house) {
      ReplacingStaleMeterBreaksOneCurrent(ms, k, status, number, newId, today);
    }
  }

  /** `HouseMeterView`: the detail page of the house with id `house`. A key
      with no stored house is answered with 404 before any context is built;
      otherwise the page is `HouseMeterPage` of that house. */
  function HouseMeterView(hs: seq<House>, house: nat, ms: seq<Meter>, rs: seq<Reading>)
    : (r: Result<MeterPage>)
    ensures r == Err(NotFound) <==> house !in HouseIds(hs)
    ensures r.Ok? <==> house in HouseIds(hs)
    ensures r.Ok? ==> r.value == HouseMeterPage(house, ms, rs)
  {
    if HouseIndex(hs, house).None? then Err(NotFound) else Ok(HouseMeterPage(house, ms, rs))
  }

  class Estate {
    var houses: seq<House>
    var owners: seq<Owner>
    var tenants: seq<Tenant>
    var households: seq<Household>
    var meters: seq<Meter>
    var readings: seq<Reading>
    var nextId: nat

    /** Primary keys, unique columns and foreign keys hold in every table. */
    ghost predicate Valid()
      reads this
    {
      TablesOk(houses, owners, tenants, households, meters, readings, nextId)
    }

    constructor ()
      ensures Valid()
      ensures houses == [] && owners == [] && tenants == [] && households == []
      ensures meters == [] && readings == [] && nextId == 1
    {
      houses, owners, tenants, households := [], [], [], [];
      meters, readings := [], [];
      nextId := 1;
      new;
      EmptyTablesOk(1);
    }

    /** Every table keeps its rules under the next key and under larger
        referenced tables. */
    lemma Widened(hs': set<nat>, ts': set<nat>, ms': set<nat>)
      requires Valid()
      requires HouseIds(houses) <= hs' && TenantIds(tenants) <= ts' && MeterIds(meters) <= ms'
      ensures OwnersOk(owners, hs', nextId + 1) && TenantsOk(tenants, hs', nextId + 1)
      ensures HouseholdsOk(households, ts', nextId + 1) && MetersOk(meters, hs', nextId + 1)
      ensures ReadingsOk(readings, ms', nextId + 1) && HousesOk(houses, nextId + 1)
    {
      HousesWiden(houses, nextId, nextId + 1);
      OwnersWiden(owners, HouseIds(houses), hs', nextId, nextId + 1);
      TenantsWiden(tenants, HouseIds(houses), hs', nextId, nextId + 1);
      HouseholdsWiden(households, TenantIds(tenants), ts', nextId, nextId + 1);
      MetersWiden(meters, HouseIds(houses), hs', nextId, nextId + 1);
      ReadingsWiden(readings, MeterIds(meters), ms', nextId, nextId + 1);
    }

    // ---- each write keeps the database rules ----

    lemma InsertHouseOk(h: House)
      requires Valid() && h.id == nextId && !HouseNumberTaken(houses, h.number)
      ensures TablesOk(houses + [h], owners, tenants, households, meters, readings, nextId + 1)
    {
      HouseInserted(houses, nextId, h);
      Widened(HouseIds(houses + [h]), TenantIds(tenants), MeterIds(meters));
    }

    lemma InsertOwnerOk(o: Owner)
      requires Valid() && o.id == nextId && !OwnerKeyTaken(owners, o) && o.houses <= HouseIds(houses)
      ensures TablesOk(houses, owners + [o], tenants, households, meters, readings, nextId + 1)
    {
      OwnerInserted(owners, HouseIds(houses), nextId, o);
      Widened(HouseIds(houses), TenantIds(tenants), MeterIds(meters));
    }

    lemma RestatusMeterOk(k: nat, m: Meter)
      requires Valid() && k < |meters| && m == meters[k].(status := m.status, isCurrent := m.isCurrent)
      ensures TablesOk(houses, owners, tenants, households, meters[k := m], readings, nextId)
    {
      MeterRestatused(meters, HouseIds(houses), nextId, k, m);
    }

    lemma InsertMeterOk(m: Meter)
      requires Valid() && m.id == nextId && !NumberTaken(meters, m.number) && m.house in HouseIds(houses)
      ensures TablesOk(houses, owners, tenants, households, meters + [m], readings, nextId + 1)
    {
      MeterInserted(meters, HouseIds(houses), nextId, m);
      Widened(HouseIds(houses), TenantIds(tenants), MeterIds(meters + [m]));
    }

    lemma ReplaceMeterOk(k: nat, status: MeterStatus, number: string, today: int)
      requires Valid() && k < |meters| && !NumberTaken(meters, number)
      ensures TablesOk(houses, owners, tenants, households,
                       AfterReplacement(meters, k, status, number, nextId, today), readings, nextId + 1)
    {
      var after := AfterReplacement(meters, k, status, number, nextId, today);
      MeterReplaced(meters, HouseIds(houses), nextId, k, status, number, today);
      Widened(HouseIds(houses), TenantIds(tenants), MeterIds(after));
    }

    lemma InsertReadingOk(r: Reading)
      requires Valid() && r.id == nextId && r.meter in MeterIds(meters)
      ensures TablesOk(houses, owners, tenants, households, meters, readings + [r], nextId + 1)
    {
      ReadingInserted(readings, MeterIds(meters), nextId, r);
      Widened(HouseIds(houses), TenantIds(tenants), MeterIds(meters));
    }

    lemma ResaveReadingOk(k: nat, r: Reading)
      requires Valid() && k < |readings| && r.id == readings[k].id && r.meter == readings[k].meter
      ensures TablesOk(houses, owners, tenants, households, meters, readings[k := r], nextId)
    {
      ReadingReplaced(readings, MeterIds(meters), nextId, k, r);
    }

    lemma SaveTenantOk(k: nat, t: Tenant, now: int)
      requires Valid() && k < |tenants| && t.id == tenants[k].id
      requires TenantFits(tenants, HouseIds(houses), k, t)
      ensures TablesOk(houses, owners, tenants[k := t], SaveCascade(households, t, now), meters, readings, nextId)
    {
      TenantReplaced(tenants, HouseIds(houses), nextId, k, t);
      HouseholdsCascaded(households, TenantIds(tenants), nextId, t, now);
    }

    lemma SetHouseStatusOk(house: nat, s: HouseStatus)
      requires Valid()
      ensures TablesOk(WithHouseStatus(houses, house, s), owners, tenants, households, meters, readings, nextId)
    {
      HouseStatusSet(houses, nextId, house, s);
    }

    lemma InsertTenantOk(t: Tenant)
      requires Valid() && t.id == nextId && TenantFits(tenants, HouseIds(houses), |tenants|, t)
      ensures TablesOk(houses, owners, tenants + [t], households, meters, readings, nextId + 1)
    {
      TenantInserted(tenants, HouseIds(houses), nextId, t);
      Widened(HouseIds(houses), TenantIds(tenants + [t]), MeterIds(meters));
    }

    lemma InsertHouseholdOk(h: Household)
      requires Valid() && h.id == nextId && !HouseholdKeyUsed(households, h) && h.tenant in TenantIds(tenants)
      ensures TablesOk(houses, owners, tenants, households + [h], meters, readings, nextId + 1)
    {
      HouseholdInserted(households, TenantIds(tenants), nextId, h);
      Widened(HouseIds(houses), TenantIds(tenants), MeterIds(meters));
    }

    // ---- houses and owners ----

    /** Creates a house. The number is a unique column; the status defaults
        to developer. */
    method AddHouse(number: string, unitType: UnitType, handover: Option<int>,
                    status: Option<HouseStatus>) returns (r: Result<nat>)
      requires Valid()
      modifies this
      ensures Valid()
      ensures r.Err? <==> HouseNumberTaken(old(houses), number)
      ensures r.Err? ==> r.error == DuplicateKey && unchanged(this)
      ensures r.Ok? ==>
        && r.value == old(nextId) && nextId == old(nextId) + 1
        && houses == old(houses) + [NewHouse(r.value, number, unitType, handover, status)]
        && owners == old(owners) && tenants == old(tenants) && households == old(households)
        && meters == old(meters) && readings == old(readings)
    {
      if HouseNumberTaken(houses, number) {
        return Err(DuplicateKey);
      }
      var h := NewHouse(nextId, number, unitType, handover, status);
      InsertHouseOk(h);
      houses := houses + [h];
      r := Ok(nextId);
      nextId := nextId + 1;
    }

    /** `OwnerCreateView.form_valid` with `OwnerForm`: an owner of the houses
        `houseIds`, created by `createdBy` at `now`. Every column but the
        middle name is required; every chosen house must exist; KRA PIN,
        email and phone number are unique columns. */
    method AddOwner(firstName: string, middleName: string, lastName: string, email: string,
                    phone: string, kraPin: string, address: string, nationality: string,
                    houseIds: set<nat>, createdBy: nat, now: int) returns (r: Result<nat>)
      requires Valid()
      modifies this
      ensures Valid()
      ensures var o := Owner(old(nextId), firstName, middleName, lastName, email, phone, kraPin,
                             address, nationality, houseIds, Some(createdBy), now);
        && (r == Err(Required) <==> !OwnerFieldsGiven(o))
        && (r == Err(HouseNotSelectable) <==> OwnerFieldsGiven(o) && !(houseIds <= HouseIds(old(houses))))
        && (r == Err(DuplicateKey) <==>
              OwnerFieldsGiven(o) && houseIds <= HouseIds(old(houses)) && OwnerKeyTaken(old(owners), o))
        && (r.Ok? <==>
              OwnerFieldsGiven(o) && houseIds <= HouseIds(old(houses)) && !OwnerKeyTaken(old(owners), o))
        && (r.Ok? ==> r.value == old(nextId) && owners == old(owners) + [o] && nextId == old(nextId) + 1)
      ensures r.Err? ==> unchanged(this)
      ensures houses == old(houses) && tenants == old(tenants) && households == old(households)
      ensures meters == old(meters) && readings == old(readings)
    {
      var o := Owner(nextId, firstName, middleName, lastName, email, phone, kraPin,
                     address, nationality, houseIds, Some(createdBy), now);
      if !OwnerFieldsGiven(o) {
        return Err(Required);
      }
      if !(houseIds <= HouseIds(houses)) {
        return Err(HouseNotSelectable);
      }
      if OwnerKeyTaken(owners, o) {
        return Err(DuplicateKey);
      }
      InsertOwnerOk(o);
      owners := owners + [o];
      r := Ok(nextId);
      nextId := nextId + 1;
    }

    // ---- meters ----

    /** `Meter.deactivate`: the meter at position `k` becomes inactive and
        stops being current. */
    method Deactivate(k: nat)
      requires Valid() && k < |meters|
      modifies this
      ensures Valid()
      ensures meters == old(meters)[k := Deactivated(old(meters)[k])]
      ensures old(OneCurrentPerHouse(meters)) ==> OneCurrentPerHouse(meters)
      ensures houses == old(houses) && owners == old(owners) && tenants == old(tenants)
      ensures households == old(households) && readings == old(readings) && nextId == old(nextId)
    {
      var m := Deactivated(meters[k]);
      RestatusMeterOk(k, m);
      if OneCurrentPerHouse(meters) {
        DeactivatingKeepsOneCurrent(meters, k);
      }
      meters := meters[k := m];
    }

    /** `MeterCreateView.post`: a meter for the house with id `houseId`. The
        house must exist; the number is a required field; it must not belong
        to a current meter nor repeat any meter's; the house must have no
        current meter. */
    method CreateMeter(houseId: nat, number: string, installationDate: int) returns (r: Result<nat>)
      requires Valid()
      modifies this
      ensures Valid()
      ensures r == Err(NotFound) <==> houseId !in HouseIds(old(houses))
      ensures r == Err(Required) <==> houseId in HouseIds(old(houses)) && number == ""
      ensures r == Err(MeterNumberInUse) <==>
        houseId in HouseIds(old(houses)) && number != "" && NumberInUse(old(meters), number)
      ensures r == Err(DuplicateKey) <==>
        houseId in HouseIds(old(houses)) && number != "" && !NumberInUse(old(meters), number) &&
        NumberTaken(old(meters), number)
      ensures r == Err(HouseHasCurrentMeter) <==>
        houseId in HouseIds(old(houses)) && number != "" && !NumberTaken(old(meters), number) &&
        HasCurrentMeter(old(meters), houseId)
      ensures r.Ok? <==>
        houseId in HouseIds(old(houses)) && number != "" && !NumberTaken(old(meters), number) &&
        !HasCurrentMeter(old(meters), houseId)
      ensures r.Err? ==> unchanged(this)
      ensures r.Ok? ==>
        && r.value == old(nextId) && nextId == old(nextId) + 1
        && meters == old(meters) + [NewMeter(r.value, number, houseId, installationDate)]
        && houses == old(houses) && owners == old(owners) && tenants == old(tenants)
        && households == old(households) && readings == old(readings)
      ensures old(OneCurrentPerHouse(meters)) ==> OneCurrentPerHouse(meters)
    {
      if houseId !in HouseIds(houses) {
        return Err(NotFound);
      }
      if number == "" {
        return Err(Required);
      }
      if NumberInUse(meters, number) {
        return Err(MeterNumberInUse);
      }
      if NumberTaken(meters, number) {
        return Err(DuplicateKey);
      }
      if HasCurrentMeter(meters, houseId) {
        return Err(HouseHasCurrentMeter);
      }
      var m := NewMeter(nextId, number, houseId, installationDate);
      if OneCurrentPerHouse(meters) {
        AddingMeterKeepsOneCurrent(meters, m);
      }
      InsertMeterOk(m);
      meters := meters + [m];
      r := Ok(nextId);
      nextId := nextId + 1;
    }

    /** `MeterReplaceView.form_valid`: the meter with id `meterId` takes the
        submitted status (which must be inactive or damaged) and stops being
        current, and a new current meter numbered `newNumber` is installed in
        the same house `today`. The new number is a required field, checked
        before the status. A new number that repeats a stored one is
        refused by the unique column and the whole request is refused. */
    method ReplaceMeter(meterId: nat, status: MeterStatus, newNumber: string, today: int)
      returns (r: Result<nat>)
      requires Valid()
      modifies this
      ensures Valid()
      ensures r == Err(NotFound) <==> meterId !in MeterIds(old(meters))
      ensures r == Err(Required) <==> meterId in MeterIds(old(meters)) && newNumber == ""
      ensures r == Err(NotReplaceable) <==>
        meterId in MeterIds(old(meters)) && newNumber != "" && !Replaceable(status)
      ensures r == Err(DuplicateKey) <==>
        meterId in MeterIds(old(meters)) && newNumber != "" && Replaceable(status) &&
        NumberTaken(old(meters), newNumber)
      ensures r.Ok? <==>
        meterId in MeterIds(old(meters)) && newNumber != "" && Replaceable(status) &&
        !NumberTaken(old(meters), newNumber)
      ensures r.Err? ==> unchanged(this)
      ensures r.Ok? ==>
        var k := MeterIndex(old(meters), meterId).value;
        && r.value == old(nextId) && nextId == old(nextId) + 1
        && meters == AfterReplacement(old(meters), k, status, newNumber, r.value, today)
        && houses == old(houses) && owners == old(owners) && tenants == old(tenants)
        && households == old(households) && readings == old(readings)
      ensures r.Ok? ==>
        var replaced := old(meters)[MeterIndex(old(meters), meterId).value];
        old(OneCurrentPerHouse(meters)) &&
        (replaced.isCurrent || !HasCurrentMeter(old(meters), replaced.house)) ==>
          && OneCurrentPerHouse(meters)
          && forall i :: 0 <= i < |meters| ==> (IsCurrentOf(meters[i], replaced.house) <==> i == |meters| - 1)
      ensures r.Ok? ==>
        var replaced := old(meters)[MeterIndex(old(meters), meterId).value];
        !replaced.isCurrent && HasCurrentMeter(old(meters), replaced.house) ==> !OneCurrentPerHouse(meters)
    {
      var found := MeterIndex(meters, meterId);
      if found.None? {
        return Err(NotFound);
      }
      if newNumber == "" {
        return Err(Required);
      }
      if !Replaceable(status) {
        return Err(NotReplaceable);
      }
      if NumberTaken(meters, newNumber) {
        return Err(DuplicateKey);
      }
      var id := ReplaceAt(found.value, status, newNumber, today);
      r := Ok(id);
    }

    /** The writes of a replacement of the meter at position `k`. */
    method ReplaceAt(k: nat, status: MeterStatus, newNumber: string, today: int) returns (id: nat)
      requires Valid() && k < |meters| && !NumberTaken(meters, newNumber)
      modifies this
      ensures Valid()
      ensures id == old(nextId) && nextId == old(nextId) + 1
      ensures meters == AfterReplacement(old(meters), k, status, newNumber, id, today)
      ensures houses == old(houses) && owners == old(owners) && tenants == old(tenants)
      ensures households == old(households) && readings == old(readings)
      ensures var replaced := old(meters)[k];
        old(OneCurrentPerHouse(meters)) &&
        (replaced.isCurrent || !HasCurrentMeter(old(meters), replaced.house)) ==>
          && OneCurrentPerHouse(meters)
          && forall i :: 0 <= i < |meters| ==> (IsCurrentOf(meters[i], replaced.house) <==> i == |meters| - 1)
      ensures !old(meters)[k].isCurrent && HasCurrentMeter(old(meters), old(meters)[k].house) ==>
        !OneCurrentPerHouse(meters)
    {
      ReplacementCurrentMeters(meters, k, status, newNumber, nextId, today);
      var after := AfterReplacement(meters, k, status, newNumber, nextId, today);
      ReplaceMeterOk(k, status, newNumber, today);
      meters := after;
      id := nextId;
      nextId := nextId + 1;
    }

    // ---- readings ----

    /** `MeterReading.save` of a new reading of the meter `meterId`: it takes
        the value of the meter's latest reading (or 0) as its previous reading
        and the difference as its consumption. */
    method SaveNewReading(meterId: nat, current: int, date: int, readBy: nat, rate: int)
      returns (r: Reading)
      requires Valid() && meterId in MeterIds(meters)
      modifies this
      ensures Valid()
      ensures readings == old(readings) + [r] && nextId == old(nextId) + 1
      ensures r.id == old(nextId) && r.meter == meterId && r.current == current && r.date == date
      ensures r.readBy == readBy && r.rate == rate
      ensures r.previous == PreviousValue(old(readings), meterId)
      ensures r.consumption == r.current - r.previous
      ensures houses == old(houses) && owners == old(owners) && tenants == old(tenants)
      ensures households == old(households) && meters == old(meters)
    {
      r := Saved(Reading(nextId, meterId, current, 0, date, readBy, 0, rate), true, readings);
      InsertReadingOk(r);
      readings := readings + [r];
      nextId := nextId + 1;
    }

    /** `MeterReading.save` of the stored reading at position `k` after its
        value or rate was edited: its previous reading stays, its consumption
        is recomputed, and no other reading changes. */
    method ResaveReading(k: nat, current: int, rate: int)
      requires Valid() && k < |readings|
      modifies this
      ensures Valid()
      ensures |readings| == |old(readings)|
      ensures readings[k] == old(readings)[k].(current := current, rate := rate,
                                               consumption := current - old(readings)[k].previous)
      ensures forall j :: 0 <= j < |readings| && j != k ==> readings[j] == old(readings)[j]
      ensures TotalBill(readings) == old(TotalBill(readings)) - old(Bill(readings[k])) + Bill(readings[k])
      ensures houses == old(houses) && owners == old(owners) && tenants == old(tenants)
      ensures households == old(households) && meters == old(meters) && nextId == old(nextId)
    {
      var s := Saved(readings[k].(current := current, rate := rate), false, readings);
      TotalBillUpdate(readings, k, s);
      ResaveReadingOk(k, s);
      readings := readings[k := s];
    }

    /** `ReadingCreateView` with `MeterReadingForm`: a reading of the meter
        `meterId` (from the URL), dated `today`, read by `readBy`, at the
        default rate. It must exceed the meter's latest reading. */
    method CreateReading(meterId: nat, current: int, readBy: nat, today: int) returns (r: Result<Reading>)
      requires Valid()
      modifies this
      ensures Valid()
      ensures r == Err(NotFound) <==> meterId !in MeterIds(old(meters))
      ensures r == Err(ReadingNotIncreasing) <==>
        meterId in MeterIds(old(meters)) && !ReadingAccepted(current, Some(meterId), old(readings))
      ensures r.Ok? <==>
        meterId in MeterIds(old(meters)) && ReadingAccepted(current, Some(meterId), old(readings))
      ensures r.Err? ==> unchanged(this)
      ensures r.Ok? ==>
        && readings == old(readings) + [r.value] && nextId == old(nextId) + 1
        && r.value.id == old(nextId) && r.value.meter == meterId && r.value.current == current
        && r.value.date == today && r.value.readBy == readBy && r.value.rate == DefaultRate
        && r.value.previous == PreviousValue(old(readings), meterId)
        && r.value.consumption == current - r.value.previous
        && r.value.consumption > 0 && Bill(r.value) == 171 * r.value.consumption
        && houses == old(houses) && owners == old(owners) && tenants == old(tenants)
        && households == old(households) && meters == old(meters)
      ensures r.Ok? && old(Increasing(readings)) &&
        (forall i :: 0 <= i < |old(readings)| && old(readings)[i].meter == meterId ==> old(readings)[i].date <= today)
        ==> Increasing(readings)
    {
      if meterId !in MeterIds(meters) {
        return Err(NotFound);
      }
      if !ReadingAccepted(current, Some(meterId), readings) {
        return Err(ReadingNotIncreasing);
      }
      ghost var before := readings;
      ReadingKeys(readings, MeterIds(meters), nextId);
      var reading := SaveNewReading(meterId, current, today, readBy, DefaultRate);
      AcceptedReadingConsumptionPositive(reading, before);
      BillAtWholeRate(reading.consumption, 171);
      if Increasing(before) && forall i :: 0 <= i < |before| && before[i].meter == meterId ==> before[i].date <= today {
        AcceptedKeepsIncreasing(before, reading);
      }
      r := Ok(reading);
    }

    // ---- tenants and households ----

    /** `Tenant.save` of the stored tenant at position `k`, with new field
        values `t`: when `t` has an end date that is not in the future, every
        household of the tenant without an end date gets that date. */
    method SaveTenant(k: nat, t: Tenant, now: int)
      requires Valid() && k < |tenants| && t.id == tenants[k].id
      requires TenantFits(tenants, HouseIds(houses), k, t)
      modifies this
      ensures Valid()
      ensures tenants == old(tenants)[k := t]
      ensures households == SaveCascade(old(households), t, now)
      ensures EndsBy(t, now) ==> forall i :: 0 <= i < |households| && households[i].tenant == t.id ==>
        households[i].enddate.Some?
      ensures houses == old(houses) && owners == old(owners) && meters == old(meters)
      ensures readings == old(readings) && nextId == old(nextId)
    {
      SaveTenantOk(k, t, now);
      if EndsBy(t, now) {
        CloseOpenHouseholdsSettles(households, t.id, t.enddate.value, now);
      }
      households := SaveCascade(households, t, now);
      tenants := tenants[k := t];
    }

    /** Sets the status of the house with id `house`, keeping every rule. */
    method SetHouseStatus(house: nat, s: HouseStatus)
      requires Valid()
      modifies this
      ensures Valid()
      ensures houses == WithHouseStatus(old(houses), house, s)
      ensures owners == old(owners) && tenants == old(tenants) && households == old(households)
      ensures meters == old(meters) && readings == old(readings) && nextId == old(nextId)
    {
      var hs := WithHouseStatus(houses, house, s);
      SetHouseStatusOk(house, s);
      houses := hs;
    }

    /** `Tenant.end_tenancy` on the tenant at position `k`: ended, with end
        date `now`; its house, if it has one, becomes vacant; saving it closes
        the tenant's open households at `now`. */
    method EndTenancy(k: nat, now: int)
      requires Valid() && k < |tenants|
      modifies this
      ensures Valid()
      ensures tenants == old(tenants)[k := old(tenants)[k].(status := Ended, enddate := Some(now))]
      ensures households == CloseOpenHouseholds(old(households), old(tenants)[k].id, now)
      ensures old(tenants)[k].house.Some? ==>
        houses == WithHouseStatus(old(houses), old(tenants)[k].house.value, Vacant)
      ensures old(tenants)[k].house.None? ==> houses == old(houses)
      ensures CountStatus(tenants, Ended) ==
        old(CountStatus(tenants, Ended)) + (if old(tenants)[k].status == Ended then 0 else 1)
      ensures owners == old(owners) && meters == old(meters) && readings == old(readings)
      ensures nextId == old(nextId)
    {
      var t := tenants[k].(status := Ended, enddate := Some(now));
      if t.house.Some? {
        SetHouseStatus(t.house.value, Vacant);
      }
      CountStatusUpdate(tenants, k, t, Ended);
      SameKeysFit(tenants, HouseIds(houses), nextId, k, t);
      SaveTenant(k, t, now);
    }

    /** `TenantDetailView.post`: with the action `end_tenancy`, the tenant
        with id `tenantId` is ended at `now` and saved (closing its open
        households), then its house, if any, becomes vacant; `Ok(true)`. Any
        other action only shows the page again: `Ok(false)`, nothing changes. */
    method EndTenancyAction(tenantId: nat, action: string, now: int) returns (r: Result<bool>)
      requires Valid()
      modifies this
      ensures Valid()
      ensures r == Err(NotFound) <==> tenantId !in TenantIds(old(tenants))
      ensures r == Ok(false) <==> tenantId in TenantIds(old(tenants)) && action != "end_tenancy"
      ensures r == Ok(true) <==> tenantId in TenantIds(old(tenants)) && action == "end_tenancy"
      ensures r != Ok(true) ==> unchanged(this)
      ensures r == Ok(true) ==>
        var k := TenantIndex(old(tenants), tenantId).value;
        var house := old(tenants)[k].house;
        && tenants == old(tenants)[k := old(tenants)[k].(status := Ended, enddate := Some(now))]
        && households == CloseOpenHouseholds(old(households), tenantId, now)
        && (house.Some? ==> houses == WithHouseStatus(old(houses), house.value, Vacant))
        && (house.None? ==> houses == old(houses))
        && owners == old(owners) && meters == old(meters) && readings == old(readings)
        && nextId == old(nextId)
    {
      var found := TenantIndex(tenants, tenantId);
      if found.None? {
        return Err(NotFound);
      }
      if action != "end_tenancy" {
        return Ok(false);
      }
      var k := found.value;
      var t := tenants[k].(status := Ended, enddate := Some(now));
      SameKeysFit(tenants, HouseIds(houses), nextId, k, t);
      SaveTenant(k, t, now);
      if t.house.Some? {
        SetHouseStatus(t.house.value, Vacant);
      }
      r := Ok(true);
    }

    /** `TenantUpdateView.form_valid` with `TenantForm`: the tenant with id
        `tenantId` takes the submitted fields and is saved (closing its open
        households if its end date has passed); then the chosen house becomes
        vacant for an ended tenant, occupied for an active one, and is left
        alone under notice. No other house changes. */
    method UpdateTenant(tenantId: nat, f: TenantForm, now: int) returns (r: Result<nat>)
      requires Valid()
      modifies this
      ensures Valid()
      ensures r == Err(NotFound) <==> tenantId !in TenantIds(old(tenants))
      ensures tenantId in TenantIds(old(tenants)) ==>
        var k := TenantIndex(old(tenants), tenantId).value;
        (r.Err? <==> TenantFormError(f, old(houses), old(tenants), Some(old(tenants)[k])).Some?)
      ensures tenantId in TenantIds(old(tenants)) ==>
        var e := TenantFormError(f, old(houses), old(tenants),
                                 Some(old(tenants)[TenantIndex(old(tenants), tenantId).value]));
        e.Some? ==> r == Err(e.value)
      ensures r.Err? ==> unchanged(this)
      ensures r.Ok? ==>
        var k := TenantIndex(old(tenants), tenantId).value;
        var t := Edited(old(tenants)[k], f);
        var h := HouseIndex(old(houses), f.house.value).value;
        && r.value == tenantId
        && tenants == old(tenants)[k := t]
        && households == SaveCascade(old(households), t, now)
        && houses == WithHouseStatus(old(houses), f.house.value,
                                     SyncedHouseStatus(f.status, old(houses)[h].status))
        && owners == old(owners) && meters == old(meters) && readings == old(readings)
        && nextId == old(nextId)
    {
      var found := TenantIndex(tenants, tenantId);
      if found.None? {
        return Err(NotFound);
      }
      var k := found.value;
      var e := TenantFormError(f, houses, tenants, Some(tenants[k]));
      if e.Some? {
        return Err(e.value);
      }
      var t := Edited(tenants[k], f);
      EditFits(tenants, houses, nextId, k, f);
      var hId := f.house.value;
      var h := HouseIndex(houses, hId).value;
      var synced := SyncedHouseStatus(f.status, houses[h].status);
      SaveTenant(k, t, now);
      if f.status == Ended || f.status == TenantStatus.Active {
        SetHouseStatus(hId, synced);
      } else {
        SameStatusLeavesHouses(houses, nextId, h);
      }
      r := Ok(tenantId);
    }

    /** `TenantCreateView.form_valid` with `TenantForm`: a tenant from the
        submitted fields, always active whatever status was submitted,
        created by `createdBy` at `now`, in a house no tenant is linked to.
        No household and no house changes. A submitted end date that is not
        in the future makes `Tenant.save` query the households of a tenant
        that has no primary key yet, which Django refuses: the request fails
        and nothing is stored. */
    method CreateTenant(f: TenantForm, createdBy: nat, now: int) returns (r: Result<nat>)
      requires Valid()
      modifies this
      ensures Valid()
      ensures TenantFormError(f, old(houses), old(tenants), None).Some? ==>
        r == Err(TenantFormError(f, old(houses), old(tenants), None).value)
      ensures r == Err(UnsavedRelation) <==>
        TenantFormError(f, old(houses), old(tenants), None).None? && f.enddate.Some? && f.enddate.value <= now
      ensures r.Ok? <==>
        TenantFormError(f, old(houses), old(tenants), None).None? && !(f.enddate.Some? && f.enddate.value <= now)
      ensures r.Err? ==> unchanged(this)
      ensures r.Ok? ==>
        && r.value == old(nextId) && nextId == old(nextId) + 1
        && tenants == old(tenants) + [Tenant(r.value, TenantStatus.Active, f.firstName, f.middleName,
                                             f.lastName, f.email, f.phone, f.idCard, f.nationality,
                                             f.house, Some(createdBy), now, f.enddate)]
        && households == old(households)
        && houses == old(houses) && owners == old(owners) && meters == old(meters)
        && readings == old(readings)
    {
      var e := TenantFormError(f, houses, tenants, None);
      if e.Some? {
        return Err(e.value);
      }
      var t := Tenant(nextId, TenantStatus.Active, f.firstName, f.middleName, f.lastName,
                      f.email, f.phone, f.idCard, f.nationality, f.house,
                      Some(createdBy), now, f.enddate);
      if EndsBy(t, now) {
        return Err(UnsavedRelation);
      }
      NewFits(tenants, houses, f, t);
      InsertTenantOk(t);
      tenants := tenants + [t];
      r := Ok(nextId);
      nextId := nextId + 1;
    }

    /** `HouseholdCreateView.form_valid`: a household member of the tenant
        with id `tenantId` (from the URL), created by `createdBy`, with no end
        date. The form's checks come before the tenant is looked up: first
        the required columns, then the unique ones (email, phone number and
        id card number). */
    method CreateHousehold(tenantId: nat, f: HouseholdForm, createdBy: nat) returns (r: Result<nat>)
      requires Valid()
      modifies this
      ensures Valid()
      ensures r == Err(Required) <==> !HouseholdFieldsGiven(f)
      ensures r == Err(DuplicateKey) <==> HouseholdFieldsGiven(f) && HouseholdKeyTaken(old(households), f)
      ensures r == Err(NotFound) <==>
        HouseholdFieldsGiven(f) && !HouseholdKeyTaken(old(households), f) && tenantId !in TenantIds(old(tenants))
      ensures r.Ok? <==>
        HouseholdFieldsGiven(f) && !HouseholdKeyTaken(old(households), f) && tenantId in TenantIds(old(tenants))
      ensures r.Err? ==> unchanged(this)
      ensures r.Ok? ==>
        && r.value == old(nextId) && nextId == old(nextId) + 1
        && households == old(households) + [Household(r.value, f.firstName, f.lastName, f.email,
                                                      f.phone, f.idCard, f.address, f.nationality,
                                                      tenantId, Some(createdBy), None)]
        && houses == old(houses) && owners == old(owners) && tenants == old(tenants)
        && meters == old(meters) && readings == old(readings)
    {
      if !HouseholdFieldsGiven(f) {
        return Err(Required);
      }
      if HouseholdKeyTaken(households, f) {
        return Err(DuplicateKey);
      }
      if tenantId !in TenantIds(tenants) {
        return Err(NotFound);
      }
      var h := Household(nextId, f.firstName, f.lastName, f.email, f.phone, f.idCard,
                         f.address, f.nationality, tenantId, Some(createdBy), None);
      InsertHouseholdOk(h);
      households := households + [h];
      r := Ok(nextId);
      nextId := nextId + 1;
    }
  }
}
