/** Houses and their owners: the records, their defaults and unique columns,
    and the display strings that name a house by its newest owner and an
    owner by their first house. */
module Houses {
  import opened Base

  /** The statuses a house takes. The first three are the declared choices;
      `Occupied` is stored by the tenant update path. */
  datatype HouseStatus = Vacant | Owned | Developer | Occupied

  /** The value stored in the status column. */
  function StatusCode(s: HouseStatus): (r: string)
  {
    match s
    case Vacant => "vacant"
    case Owned => "owned"
    case Developer => "developer"
    case Occupied => "occupied"
  }

  /** No stored status is the capitalised display label `Vacant`. */
  lemma NoStatusCodeIsVacantLabel(s: HouseStatus)
    ensures StatusCode(s) != "Vacant"
  {
    assert StatusCode(s)[0] != 'V';
  }

  datatype UnitType = TwoBedroom | ThreeBedroom

  datatype House = House(
    id: nat,
    number: string,
    unitType: UnitType,
    handover: Option<int>,
    status: HouseStatus)

  /** A house as created: when no status is given it is `developer`. */
  function NewHouse(id: nat, number: string, unitType: UnitType, handover: Option<int>,
                    status: Option<HouseStatus>): (h: House)
    ensures status.None? ==> h.status == Developer
    ensures status.Some? ==> h.status == status.value
    ensures h.id == id && h.number == number && h.unitType == unitType && h.handover == handover
  {
    House(id, number, unitType, handover, if status.None? then Developer else status.value)
  }

  datatype Owner = Owner(
    id: nat,
    firstName: string,
    middleName: string,
    lastName: string,
    email: string,
    phone: string,
    kraPin: string,
    address: string,
    nationality: string,
    houses: set<nat>,   // the many-to-many link, by house id
    createdBy: Option<nat>,
    createdAt: int)

  /** The owner columns that may not be blank: every name and key column
      except the middle name. */
  predicate OwnerFieldsGiven(o: Owner)
  {
    o.firstName != "" && o.lastName != "" && o.email != "" && o.phone != "" &&
    o.kraPin != "" && o.address != "" && o.nationality != ""
  }

  /** House numbers are unique. */
  ghost predicate UniqueHouseNumbers(hs: seq<House>)
  {
    forall i, j :: 0 <= i < j < |hs| ==> hs[i].number != hs[j].number
  }

  predicate HouseNumberTaken(hs: seq<House>, number: string)
  {
    exists i :: 0 <= i < |hs| && hs[i].number == number
  }

  /** KRA PINs, emails and phone numbers of owners are each unique. */
  ghost predicate UniqueOwnerKeys(os: seq<Owner>)
  {
    forall i, j :: 0 <= i < j < |os| ==>
      os[i].kraPin != os[j].kraPin && os[i].email != os[j].email && os[i].phone != os[j].phone
  }

  /** `o` repeats the KRA PIN, email or phone number of a stored owner. */
  predicate OwnerKeyTaken(os: seq<Owner>, o: Owner)
  {
    exists i :: 0 <= i < |os| &&
      (os[i].kraPin == o.kraPin || os[i].email == o.email || os[i].phone == o.phone)
  }

  /** An owner who passes the key check keeps the owners' keys unique. */
  lemma AddingOwnerKeepsKeysUnique(os: seq<Owner>, o: Owner)
    requires UniqueOwnerKeys(os) && !OwnerKeyTaken(os, o)
    ensures UniqueOwnerKeys(os + [o])
  {
    forall i, j | 0 <= i < j < |os + [o]|
      ensures (os + [o])[i].kraPin != (os + [o])[j].kraPin
      ensures (os + [o])[i].email != (os + [o])[j].email
      ensures (os + [o])[i].phone != (os + [o])[j].phone
    {
      if j == |os| {
        assert !(os[i].kraPin == o.kraPin || os[i].email == o.email || os[i].phone == o.phone);
      }
    }
  }

  /** The order of house numbers: character by character, a proper prefix first. */
  predicate LexBefore(a: string, b: string)
  {
    if a == [] then b != []
    else if b == [] then false
    else if a[0] == b[0] then LexBefore(a[1..], b[1..])
    else a[0] < b[0]
  }

  lemma {:induction false} LexBeforeIrreflexive(a: string)
    ensures !LexBefore(a, a)
  {
    if a != [] {
      LexBeforeIrreflexive(a[1..]);
    }
  }

  lemma {:induction false} LexBeforeTransitive(a: string, b: string, c: string)
    requires LexBefore(a, b) && LexBefore(b, c)
    ensures LexBefore(a, c)
  {
    if a != [] && b != [] && c != [] && a[0] == b[0] && b[0] == c[0] {
      LexBeforeTransitive(a[1..], b[1..], c[1..]);
    }
  }

  lemma {:induction false} LexBeforeTotal(a: string, b: string)
    requires a != b
    ensures LexBefore(a, b) || LexBefore(b, a)
  {
    if a != [] && b != [] && a[0] == b[0] {
      assert a == [a[0]] + a[1..] && b == [b[0]] + b[1..];
      LexBeforeTotal(a[1..], b[1..]);
    }
  }

  lemma LexBeforeTransitiveAll()
    ensures forall a, b, c :: LexBefore(a, b) && LexBefore(b, c) ==> LexBefore(a, c)
  {
    forall a, b, c | LexBefore(a, b) && LexBefore(b, c)
      ensures LexBefore(a, c)
    {
      LexBeforeTransitive(a, b, c);
    }
  }

  /** `owner.house.first()`: of the houses with an id in `ids`, the one whose
      number comes first. */
  function FirstHouse(hs: seq<House>, ids: set<nat>): (r: Option<House>)
    ensures r.None? <==> forall i :: 0 <= i < |hs| ==> hs[i].id !in ids
    ensures r.Some? ==> r.value in hs && r.value.id in ids
    ensures r.Some? ==>
      forall i :: 0 <= i < |hs| && hs[i].id in ids ==> !LexBefore(hs[i].number, r.value.number)
  {
    if hs == [] then None
    else
      var rest := FirstHouse(hs[1..], ids);
      assert forall i :: 1 <= i < |hs| ==> hs[i] == hs[1..][i - 1];
      LexBeforeTransitiveAll();
      LexBeforeIrreflexive(hs[0].number);
      if hs[0].id !in ids then rest
      else if rest.None? || LexBefore(hs[0].number, rest.value.number) then Some(hs[0])
      else rest
  }

  /** `house.owner_set.first()` under the owners' order (newest first): an
      owner of the house with the latest creation time; of several created at
      the same time, the first stored. */
  function FirstOwner(os: seq<Owner>, house: nat): (r: Option<Owner>)
    ensures r.None? <==> forall i :: 0 <= i < |os| ==> house !in os[i].houses
    ensures r.Some? ==> r.value in os && house in r.value.houses
    ensures r.Some? ==>
      forall i :: 0 <= i < |os| && house in os[i].houses ==> os[i].createdAt <= r.value.createdAt
  {
    if os == [] then None
    else
      var rest := FirstOwner(os[1..], house);
      assert forall i :: 1 <= i < |os| ==> os[i] == os[1..][i - 1];
      if house !in os[0].houses then rest
      else if rest.None? || os[0].createdAt >= rest.value.createdAt then Some(os[0])
      else rest
  }

  /** `House.__str__`: the house number and its newest owner's full name, or
      `Vacant` when no owner holds it. */
  function HouseLabel(h: House, os: seq<Owner>): (r: string)
    ensures (forall i :: 0 <= i < |os| ==> h.id !in os[i].houses) ==>
      r == "House " + h.number + " - Vacant"
    ensures (exists i :: 0 <= i < |os| && h.id in os[i].houses) ==>
      exists i :: 0 <= i < |os| && h.id in os[i].houses &&
        (forall j :: 0 <= j < |os| && h.id in os[j].houses ==> os[j].createdAt <= os[i].createdAt) &&
        r == "House " + h.number + " - " + FullName(os[i].firstName, os[i].lastName)
  {
    var owner := FirstOwner(os, h.id);
    "House " + h.number + " - " +
    (if owner.Some? then FullName(owner.value.firstName, owner.value.lastName) else "Vacant")
  }

  /** `Owner.__str__`: the owner's full name and the number of the first of
      their houses, or `No House`. */
  function OwnerLabel(o: Owner, hs: seq<House>): (r: string)
    ensures (forall i :: 0 <= i < |hs| ==> hs[i].id !in o.houses) ==>
      r == FullName(o.firstName, o.lastName) + " - House: No House"
    ensures (exists i :: 0 <= i < |hs| && hs[i].id in o.houses) ==>
      exists i :: 0 <= i < |hs| && hs[i].id in o.houses &&
        (forall j :: 0 <= j < |hs| && hs[j].id in o.houses ==> !LexBefore(hs[j].number, hs[i].number)) &&
        r == FullName(o.firstName, o.lastName) + " - House: " + hs[i].number
  {
    var first := FirstHouse(hs, o.houses);
    FullName(o.firstName, o.lastName) + " - House: " +
    (if first.Some? then first.value.number else "No House")
  }

  /** With unique numbers, the first house of a set is the only one that no
      other house of the set comes before. */
  lemma FirstHouseUnique(hs: seq<House>, ids: set<nat>, k: nat)
    requires UniqueHouseNumbers(hs)
    requires k < |hs| && hs[k].id in ids
    requires forall i :: 0 <= i < |hs| && hs[i].id in ids ==> !LexBefore(hs[i].number, hs[k].number)
    ensures FirstHouse(hs, ids) == Some(hs[k])
  {
    var f := FirstHouse(hs, ids).value;
    var m :| 0 <= m < |hs| && hs[m] == f;
    if m != k {
      assert hs[m].number != hs[k].number by {
        if m < k {} else {}
      }
      LexBeforeTotal(hs[m].number, hs[k].number);
    }
  }
}
