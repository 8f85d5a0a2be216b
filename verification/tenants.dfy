/** Tenants and their households: the records, the household cascade that
    saving an ended tenant triggers, the tenant form's checks and house
    choices, the house status that follows a tenant's status, and the
    figures of the tenant list page. */
module Tenants {
  import opened Base
  import opened Houses

  datatype TenantStatus = Active | Notice | Ended

  datatype Tenant = Tenant(
    id: nat,
    status: TenantStatus,
    firstName: string,
    middleName: string,
    lastName: string,
    email: string,
    phone: string,
    idCard: nat,
    nationality: string,
    house: Option<nat>,      // the one-to-one link, by house id
    createdBy: Option<nat>,
    createdAt: int,
    enddate: Option<int>)

  datatype Household = Household(
    id: nat,
    firstName: string,
    lastName: string,
    email: string,
    phone: string,
    idCard: nat,
    address: string,
    nationality: string,
    tenant: nat,
    createdBy: Option<nat>,
    enddate: Option<int>)

  /** Two rows clash on the unique columns that tenants and households both
      have: the same email, the same phone number or the same id card number. */
  predicate KeyClash(email: string, phone: string, idCard: nat,
                     email': string, phone': string, idCard': nat)
  {
    email == email' || phone == phone' || idCard == idCard'
  }

  /** The bulk update of `Tenant.save`: every household of `tenant` that has
      no end date gets `end`; every other household is left as it is. */
  function CloseOpenHouseholds(hs: seq<Household>, tenant: nat, end: int): (r: seq<Household>)
    ensures |r| == |hs|
    ensures forall i :: 0 <= i < |hs| ==>
      r[i] == if hs[i].tenant == tenant && hs[i].enddate.None? then hs[i].(enddate := Some(end)) else hs[i]
  {
    if hs == [] then []
    else
      var h := hs[0];
      var h' := if h.tenant == tenant && h.enddate.None? then h.(enddate := Some(end)) else h;
      [h'] + CloseOpenHouseholds(hs[1..], tenant, end)
  }

  /** After the update no household of the tenant is open, and closing them
      again, at whatever date, moves no end date. */
  lemma CloseOpenHouseholdsSettles(hs: seq<Household>, tenant: nat, end: int, later: int)
    ensures var r := CloseOpenHouseholds(hs, tenant, end);
      (forall i :: 0 <= i < |r| && r[i].tenant == tenant ==> r[i].enddate.Some?) &&
      CloseOpenHouseholds(r, tenant, later) == r
  {
  }

  /** Whether `Tenant.save` runs the household update: the tenant has an end
      date and it is not in the future. */
  predicate EndsBy(t: Tenant, now: int)
  {
    t.enddate.Some? && t.enddate.value <= now
  }

  /** The households after `Tenant.save` of `t` at time `now`. */
  function SaveCascade(hs: seq<Household>, t: Tenant, now: int): (r: seq<Household>)
    ensures |r| == |hs|
    ensures forall i :: 0 <= i < |hs| && hs[i].tenant != t.id ==> r[i] == hs[i]
    ensures !EndsBy(t, now) ==> r == hs
    ensures EndsBy(t, now) ==>
      forall i :: 0 <= i < |hs| && hs[i].tenant == t.id ==>
        r[i].enddate == if hs[i].enddate.None? then t.enddate else hs[i].enddate
  {
    if EndsBy(t, now) then CloseOpenHouseholds(hs, t.id, t.enddate.value) else hs
  }

  /** The tenant with house `house`, if there is one. */
  predicate Linked(ts: seq<Tenant>, house: nat)
  {
    exists j :: 0 <= j < |ts| && ts[j].house == Some(house)
  }

  /** A house is linked to at most one tenant. */
  ghost predicate OneTenantPerHouse(ts: seq<Tenant>)
  {
    forall i, j :: 0 <= i < j < |ts| && ts[i].house.Some? ==> ts[i].house != ts[j].house
  }

  /** The fields a tenant form submits. */
  datatype TenantForm = TenantForm(
    firstName: string,
    middleName: string,
    lastName: string,
    email: string,
    phone: string,
    idCard: nat,
    nationality: string,
    house: Option<nat>,
    status: TenantStatus,
    enddate: Option<int>)

  /** The tenant columns that may not be blank: first name, last name,
      phone number, and the house field of the form. */
  predicate TenantFieldsGiven(f: TenantForm)
  {
    f.firstName != "" && f.lastName != "" && f.phone != "" && f.house.Some?
  }

  /** `TenantForm.clean`: an ended status needs an end date. */
  predicate EndDateGiven(status: TenantStatus, enddate: Option<int>)
  {
    !(status == Ended && enddate.None?)
  }

  /** The `house` choices of the tenant form: houses no tenant is linked to,
      plus, when `editing` a tenant, that tenant's own house. */
  function HouseChoices(hs: seq<House>, ts: seq<Tenant>, editing: Option<Tenant>): (r: set<nat>)
    ensures forall h :: h in r <==>
      (exists i :: 0 <= i < |hs| && hs[i].id == h) &&
      (!Linked(ts, h) || (editing.Some? && editing.value.house == Some(h)))
  {
    set i | 0 <= i < |hs| && (!Linked(ts, hs[i].id) || (editing.Some? && editing.value.house == Some(hs[i].id)))
      :: hs[i].id
  }

  /** Some tenant other than `except` already has this email, phone number
      or id card number (the unique columns). */
  predicate TenantKeyTaken(ts: seq<Tenant>, f: TenantForm, except: Option<nat>)
  {
    exists j :: 0 <= j < |ts| && Some(ts[j].id) != except &&
      KeyClash(ts[j].email, ts[j].phone, ts[j].idCard, f.email, f.phone, f.idCard)
  }

  /** Why the tenant form is invalid, if it is: the required fields must be
      given, the house must be one of the choices, an ended status needs an
      end date, and the unique columns must not repeat another tenant's.
      Django reports all of these at once; the model names one. */
  function TenantFormError(f: TenantForm, hs: seq<House>, ts: seq<Tenant>, editing: Option<Tenant>): (e: Option<Error>)
    ensures e.None? <==>
      TenantFieldsGiven(f) && f.house.value in HouseChoices(hs, ts, editing) &&
      EndDateGiven(f.status, f.enddate) &&
      !TenantKeyTaken(ts, f, if editing.Some? then Some(editing.value.id) else None)
    ensures e == Some(Required) <==> !TenantFieldsGiven(f)
    ensures e == Some(EndDateRequired) ==> f.status == Ended && f.enddate.None?
    ensures e.Some? ==> e.value in {Required, HouseNotSelectable, EndDateRequired, DuplicateKey}
  {
    if !TenantFieldsGiven(f) then Some(Required)
    else if f.house.value !in HouseChoices(hs, ts, editing) then Some(HouseNotSelectable)
    else if !EndDateGiven(f.status, f.enddate) then Some(EndDateRequired)
    else if TenantKeyTaken(ts, f, if editing.Some? then Some(editing.value.id) else None) then Some(DuplicateKey)
    else None
  }

  /** The house status `TenantUpdateView.form_valid` leaves after saving a
      tenant: ended means vacant, active means occupied, notice changes nothing. */
  function SyncedHouseStatus(tenant: TenantStatus, house: HouseStatus): (r: HouseStatus)
    ensures tenant == Ended ==> r == Vacant
    ensures tenant == Active ==> r == Occupied
    ensures tenant == Notice ==> r == house
  {
    match tenant
    case Ended => Vacant
    case Active => Occupied
    case Notice => house
  }

  /** The tenant linked to `house` is ended. */
  predicate LinkedTenantEnded(ts: seq<Tenant>, house: nat)
  {
    exists j :: 0 <= j < |ts| && ts[j].house == Some(house) && ts[j].status == Ended
  }

  /** `available_houses` of the tenant list: no linked tenant, or an ended
      one, or a stored status equal to the literal `Vacant`. */
  function AvailableHouses(hs: seq<House>, ts: seq<Tenant>): (r: set<nat>)
    ensures forall h :: h in r ==> exists i :: 0 <= i < |hs| && hs[i].id == h
    ensures forall i :: 0 <= i < |hs| && !Linked(ts, hs[i].id) ==> hs[i].id in r
  {
    set i | 0 <= i < |hs| &&
      (!Linked(ts, hs[i].id) || LinkedTenantEnded(ts, hs[i].id) || StatusCode(hs[i].status) == "Vacant")
      :: hs[i].id
  }

  /** The status test of `available_houses` matches no stored status, so
      the houses offered are exactly those with no tenant or an ended one; a
      vacant house whose tenant is active or under notice is not offered. */
  lemma AvailableMeansFreeOrEnded(hs: seq<House>, ts: seq<Tenant>)
    ensures AvailableHouses(hs, ts) ==
      set i | 0 <= i < |hs| && (!Linked(ts, hs[i].id) || LinkedTenantEnded(ts, hs[i].id)) :: hs[i].id
  {
    forall i | 0 <= i < |hs|
      ensures StatusCode(hs[i].status) != "Vacant"
    {
      NoStatusCodeIsVacantLabel(hs[i].status);
    }
  }

  /** `Tenant.objects.filter(status=s).count()` */
  function CountStatus(ts: seq<Tenant>, s: TenantStatus): (n: nat)
    ensures n <= |ts|
  {
    if ts == [] then 0
    else (if ts[0].status == s then 1 else 0) + CountStatus(ts[1..], s)
  }

  /** Every tenant is counted under exactly one of the three statuses. */
  lemma {:induction false} StatusCountsPartition(ts: seq<Tenant>)
    ensures CountStatus(ts, Active) + CountStatus(ts, Notice) + CountStatus(ts, Ended) == |ts|
  {
    if ts != [] {
      StatusCountsPartition(ts[1..]);
    }
  }

  /** Changing one tenant's status moves that tenant between two counts and
      leaves the others. */
  lemma {:induction false} CountStatusUpdate(ts: seq<Tenant>, k: nat, t: Tenant, s: TenantStatus)
    requires k < |ts|
    ensures CountStatus(ts[k := t], s) ==
      CountStatus(ts, s) - (if ts[k].status == s then 1 else 0) + (if t.status == s then 1 else 0)
  {
    if k == 0 {
      assert ts[k := t][1..] == ts[1..];
    } else {
      assert ts[k := t][1..] == ts[1..][k - 1 := t];
      CountStatusUpdate(ts[1..], k - 1, t, s);
    }
  }

  predicate TenantIsActive(ts: seq<Tenant>, tenant: nat)
  {
    exists j :: 0 <= j < |ts| && ts[j].id == tenant && ts[j].status == Active
  }

  /** `Household.objects.filter(tenant__status='active').count()` */
  function ActiveHouseholdCount(hs: seq<Household>, ts: seq<Tenant>): (n: nat)
    ensures n <= |hs|
    ensures (forall i :: 0 <= i < |hs| ==> !TenantIsActive(ts, hs[i].tenant)) ==> n == 0
  {
    if hs == [] then 0
    else (if TenantIsActive(ts, hs[0].tenant) then 1 else 0) + ActiveHouseholdCount(hs[1..], ts)
  }

  /** A query parameter counts only when it is present and not empty. */
  predicate Present(p: Option<string>)
  {
    p.Some? && p.value != ""
  }

  /** `"&".join(params)` */
  function JoinParams(ps: seq<string>): (r: string)
  {
    if ps == [] then ""
    else if |ps| == 1 then ps[0]
    else ps[0] + "&" + JoinParams(ps[1..])
  }

  /** `extra_url_params`: the search and status parameters to carry over to
      the pagination links, search first. */
  function ExtraUrlParams(search: Option<string>, status: Option<string>): (r: string)
    ensures r == "" <==> !Present(search) && !Present(status)
    ensures Present(search) && Present(status) ==>
      r == "&search=" + search.value + "&status=" + status.value
    ensures Present(search) && !Present(status) ==> r == "&search=" + search.value
    ensures !Present(search) && Present(status) ==> r == "&status=" + status.value
  {
    var params :=
      (if Present(search) then ["search=" + search.value] else []) +
      (if Present(status) then ["status=" + status.value] else []);
    assert |params| == 2 ==>
      (JoinParams(params) == params[0] + "&" + JoinParams(params[1..]) && params[1..] == [params[1]]);
    if params == [] then "" else "&" + JoinParams(params)
  }

  /** What `TenantListView.get_context_data` adds to the page. */
  datatype TenantListPage = TenantListPage(
    availableHouses: set<nat>,
    activeCount: nat,
    noticeCount: nat,
    endedCount: nat,
    householdCount: nat,
    statusFilter: string,
    searchQuery: string,
    extraUrlParams: string)

  function ListPage(hs: seq<House>, ts: seq<Tenant>, households: seq<Household>,
                    search: Option<string>, status: Option<string>): (p: TenantListPage)
    ensures p.activeCount == CountStatus(ts, Active) && p.noticeCount == CountStatus(ts, Notice)
    ensures p.endedCount == CountStatus(ts, Ended)
    ensures p.activeCount + p.noticeCount + p.endedCount == |ts|
    ensures p.householdCount == ActiveHouseholdCount(households, ts) && p.householdCount <= |households|
    ensures p.availableHouses ==
      set i | 0 <= i < |hs| && (!Linked(ts, hs[i].id) || LinkedTenantEnded(ts, hs[i].id)) :: hs[i].id
    ensures p.extraUrlParams == ExtraUrlParams(search, status)
    ensures p.statusFilter == (if status.Some? then status.value else "")
    ensures p.searchQuery == (if search.Some? then search.value else "")
  {
    StatusCountsPartition(ts);
    AvailableMeansFreeOrEnded(hs, ts);
    TenantListPage(
      AvailableHouses(hs, ts),
      CountStatus(ts, Active), CountStatus(ts, Notice), CountStatus(ts, Ended),
      ActiveHouseholdCount(households, ts),
      if status.Some? then status.value else "",
      if search.Some? then search.value else "",
      ExtraUrlParams(search, status))
  }
}
