# Estate management: houses, meters and tenants

This project models the record-keeping core of a small estate-management web
application in Dafny. Houses and their owners are held in a record store.
Each house has water meters, and each meter has readings that are billed per
unit. Tenants occupy houses and have household members. The model covers:

- the records and their defaults, unique columns and foreign keys;
- the meter-reading rules: the previous reading, consumption, and the bill
  at a per-reading rate rounded half-even to two decimals;
- the "one current meter per house" rule, and the create, deactivate and
  replace operations that keep it or break it;
- the tenancy lifecycle: ending a tenancy, the household cascade on
  `Tenant.save`, and the house status that follows a tenant's status;
- the tenant and meter forms' validation;
- the figures of the per-house meter page and of the tenant list page.

Modules:

- `Base`: options, results, the error kinds and full names.
- `Money`: decimal amounts as integers in hundredths, and half-even rounding.
- `Houses`: houses, owners and their display strings.
- `Meters`: meters, readings, billing and the per-house meter page.
- `Tenants`: tenants, households, the tenant form and the tenant list page.
- `Tables`: the rules of each table of the store, and what each kind of
  write keeps.
- `EstateStore`: the class `Estate`, whose fields are the tables. Its
  methods are the requests and the model methods that change the store.

### Conventions

- **Amounts.** Decimal amounts (readings, consumption, rates) are integers
  in hundredths. A bill is `round(consumption * rate, 2)` on those
  hundredths: a product in ten-thousandths, rounded half to even, the way
  Python's `round` treats a `Decimal`.
- **Tables and keys.** Every table is a sequence of records in primary-key
  order. `nextId` is the one autoincrement counter, shared by all tables.
  Foreign keys are stored ids.
- **Time and the user.** The clock, the current date and the signed-in user
  are parameters of the operations.
- **Requests.** Each request either completes or is refused as a whole. A
  refused request names the first check that fails.

## Model

| member | source | states |
|---|---|---|
| Base.FullName | tenant/models.py:35-36 | the full name is the first name, one space, then the last name, with nothing else |
| Base.FullNameSplits | house/models.py:59-60 | when the first name has no space, splitting a full name at its first space gives back the first and last name |
| Money.RoundHalfEven | meter/models.py:42 | the result is the whole number of hundredths nearest to a value in ten-thousandths; an exact tie goes to the even neighbour |
| Money.HalfEvenRoundingUnique | meter/models.py:42 | the rounding relation has exactly one result for each input |
| Money.RoundingMonotone | meter/models.py:42 | rounding never reverses the order of two amounts |
| Money.BillAmount | meter/models.py:40-42 | a bill is the product of consumption and rate, rounded half-even to two decimals |
| Money.BillAtWholeRate | meter/models.py:38-42 | at a whole-unit rate such as the default 171, a bill needs no rounding and is consumption times the rate |
| Money.DefaultRateExample | meter/models.py:38 | 50.00 units at the default rate of 171.00 cost 8550.00 |
| Money.BillTiesRoundToEven | meter/models.py:42 | ties go to the even hundredth: 0.01 at 0.50 bills 0.00, and 0.03 at 0.50 bills 0.02 |
| Money.BillMonotone | meter/models.py:40-42 | at a non-negative rate, more consumption never bills less, and zero consumption bills nothing |
| Houses.NoStatusCodeIsVacantLabel | house/models.py:6-10 | no stored house status is the capitalised label `Vacant` |
| Houses.NewHouse | house/models.py:17-24 | a house created without a status is `developer`; every other field is as given |
| Houses.AddingOwnerKeepsKeysUnique | house/models.py:41-43 | an owner whose KRA PIN, email and phone are all unused keeps the owners' keys unique |
| Houses.FirstHouse | house/models.py:63 | `owner.house.first()` under the house ordering: no result exactly when the owner has no stored house; otherwise one of the owner's houses whose number no other house of the owner precedes |
| Houses.FirstOwner | house/models.py:29 | `owner_set.first()` under the owners' newest-first order: no result exactly when nobody owns the house; otherwise an owner of the house with the latest creation time |
| Houses.HouseLabel | house/models.py:28-30 | `House <number> - Vacant` when nobody owns the house; otherwise the number and the full name of an owner with the latest creation time |
| Houses.OwnerLabel | house/models.py:62-64 | `<full name> - House: No House` when the owner has no house; otherwise the full name and the number of the owner's first house by number |
| Houses.FirstHouseUnique | house/models.py:32-33 | because house numbers are unique, the first house by number is determined: it is the one house no other house of the set precedes |
| Meters.NewMeter | meter/models.py:13-17 | a new meter is `active` and current; number, house and installation date are as given |
| Meters.Deactivated | meter/models.py:25-28 | deactivating a meter makes it `inactive` and not current, and keeps its id, number, house and installation date |
| Meters.Latest | meter/models.py:46 | the first reading of a meter in date-descending, id-descending order: no result exactly when the meter has no reading; otherwise a reading of that meter that no other reading of it is newer than |
| Meters.PreviousValue | meter/models.py:45-47 | 0 for a meter with no readings; otherwise the value of a latest reading of that meter |
| Meters.Bill | meter/models.py:40-42 | `bill_amount` of one reading: its consumption times its own rate, rounded half-even to two decimals |
| Meters.ReadingAcceptedAsWritten | meter/forms.py:46-59 | `MeterReadingForm.clean` as written: a reading is refused exactly when it is non-zero, a meter is given, and it is not above the meter's latest reading (0 with none) |
| Meters.ReadingAccepted | meter/forms.py:46-59 | the check as its error message states it: with a meter given, a reading is accepted exactly when it is above the meter's latest reading (0 with none) |
| Meters.Saved | meter/models.py:44-50 | a new reading takes the latest value of its meter as its previous reading, while a stored one keeps its own; consumption is then current minus previous, and no other field changes |
| Meters.AcceptedReadingConsumptionPositive | meter/forms.py:46-59 | a new reading that passes the stated check gets a positive consumption and a non-negative bill |
| Meters.ZeroReadingAcceptedAsWritten | meter/forms.py:50 | the check as written accepts a reading of 0.00 after 100.00; the stated check refuses it, and the saved reading has consumption -100.00 and bill -17100.00 |
| Meters.CheckAsWrittenDiffersOnlyAtZero | meter/forms.py:50 | the check as written accepts every reading the stated check accepts, and accepts one more exactly when the reading is zero and the previous reading is zero or more |
| Meters.AcceptedKeepsIncreasing | meter/forms.py:46-59 | an accepted reading, dated no earlier than its meter's other readings, keeps each meter's readings strictly increasing in the default order |
| Meters.OnMeter | meter/views.py:25 | `meter.readings.all()`: each reading of this meter, as often as it is stored and no other reading, listed in the default order (newest date first, then highest key first) |
| Meters.PreviousIsFirstListed | meter/views.py:25-29 | with distinct keys, the previous reading shown on the page is the value of the first reading the page lists |
| Meters.TotalConsumption | meter/views.py:34 | the sum of the consumption of the listed readings, 0 for none |
| Meters.TotalBill | meter/views.py:35 | the sum of the listed readings' bills, each rounded on its own before adding, 0 for none |
| Meters.TotalBillAtDefaultRate | meter/views.py:35 | when every reading is at the default rate, the summed bills are 171 times the summed consumption |
| Meters.TotalBillUpdate | meter/views.py:35 | the summed bill changes by exactly the difference of the one reading's bill when that reading changes |
| Meters.Highest | meter/views.py:36 | `max(readings, key=consumption)`: a reading of greatest consumption; of several with equal consumption, the first in the default order; none exactly for no readings |
| Meters.AddingMeterKeepsOneCurrent | meter/views.py:69-72 | a meter added to a house with no current meter keeps at most one current meter per house |
| Meters.DeactivatingKeepsOneCurrent | meter/models.py:25-28 | deactivating any meter keeps at most one current meter per house |
| Meters.AfterReplacement | meter/views.py:86-96 | a replacement adds exactly one meter to the table |
| Meters.ReplacementKeepsOneCurrent | meter/views.py:86-96 | replacing a house's current meter, or any meter of a house without one, keeps the rule, and the new meter is then the house's only current meter |
| Meters.ReplacingStaleMeterBreaksOneCurrent | meter/views.py:86-96 | replacing a meter that is no longer current, in a house that has a current meter, leaves the house with two current meters |
| Meters.NumberInUse | meter/forms.py:10-14 | `MeterForm.clean_meter_number` refuses a number exactly when a current meter already has it |
| Meters.Replaceable | meter/forms.py:23-27 | `MeterReplacementForm.clean` accepts exactly the statuses inactive and damaged |
| Meters.FirstCurrent | meter/views.py:19 | no result exactly when the house has no current meter; otherwise that house's current meter with the lowest key |
| Meters.HouseMeterPage | meter/views.py:17-45 | for a stored house (the 404 for any other key is `EstateStore.HouseMeterView`), the page shows the house's first current meter. It lists exactly that meter's readings, newest first, and the previous reading (0 with none). The totals and the highest reading appear exactly when there are readings: the sum of consumption, the sum of the per-reading bills, and the reading of greatest consumption that is listed first |
| Tenants.SaveCascade | tenant/models.py:47-53 | `Tenant.save`: when the tenant has an end date that is not in the future, each of its open households gets that end date; otherwise, and for every other tenant's household, nothing changes; the count is kept |
| Tenants.CloseOpenHouseholds | tenant/models.py:49-52 | each open household of the tenant gets the end date; every other household is unchanged; the count is kept |
| Tenants.CloseOpenHouseholdsSettles | tenant/models.py:49-52 | afterwards no household of the tenant is open, and repeating the update at any date changes nothing |
| Tenants.EndDateGiven | tenant/forms.py:47-58 | `TenantForm.clean` refuses exactly an ended status without an end date |
| Tenants.AvailableHouses | tenant/views.py:22-26 | the houses with no linked tenant, with an ended tenant, or with the stored status `Vacant`; only stored houses, and every house with no linked tenant, are in it |
| Tenants.HouseChoices | tenant/forms.py:31-39 | a house can be chosen exactly when it is stored and either no tenant is linked to it or it is the edited tenant's own house |
| Tenants.TenantFormError | tenant/forms.py:47-58 | the form is valid exactly when first name, last name, phone and house are given; the house is one of the choices; an ended status has an end date; and no other tenant has the email, phone or id number. A blank required field is reported as `Required` exactly when one is blank |
| Tenants.SyncedHouseStatus | tenant/views.py:113-120 | after a tenant is saved, an ended tenant's house is vacant and an active tenant's is occupied; under notice the house status is unchanged |
| Tenants.AvailableMeansFreeOrEnded | tenant/views.py:22-26 | the available houses are exactly those with no linked tenant or an ended one; the stored-status disjunct never matches |
| Tenants.CountStatus | tenant/views.py:29-31 | a status count is at most the number of tenants |
| Tenants.StatusCountsPartition | tenant/views.py:29-31 | the active, notice and ended counts sum to the number of tenants |
| Tenants.CountStatusUpdate | tenant/views.py:29-31 | changing one tenant's status moves it from one count to the other and leaves the third count unchanged |
| Tenants.ActiveHouseholdCount | tenant/views.py:32-34 | the count of households of active tenants is at most the number of households, and is zero when no household's tenant is active |
| Tenants.ExtraUrlParams | tenant/views.py:42-47 | empty exactly when neither search nor status is given non-empty; otherwise `&search=…`, `&status=…`, or both joined by `&`, search first |
| Tenants.ListPage | tenant/views.py:19-49 | each count is the number of tenants with that status, and the three sum to the number of tenants. The household count is the number of households of active tenants. The available houses are those with no linked tenant or an ended one. The filter and search echo their parameters, and the extra URL parameters are as `ExtraUrlParams` states |
| Tables.HouseIndex | meter/views.py:63 | the lookup of a house by key finds the position of the house with that key, or nothing exactly when no house has that key |
| Tables.TenantIndex | tenant/views.py:132 | the same, for tenants |
| Tables.MeterIndex | meter/views.py:110 | the same, for meters |
| Tables.EmptyTablesOk | house/models.py:17 | the empty store satisfies every table rule |
| Tables.HouseRulesHold | house/models.py:17 | in a valid house table, keys increase, are all below the next key, and house numbers are unique |
| Tables.HousesOkFromRules | house/models.py:17 | the converse: keys that increase, stay below the next key and have unique numbers make a valid house table |
| Tables.OwnerRulesHold | house/models.py:41-50 | in a valid owner table, keys increase and stay below the next key; KRA PIN, email and phone are each unique; and every linked house exists |
| Tables.OwnersOkFromRules | house/models.py:41-50 | the converse for owners |
| Tables.TenantRulesHold | tenant/models.py:17-26 | in a valid tenant table, keys increase; email, phone and id number are each unique; each house is linked to at most one tenant; and every linked house exists |
| Tables.TenantsOkFromRules | tenant/models.py:17-26 | the converse for tenants |
| Tables.HouseholdRulesHold | tenant/models.py:58-67 | in a valid household table, keys increase; email, phone and id number are each unique; and every household's tenant exists |
| Tables.HouseholdsOkFromRules | tenant/models.py:58-67 | the converse for households |
| Tables.MeterRulesHold | meter/models.py:13-14 | in a valid meter table, keys increase, meter numbers are unique, and every meter's house exists |
| Tables.MetersOkFromRules | meter/models.py:13-14 | the converse for meters |
| Tables.ReadingRulesHold | meter/models.py:31 | in a valid reading table, keys increase and every reading's meter exists |
| Tables.ReadingsOkFromRules | meter/models.py:31 | the converse for readings |
| Tables.HouseInserted | house/models.py:17 | a house with an unused number, stored under the next key, keeps the house table valid and adds exactly its key |
| Tables.WithHouseStatus | tenant/models.py:42-44 | setting a house's status changes the status of that house only, and keeps every other field and the table's length |
| Tables.HouseStatusSet | tenant/models.py:42-44 | a status change keeps the house table valid and its keys unchanged |
| Tables.SameStatusLeavesHouses | tenant/views.py:117-120 | setting a house's status to the one it already has changes nothing |
| Tables.OwnerInserted | house/models.py:41-50 | an owner with unused keys whose houses all exist keeps the owner table valid |
| Tables.TenantInserted | tenant/models.py:17-26 | a tenant that fits, stored under the next key, keeps the tenant table valid and adds exactly its key |
| Tables.TenantReplaced | tenant/models.py:17-26 | a tenant that fits, stored over the same key, keeps the tenant table valid and its keys unchanged |
| Tables.HouseholdInserted | tenant/models.py:58-67 | a household with unused keys, of a stored tenant, keeps the household table valid |
| Tables.HouseholdsCascaded | tenant/models.py:47-53 | the household update of `Tenant.save` keeps the household table valid |
| Tables.MeterInserted | meter/models.py:13-14 | a meter with an unused number, of a stored house, keeps the meter table valid and adds exactly its key |
| Tables.MeterRestatused | meter/models.py:25-28 | changing only a meter's status and current flag keeps the meter table valid and its keys unchanged |
| Tables.MeterReplaced | meter/views.py:86-96 | a replacement whose new number is unused keeps the meter table valid and adds exactly the new key |
| Tables.ReadingKeys | meter/models.py:44-50 | stored readings have distinct keys, all below the next key |
| Tables.ReadingInserted | meter/models.py:44-50 | a reading of a stored meter, stored under the next key, keeps the reading table valid |
| Tables.ReadingReplaced | meter/models.py:44-50 | re-saving a reading over its own key and meter keeps the reading table valid |
| EstateStore.Edited | tenant/views.py:109-110 | an edited tenant takes every field of the form (names, email, phone, id number, nationality, house, status, end date), and keeps its key, creator and creation time |
| EstateStore.EditFits | tenant/forms.py:31-39 | a tenant form valid for an edit gives a record that meets the tenant table's unique columns and one-to-one house link |
| EstateStore.NewFits | tenant/forms.py:8-12 | a tenant form valid for a new tenant gives a record that meets the same rules at the end of the table |
| EstateStore.SameKeysFit | tenant/models.py:47-53 | a tenant saved with unchanged keys and house still meets the tenant table's rules |
| EstateStore.ReplacementCurrentMeters | meter/views.py:86-96 | both outcomes of a replacement: the rule is kept when a current meter, or a meter of a house without one, is replaced; it is broken when a stale meter of a house with a current meter is replaced |
| EstateStore.HouseMeterView | meter/views.py:12-19 | the detail view of a house: 404 exactly when no stored house has the key; otherwise the page `Meters.HouseMeterPage` builds for that house |
| EstateStore.Estate.constructor | house/models.py:5-26 | an empty store is valid |
| EstateStore.Estate.AddHouse | house/models.py:17-24 | refused exactly when the number is taken; otherwise appends the new house under the next key with its default status; nothing else changes |
| EstateStore.Estate.AddOwner | house/views.py:39-47 | `OwnerCreateView` with `OwnerForm`: refused when a required column is blank, else when a chosen house does not exist, else when the KRA PIN, email or phone is taken; it succeeds exactly when none of these holds, and then appends the owner under the next key, created by the signed-in user at now |
| EstateStore.Estate.Deactivate | meter/models.py:25-28 | the meter becomes inactive and not current, the one-current rule is kept, and nothing else changes |
| EstateStore.Estate.CreateMeter | meter/views.py:60-76 | one error for each failed check, in this order: unknown house, blank number (a required field), number of a current meter, number of any meter, house with a current meter. It succeeds exactly when all pass, and appends an active current meter. The one-current rule is kept |
| EstateStore.Estate.ReplaceMeter | meter/views.py:86-98 | refused for an unknown meter, then a blank new number (a required field), then a status other than inactive or damaged, then a taken new number; it succeeds exactly when all pass. The old meter takes the status and stops being current, and a new current meter is installed in the same house today. The rule is kept or broken as in `ReplacementCurrentMeters` |
| EstateStore.Estate.ReplaceAt | meter/views.py:87-96 | the two writes of a replacement at a position, with both outcomes for the one-current rule |
| EstateStore.Estate.SaveNewReading | meter/models.py:44-50 | appends the reading with the meter's latest value as its previous reading and the difference as its consumption |
| EstateStore.Estate.ResaveReading | meter/models.py:44-50 | the reading keeps its previous reading and its consumption is recomputed; no other reading changes; the total bill moves by that reading's change alone |
| EstateStore.Estate.CreateReading | meter/views.py:113-117 | refused for an unknown meter, or under the corrected check for a value not above the meter's latest reading; it succeeds exactly when both pass. It then appends a reading dated today at the default rate, with positive consumption and a bill of 171 per unit, and, when the stored readings were increasing and none of this meter's is dated after today, they stay increasing |
| EstateStore.Estate.SaveTenant | tenant/models.py:47-53 | the tenant is stored; when its end date has passed, all its households are closed, and the household table follows `SaveCascade` |
| EstateStore.Estate.SetHouseStatus | tenant/views.py:91-94 | the house's status is set and nothing else changes |
| EstateStore.Estate.EndTenancy | tenant/models.py:38-45 | the tenant is ended at now, its house (if any) becomes vacant, its open households close at now, and the ended count rises by one unless it was already ended |
| EstateStore.Estate.EndTenancyAction | tenant/views.py:80-99 | an unknown tenant is refused. Any action other than `end_tenancy` changes nothing. `end_tenancy` on a stored tenant always succeeds: it ends the tenant, closes its open households and vacates its house |
| EstateStore.Estate.UpdateTenant | tenant/views.py:109-123 | an unknown tenant is refused, and an invalid form is refused with the error `TenantFormError` names; otherwise the tenant takes the form's fields, households follow `SaveCascade`, and the chosen house takes the synced status |
| EstateStore.Estate.CreateTenant | tenant/views.py:56-62 | an invalid form is refused with the error `TenantFormError` names. A valid form whose end date is not in the future fails, because `Tenant.save` queries the households of an unsaved tenant; nothing is stored. Otherwise the request succeeds: it appends an active tenant, whatever status was submitted, created by the user at now, and changes no house and no household |
| EstateStore.Estate.CreateHousehold | tenant/views.py:131-137 | a blank first name, last name, phone or nationality is refused first, then a taken email, phone or id number, then an unknown tenant. It succeeds exactly when all pass, and appends an open household of that tenant |

## Left out

- `avg_consumption` on the meter page is left out. It is a division rounded to two decimals, and nothing else depends on it.
- Templates, flash messages, redirects, pagination, login and the `status_choices` context entries are left out: they are presentation.
- `Meter.__str__` is left out: it only joins the meter number to the house string.
- `Household.get_full_name` and `Owner.get_full_name` are not modelled separately. They are the same function as `Tenant.get_full_name`, which is `Base.FullName`.
- The `auto_now_add`/`auto_now` fields (`created_at` of houses, meters and readings, and every `updated_at`) are not modelled, and nothing here depends on them. Owners and tenants keep their `created_at`, which defaults to the time of creation rather than being an auto field: the owners' order uses it, and `EstateStore.Estate.CreateTenant` sets it to now.
- The column length limits (`max_length`) and decimal digit limits (`max_digits`) are not modelled. Amounts and strings are unbounded.
- The database's string collation is not modelled. House numbers are ordered character by character (`LexBefore`).
- The clock, the current date and the signed-in user are parameters, not read from the environment.
- The house list, update and delete views, the owner list, update and delete views, and the household update view are left out. House creation is modelled by `EstateStore.Estate.AddHouse` and owner creation by `EstateStore.Estate.AddOwner`.
- EstateStore.Estate.AddHouse: models the ORM create `House.objects.create`, not `HouseForm`. The form would also refuse a blank house number, a missing status and the status `occupied`, which is not one of the house's status choices; `AddHouse` accepts them.
- Form errors are not reported all at once. Django reports every field error together; the model names the first failed check.
- The replacement is not modelled as two separate writes. In the source, `MeterReplaceView.form_valid` saves the old meter and then creates the new one as two separate writes. If the create fails on a duplicate number, the old meter has already stopped being current. `EstateStore.Estate.ReplaceMeter` models the request as all-or-nothing.
- Concurrent requests, and the races between the sequential writes of one request, are not modelled.
- `EstateStore.Estate.ReplaceMeter` has no guard against replacing a meter that is no longer current, because the source has none either. The model proves the rule is kept in the guarded case and broken in the other.
- Creating a tenant does not set its house to occupied, because `TenantCreateView.form_valid` only fixes the status to active. The house takes the occupied status only through `TenantUpdateView.form_valid` with an active tenant.
- EstateStore.Estate.CreateTenant: the server error of a new tenant whose end date is not in the future is modelled as the refusal `UnsavedRelation`. The error response itself is not modelled. (Django 4.1 and later raise `ValueError` when a reverse foreign-key manager is used on an instance without a primary key.)
- EstateStore.Estate.CreateReading: applies the corrected reading check `ReadingAccepted`, not the check as written. The request as written would also accept a zero reading over a non-negative previous reading. `Meters.CheckAsWrittenDiffersOnlyAtZero` states that this is the only difference, and the Findings section below describes it.
- Tenants.AvailableHouses: a set, so the `order_by('hse_number')` of the list page's available houses, a presentation order, is not kept.
- Tenants.TenantFormError: does not check the format of the email address (Django's `EmailField` validation). Only blankness and uniqueness are modelled.
- EstateStore.Estate.CreateHousehold: does not check the format of the email address either.
- EstateStore.Estate.AddOwner: does not check the format of the email address either.
- `Meters.AfterReplacement` states only the size of the result. The meaning of a replacement is stated by `Meters.ReplacementKeepsOneCurrent`, `Meters.ReplacingStaleMeterBreaksOneCurrent` and `Tables.MeterReplaced`.

## Findings

| source | as written | input that shows it | evidently intended | confidence | as-written member | corrected member |
|---|---|---|---|---|---|---|
| meter/forms.py:50 | `if current_reading and self.meter:` skips the comparison when the submitted reading is the decimal zero, which is falsy | a meter whose latest reading is 100.00, then a new reading of 0.00: it is accepted, saved with consumption -100.00 and billed -17100.00 | every submitted reading must exceed the previous one, as the error message says | high (not executed) | Meters.ZeroReadingAcceptedAsWritten | Meters.AcceptedReadingConsumptionPositive |
