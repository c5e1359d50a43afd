# Hospital booking: slot bookkeeping, in Dafny

This project models the booking core of a small hospital web application.
Patients pick a department, a doctor and a consultation session (morning,
afternoon or evening of one day), then register for it. Administrators
maintain the doctor list and each doctor's sessions. A seed script fills the
database with demo departments, doctors and two weeks of randomly drawn
sessions.

The model covers:

- **Client store** (`store.dfy`, class `HospitalStore`). It holds four
  collections. Each mutation is applied at once, and then the durable call's
  outcome is given as `ok`. On failure, `addDoctor`/`addSchedule` remove
  every entry with the new id, and `deleteDoctor`/`deleteSchedule` restore
  the snapshot. `addAppointment` appends the appointment and bumps
  `currentPatients` of the booked schedule. It never rolls back and never
  checks capacity. Two filter queries complete the store.
- **Server actions** (`actions.dfy`) over in-memory tables keyed by id
  (`database.dfy`, class `Db`). Specialties are found or created by name.
  A booking is a create followed by an increment. Rows are mapped to and
  from the page records.
- **Schedule generation and slot identity** (`generator.dfy`,
  `mock_data.dfy`, `seed.dfy`, `slot_ids.dfy`, `calendar.dfy`).
  - Both generators walk 14 days from today, skip Sundays and draw each of
    the three sessions.
  - A slot id is `doctorId-yyyyMMdd-Session`. It parses back from the right,
    so it is injective.
  - Seeding upserts with an empty update, so rows already present are
    never changed, and re-running the seed with the same inputs (the same
    day and the same random draws) adds nothing. A real re-run draws afresh
    and starts from a new day, so it may still add sessions.
- **Pages**:
  - `schedule_editor.dfy`: the admin schedule editor builds the day form
    from existing sessions. On save it replaces the doctor's sessions for
    that day with one per active slot.
  - `register.dfy`: the registration wizard. The step counter is clamped to
    0..4. It filters doctors and future sessions sorted by time, marks full
    cards, and guards booking and submission.
  - `admin_doctors.dfy`: adding a doctor validates the form, fills the
    defaults and parses comma-separated specialties. Search is by substring.
  - `doctors_page.dfy`: the public directory filters by department and
    search term.

Time is an `Instant`: a local calendar day index (from 1970-01-01) plus
milliseconds into the day. `Math.random` is a `Draws` oracle parameter,
and `Date.now()` a `stamp`/`now` parameter. Every durable call's success is
an `ok: bool` parameter (in the store) or the outcome of an in-memory table
operation (in the actions and the seed).

## Model

| member | source | states |
|---|---|---|
| Calendar.AddDays | prisma/seed.ts:84 | `addDays(today, i)` keeps the time of day and moves the day index by exactly `i` |
| Calendar.Weekday | src/lib/mock-data.ts:89 | `getDay()` is a weekday number below 7 |
| Calendar.WeekdayFormula | src/lib/mock-data.ts:89 | the weekday of day index `n` is `(n + 4) mod 7`, so 0 is Sunday and 1970-01-01 is a Thursday |
| Calendar.DaysInMonth | prisma/seed.ts:91 | every month of the Gregorian calendar behind `yyyyMMdd` has 28 to 31 days |
| Calendar.CivilDate | prisma/seed.ts:91 | the calendar date of a day index is a valid date from 1970 on |
| Calendar.NextDateIsLater | prisma/seed.ts:91 | the day after a valid date has a larger `yyyyMMdd` key |
| Calendar.CivilDateMonotone | prisma/seed.ts:91 | later day indexes have strictly larger `yyyyMMdd` keys |
| Calendar.CivilDateInjective | prisma/seed.ts:91 | two day indexes with the same calendar date are equal |
| Calendar.YearMonotone | prisma/seed.ts:91 | the year never decreases as the day index grows |
| Calendar.SameCalendarDayIff | src/lib/store.tsx:139-145 | equal date, month and full year holds exactly when the two instants fall on the same day index |
| Calendar.Digits | prisma/seed.ts:91 | the zero-padded rendering has exactly the requested width and only digits |
| Calendar.DigitsRoundTrip | prisma/seed.ts:91 | reading back the zero-padded digits of a number that fits gives the number |
| Calendar.DateStamp | prisma/seed.ts:91 | `format(d, 'yyyyMMdd')` is exactly 8 digit characters |
| Calendar.DateStampInjective | prisma/seed.ts:91 | up to year 9999 two days with the same stamp are the same day |
| Types.SlotIndex | prisma/seed.ts:74-78 | each session has a position below 3 in the loop order, and that position names it |
| Types.SlotName | prisma/seed.ts:91 | a session name is non-empty and has no `-` |
| Types.Incremented | src/lib/store.tsx:122 | `{ ...s, currentPatients: s.currentPatients + 1 }` adds one patient and changes no other field |
| Types.UniqueIdsConcat | src/lib/mock-data.ts:96-97 | two id-unique lists with no shared id concatenate to an id-unique list |
| Seqs.Filter | src/lib/store.tsx:136 | `filter` keeps at most the input, only elements of the input that pass the test |
| Seqs.FilterIsSubsequence | src/lib/store.tsx:136 | `filter` yields an order-preserving subsequence holding exactly the input elements that pass |
| Seqs.FilterConcat | src/app/admin/schedule/page.tsx:84-90 | filtering a concatenation is concatenating the filtered parts |
| Seqs.FilterKeepsAll | src/app/admin/doctors/page.tsx:66-70 | a test every element passes keeps the list unchanged |
| Seqs.FilterDropsAll | src/app/admin/schedule/page.tsx:84-90 | a test no element passes yields the empty list |
| Seqs.FilterFilter | src/app/register/page.tsx:39-40 | two filters in a row are one filter by the conjunction |
| Seqs.FilterCongruent | src/app/admin/schedule/page.tsx:84-90 | filters whose tests agree on every element give the same result |
| Text.LeadingSpaces | src/app/admin/doctors/page.tsx:54 | the white space `trim()` removes at the front is exactly the first `n` characters |
| Text.TrailingSpaces | src/app/admin/doctors/page.tsx:54 | the white space `trim()` removes at the back is exactly the last `n` characters |
| Text.Trim | src/app/admin/doctors/page.tsx:54 | a trimmed string is empty or starts and ends with a non-space character |
| Text.TrimContained | src/app/admin/doctors/page.tsx:54 | the trimmed string is a contiguous part of the input |
| Text.TrimTrimmed | src/app/admin/doctors/page.tsx:54 | a string without white space at either end is its own trim (trim is idempotent) |
| Text.Split | src/app/admin/doctors/page.tsx:54 | `split(",")` gives at least one piece and no piece contains the separator |
| Text.SplitPrefix | src/app/admin/doctors/page.tsx:54 | splitting `p + "," + rest` gives `p` followed by the pieces of `rest` |
| Text.SplitJoin | src/app/admin/doctors/page.tsx:54 | splitting separator-free pieces joined by the separator gives back the pieces |
| Text.Decimal | src/app/admin/doctors/page.tsx:49 | the decimal rendering of `Date.now()` is non-empty and all digits |
| Text.DecimalRoundTrip | src/app/admin/doctors/page.tsx:49 | reading the decimal rendering back gives the number |
| Text.StampedIdParts | src/app/register/page.tsx:48 | `prefix + Date.now()` starts with the prefix, continues with digits only, and those digits read back to the stamp |
| Text.StampedIdInjective | src/app/register/page.tsx:48 | two stamped ids with the same prefix are equal exactly when the stamps are |
| SlotIds.SlotId | prisma/seed.ts:91 | the slot id is the doctor id, the stamp and the session name with two separators |
| SlotIds.LastIndexOf | prisma/seed.ts:91 | the index found holds the character and none follows it; none found means the character is absent |
| SlotIds.LastIndexOfBefore | prisma/seed.ts:91 | in `a + "-" + b` with no `-` in `b`, the last `-` is right after `a` |
| SlotIds.ParseSlotIdRoundTrip | prisma/seed.ts:91 | a slot id built from an 8-digit stamp parses back, from the right, to its doctor id, stamp and session |
| SlotIds.SlotIdInjective | src/lib/mock-data.ts:97 | equal slot ids with 8-digit stamps come from the same doctor, stamp and session |
| SlotIds.ScheduleIdInjective | src/app/admin/schedule/page.tsx:96 | up to year 9999, distinct (doctor, day, session) triples give distinct ids |
| Store.WithoutIdSpec | src/lib/store.tsx:76 | removing by id keeps, in order, exactly the entries with another id |
| Store.RollbackAppend | src/lib/store.tsx:70-77 | the rollback after an append removes the new entry and every earlier entry with its id; it restores the old list exactly when no earlier entry had that id |
| Store.Ids | src/app/admin/schedule/page.tsx:90 | the ids deleted are the listed schedules' ids, one per schedule, in order |
| Store.IdsMember | src/app/admin/schedule/page.tsx:90 | each listed schedule's id is among the ids deleted |
| Store.IdsFrom | src/app/admin/schedule/page.tsx:90 | each id deleted is the id of a listed schedule |
| Store.WithoutIdsSnoc | src/app/admin/schedule/page.tsx:90 | deleting one more id after a batch is deleting the longer batch |
| Store.WithoutIdsAppend | src/app/admin/schedule/page.tsx:93-107 | rolling back one more added schedule extends the batch of removed ids by its id |
| Store.WithoutNoIds | src/app/admin/schedule/page.tsx:90 | deleting no ids leaves the list as it is |
| Store.ReplaceDoctor | src/lib/store.tsx:80-83 | `updateDoctor` keeps length and order, replaces every entry with the doctor's id and keeps every other entry |
| Store.Booked | src/lib/store.tsx:120-125 | the optimistic booking keeps length and order, increments each schedule with the booked id by one and keeps the others |
| Store.BookedCapacity | src/lib/store.tsx:117-125 | a booking keeps every schedule within capacity exactly when no schedule with the booked id was already full |
| Store.OnDayOfIff | src/lib/store.tsx:139-145 | the date filter's test holds exactly for schedules on the same day index |
| Store.HospitalStore.constructor | src/lib/store.tsx:35-66 | the store holds the four collections the initial fetch loaded |
| Store.HospitalStore.AddDoctor | src/lib/store.tsx:68-78 | the doctor is appended; after a failed call every doctor with its id is removed and the rest keep their order |
| Store.HospitalStore.UpdateDoctor | src/lib/store.tsx:80-83 | `doctors` becomes `ReplaceDoctor` of the old list |
| Store.HospitalStore.DeleteDoctor | src/lib/store.tsx:85-94 | every doctor with the id is removed; a failed call restores the snapshot exactly |
| Store.HospitalStore.AddSchedule | src/lib/store.tsx:96-104 | the schedule is appended; after a failed call every schedule with its id is removed |
| Store.HospitalStore.DeleteSchedule | src/lib/store.tsx:106-115 | every schedule with the id is removed; a failed call restores the snapshot exactly |
| Store.HospitalStore.AddAppointment | src/lib/store.tsx:117-133 | the appointment is appended and `schedules` becomes `Booked`, whether the call succeeds or fails |
| Store.HospitalStore.SchedulesByDoctor | src/lib/store.tsx:135-137 | an order-preserving subsequence holding exactly the schedules of that doctor |
| Store.HospitalStore.SchedulesByDate | src/lib/store.tsx:139-145 | an order-preserving subsequence holding exactly the schedules on that calendar day |
| Database.Upsert | prisma/seed.ts:11-20 | upsert with an empty update adds the key; a row already stored is kept and others are untouched |
| Database.FindSpecialty | src/lib/actions.ts:35 | `findFirst` by name returns the first row with that name, or nothing when the name is absent |
| Database.FindSpecialtyExtend | src/lib/actions.ts:35 | rows appended later do not change where an existing name is found |
| Database.FindOrCreateSpec | prisma/seed.ts:47-48 | find-or-create yields a row of that name, creates only for a new name, and keeps names unique |
| Database.Link | prisma/seed.ts:51-58 | `connect` adds the id once and keeps the relation otherwise unchanged |
| Database.Db.constructor | prisma/seed.ts:4 | all tables start empty |
| Database.Db.UpsertDepartment | prisma/seed.ts:11-20 | the departments table becomes `Upsert` of the old one |
| Database.Db.UpsertDoctor | prisma/seed.ts:26-38 | the doctors table becomes `Upsert` of the old one and the stored row is returned |
| Database.Db.FindOrCreateSpecialty | prisma/seed.ts:47-48 | the specialty table only grows, and the returned id names a row with that name |
| Database.Db.ConnectSpecialty | prisma/seed.ts:51-58 | the doctor's links become `Link` of the old ones; a missing doctor fails and changes nothing |
| Database.Db.CreateDoctor | src/lib/actions.ts:41-55 | `create` fails on a used id and otherwise adds exactly that row |
| Database.Db.DeleteDoctor | src/lib/actions.ts:67-70 | `delete` removes exactly the row with the id and fails when there is none |
| Database.Db.UpsertSchedule | prisma/seed.ts:94-108 | the schedules table becomes `Upsert` of the old one |
| Database.Db.CreateSchedule | src/lib/actions.ts:95-108 | `create` fails on a used id and otherwise adds exactly that row |
| Database.Db.DeleteSchedule | src/lib/actions.ts:113-114 | `delete` removes exactly the row with the id and fails when there is none |
| Database.Db.IncrementPatients | src/lib/actions.ts:161-168 | `increment: 1` adds one patient to that row only, with no capacity check; a missing row fails |
| Database.Db.CreateAppointment | src/lib/actions.ts:146-158 | `create` fails on a used id and otherwise adds exactly that row |
| Actions.ResolveAllConnects | src/lib/actions.ts:32-39 | the specialty table only grows; the connect list has one id per input name, in order, naming a specialty of that name |
| Actions.ResolveAllCreates | src/lib/actions.ts:33-39 | only input names not already present are created, and names stay unique |
| Actions.ResolveAllExisting | src/lib/actions.ts:35-36 | when every name already exists, no specialty is created |
| Actions.ResolveAllFirst | src/lib/actions.ts:35-37 | each connect id is where its name is first found in the resulting table |
| Actions.LinkAllSpec | src/lib/actions.ts:50-52 | connecting ids adds exactly those ids; distinct new ids are appended in order |
| Actions.LinkAllPresent | prisma/seed.ts:51-58 | connecting ids already linked changes nothing |
| Actions.NamesOf | src/lib/actions.ts:22 | `specialties.map(s => s.name)` gives one name per link, in link order |
| Actions.GetDoctorsAction | src/lib/actions.ts:9-27 | each row maps to a doctor with `department := departmentId`, the linked specialty names and the other columns copied |
| Actions.ResolveSpecialties | src/lib/actions.ts:32-39 | the find-or-create loop leaves the table and the connect list that `ResolveAll` describes |
| Actions.AddDoctorAction | src/lib/actions.ts:29-65 | the specialties are resolved; the doctor row is created with `isAvailable ?? true` and its links, or nothing when the id is taken; the returned record is the row read back |
| Actions.AddDoctorRoundTrip | src/lib/actions.ts:29-65 | a doctor with distinct specialties reads back from its row as itself, with `isAvailable` defaulted to true |
| Actions.DeleteDoctorAction | src/lib/actions.ts:67-73 | exactly the row with the id is removed; it fails when there is none |
| Actions.AddScheduleAction | src/lib/actions.ts:95-111 | the schedule row is created unless its id is taken |
| Actions.DeleteScheduleAction | src/lib/actions.ts:113-117 | exactly the row with the id is removed; it fails when there is none |
| Actions.AppointmentRowOf | src/lib/actions.ts:146-158 | flattening keeps the id, schedule id, status and creation time |
| Actions.EmailView | src/lib/actions.ts:139 | an empty email reads back as undefined: an email is shown exactly when it is present and non-empty, and then unchanged |
| Actions.GetAppointmentsAction | src/lib/actions.ts:127-142 | one appointment per row, in order, with the row's id, schedule, status and time, the patient rebuilt from the flat columns and the email read through `|| undefined` |
| Actions.AppointmentsRoundTrip | src/lib/actions.ts:127-155 | listing the rows written for appointments without an empty email gives back exactly those appointments, in order |
| Actions.AppointmentRoundTrip | src/lib/actions.ts:129-155 | an appointment reads back unchanged from its row exactly when its email is not the empty string |
| Actions.CreateAppointmentAction | src/lib/actions.ts:144-173 | the appointment row is created (unless its id is taken), then the schedule gains exactly one patient with no capacity check; a failure leaves the schedules as they were |
| Generator.DayOffersShape | prisma/seed.ts:89-90 | the offers of one day are at most one per session, all on that day, and each is a successful draw |
| Generator.DayOffersComplete | prisma/seed.ts:89-90 | every session whose draw succeeds is offered with its drawn count |
| Generator.WorkDayShape | prisma/seed.ts:85-90 | a day has at most 3 offers, none on a Sunday, each from a successful draw |
| Generator.DayOffersSorted | prisma/seed.ts:89 | a day's offers come in session order |
| Generator.WorkDaySorted | prisma/seed.ts:89 | a day's offers come in session order |
| Generator.WorkDayMembers | prisma/seed.ts:85-90 | a day's offers are exactly the successful draws of that day, and there are none on a Sunday |
| Generator.DoctorOffersStep | prisma/seed.ts:83-90 | one more day of the window appends exactly that day's offers |
| Generator.OverDaysMembers | prisma/seed.ts:83-84 | an offer is in a run of days exactly when its day lies in the run and it is among that day's offers |
| Generator.OverDaysSorted | prisma/seed.ts:83-90 | days whose offers are in session order and on their own day make a run in (day, session) order |
| Generator.OverDaysCount | prisma/seed.ts:83-90 | with at most 3 offers per day and none on Sundays, a run has at most 3 offers per working day |
| Generator.DoctorOffersMembers | prisma/seed.ts:83-90 | a doctor's offers are exactly the successful draws on the non-Sunday days of the window |
| Generator.DoctorOffersSorted | prisma/seed.ts:83-90 | a doctor's offers come in (day, session) order |
| Generator.WorkingDaysSplit | prisma/seed.ts:83-87 | non-Sunday days of adjacent windows add up |
| Generator.FirstWeekHasOneSunday | prisma/seed.ts:87 | the first week of day indexes has 6 working days |
| Generator.WeekShift | prisma/seed.ts:87 | shifting a 7-day window by a day keeps its number of working days |
| Generator.WeekHasOneSunday | prisma/seed.ts:87 | every 7 consecutive days hold exactly 6 non-Sundays |
| Generator.HorizonWorkingDays | prisma/seed.ts:83-87 | the 14-day window holds exactly 12 non-Sunday days |
| Generator.DoctorOffersCount | prisma/seed.ts:83-90 | a doctor gets at most 3 offers per working day |
| Generator.Schedules | prisma/seed.ts:94-108 | one schedule per offer |
| Generator.SchedulesSnoc | prisma/seed.ts:94-108 | the schedules of one more offer are the old ones plus that offer's schedule |
| Generator.SchedulesMember | prisma/seed.ts:94-108 | the schedule of each offer is among the schedules built |
| Generator.SchedulesFrom | prisma/seed.ts:94-108 | each schedule built is the schedule of one of the offers |
| Generator.MapOffersConcat | prisma/seed.ts:94-108 | building for concatenated offers concatenates what is built |
| Generator.SchedulesConcat | prisma/seed.ts:94-108 | the schedules of concatenated offers concatenate |
| Generator.DaysScheduledStep | prisma/seed.ts:83-111 | one more day of the loop appends exactly that day's schedules |
| Generator.DoctorSchedulesDerived | src/lib/mock-data.ts:94-106 | each of a doctor's schedules belongs to that doctor, lies in the horizon with id `doctorId-yyyyMMdd-slot`, and holds its draw's count |
| Generator.DoctorSchedulesShape | src/lib/mock-data.ts:96-106 | each schedule has the slot's fixed hours, capacity 30, an initial count below the bound and is available |
| Generator.DerivedIdsDiffer | prisma/seed.ts:91 | schedules differing in doctor, day or session have different ids (up to year 9999) |
| Generator.DoctorSchedulesUnique | src/lib/mock-data.ts:97 | one doctor's schedules have distinct ids |
| Generator.DoctorSchedulesCount | prisma/seed.ts:83-90 | a doctor gets at most 3 × 12 = 36 schedules |
| Generator.GeneratedSnoc | src/lib/mock-data.ts:86 | the schedules of one more doctor are appended after the others' |
| Generator.GeneratedStep | src/lib/mock-data.ts:86 | after the first `p` doctors, the next doctor's schedules are appended |
| Generator.DoctorSchedulesComplete | prisma/seed.ts:83-90 | every successful draw on a non-Sunday day of the horizon yields that doctor's schedule for it |
| Generator.GeneratedDerived | src/lib/mock-data.ts:86-110 | every generated schedule has a derived id in the horizon and belongs to one of the doctors |
| Generator.GeneratedWellFormed | src/lib/mock-data.ts:86-110 | every generated schedule is well formed: no Sunday, fixed hours, capacity 30, initial count in range, available |
| Generator.GeneratedComplete | src/lib/mock-data.ts:86-110 | every successful draw for a doctor, a non-Sunday day of the horizon and a session yields its schedule |
| Generator.GeneratedUnique | src/lib/mock-data.ts:97 | with distinct doctor ids, all generated ids are distinct |
| Generator.GeneratedApart | src/lib/mock-data.ts:97 | a doctor not in the list shares no id with the list's schedules |
| Generator.GeneratedCount | src/lib/mock-data.ts:86-110 | at most 36 schedules per doctor |
| MockData.DepartmentIdsSpec | src/lib/mock-data.ts:4-29 | the department ids are the four departments' ids, in order |
| MockData.InitialDepartmentsExist | src/lib/mock-data.ts:31-72 | every initial doctor's department is one of the four department ids |
| MockData.InitialIdsDistinct | src/lib/mock-data.ts:31-72 | the initial doctors have distinct ids |
| MockData.PushSessions | src/lib/mock-data.ts:94-108 | the session loop appends the schedules of that day's successful draws |
| MockData.PushDay | src/lib/mock-data.ts:88-108 | a day appends its offers' schedules, or nothing on a Sunday |
| MockData.PushedStep | src/lib/mock-data.ts:87-109 | one more iteration of the day loop, on `addDays(today, i)`, appends that day's schedules and keeps today's time of day |
| MockData.PushDoctor | src/lib/mock-data.ts:87-109 | the 14-day loop appends exactly the doctor's schedules |
| MockData.GeneratedSpec | src/lib/mock-data.ts:75-113 | with booked counts drawn below 10, every generated schedule is well formed, below its capacity and for a listed doctor; at most 36 schedules per doctor; distinct doctor ids give unique schedule ids while the horizon ends before the year 10000 |
| MockData.GenerateSchedules | src/lib/mock-data.ts:75-113 | the result is the generated list; every schedule is well formed with an initial count below 10 < 30, belongs to a listed doctor; at most 36 per doctor; ids unique for distinct doctor ids |
| Seed.UpsertAllSnoc | prisma/seed.ts:10-21 | upserting one more row is one more `Upsert` |
| Seed.UpsertAllConcat | prisma/seed.ts:82-112 | upserting two lists in turn is upserting their concatenation |
| Seed.UpsertAllSpec | prisma/seed.ts:94-108 | every key is present afterwards, rows already present are unchanged, and each new row is one of the inputs stored under its own key |
| Seed.UpsertAllAbsent | prisma/seed.ts:94-108 | a key neither present nor upserted stays absent |
| Seed.UpsertAllFresh | prisma/seed.ts:94-108 | with distinct keys, each input whose key was absent is stored as given |
| Seed.UpsertAllPresent | prisma/seed.ts:94-96 | upserting rows whose keys are all present changes nothing |
| Seed.UpsertAllTwice | prisma/seed.ts:94-96 | upserting the same rows twice is upserting them once |
| Seed.DoctorSeeded | prisma/seed.ts:24-59 | one doctor iteration adds its key, leaves other doctors alone and changes only the links of its row |
| Seed.SeededLinks | prisma/seed.ts:41-58 | the doctor's links afterwards are its old links plus the specialty found for each of its names |
| Seed.SeededTable | prisma/seed.ts:47-48 | the specialty table only grows, holds every name of the doctor and keeps names unique |
| Seed.SeededAbsorbs | prisma/seed.ts:24-59 | after seeding a doctor, seeding it again would change nothing |
| Seed.SeededKeepsAbsorbed | prisma/seed.ts:24-59 | seeding another doctor keeps a seeded doctor seeded |
| Seed.AbsorbedNames | prisma/seed.ts:41-48 | every specialty name of a seeded doctor is in the table |
| Seed.AbsorbedSeeded | prisma/seed.ts:26-28 | seeding a doctor already seeded changes nothing |
| Seed.DoctorsSeededAbsorb | prisma/seed.ts:24-60 | after the doctor loop every listed doctor is seeded |
| Seed.DoctorsSeededNoop | prisma/seed.ts:24-60 | the doctor loop over already-seeded doctors changes nothing |
| Seed.DoctorsSeededTwice | prisma/seed.ts:24-60 | running the doctor loop twice is running it once |
| Seed.DoctorsSeededKeep | prisma/seed.ts:24-60 | no doctor row is lost and specialty names stay unique |
| Seed.PartSeededStep | prisma/seed.ts:41-58 | one specialty iteration finds or creates the name and connects it |
| Seed.ConnectSpecialties | prisma/seed.ts:41-59 | the specialty loop leaves the tables that `PartSeeded` describes |
| Seed.SeedDoctor | prisma/seed.ts:25-59 | one doctor iteration leaves the tables that `DoctorSeeded` describes |
| Seed.SeedDoctors | prisma/seed.ts:24-60 | the doctor loop leaves the tables that `DoctorsSeeded` describes |
| Seed.SeedDepartments | prisma/seed.ts:10-21 | the department loop upserts every department in turn |
| Seed.SeedSession | prisma/seed.ts:89-109 | one session iteration upserts that session's schedule when its draw succeeds |
| Seed.DaySeededAt | prisma/seed.ts:89 | after all three sessions the day is seeded |
| Seed.SeedSessions | prisma/seed.ts:89-110 | the session loop upserts the schedules of that day's successful draws |
| Seed.SeedDay | prisma/seed.ts:84-110 | a day upserts its offers' schedules, or nothing on a Sunday |
| Seed.DaysSeededAt | prisma/seed.ts:83 | after 14 days the doctor's schedules are all upserted |
| Seed.DaysSeededStep | prisma/seed.ts:83-111 | one more day upserts that day's schedules |
| Seed.SeedDayAt | prisma/seed.ts:83-111 | one day iteration advances the table by that day |
| Seed.SeedDoctorSchedules | prisma/seed.ts:83-111 | the day loop upserts exactly the doctor's generated schedules |
| Seed.SeedSchedules | prisma/seed.ts:82-112 | the schedule loop upserts exactly the generated schedules of all doctors |
| Seed.SeededSchedules | prisma/seed.ts:91-108 | after seeding, every generated id is present; rows already present are untouched; every new row is well formed (capacity 30, initial count below the bound, available) and belongs to a listed doctor; with distinct doctor ids each fresh schedule is stored as generated |
| Seed.DepartmentsSeeded | prisma/seed.ts:10-21 | every initial doctor's department exists once the departments are seeded |
| Seed.SeedAll | prisma/seed.ts:6-115 | departments, doctors and schedules are seeded in turn as the three seeding functions describe |
| Seed.Seed | prisma/seed.ts:6-115 | the script seeds the four demo departments, the four demo doctors and their generated schedules |
| ScheduleEditor.Set | src/app/admin/schedule/page.tsx:53-58 | setting one session's form changes that session only |
| ScheduleEditor.Defaults | src/app/admin/schedule/page.tsx:33-37 | the reset form holds each session's default: inactive, max 30, its fixed hours |
| ScheduleEditor.LastOfSlotSpec | src/app/admin/schedule/page.tsx:51-60 | the schedule that wins a session is one of that session; none wins exactly when none has that session |
| ScheduleEditor.LoadedFormSpec | src/app/admin/schedule/page.tsx:31-63 | no doctor or no date gives the defaults; a session is active exactly when a schedule of that doctor, day and session exists, and then takes that schedule's max and hours; other sessions keep the defaults |
| ScheduleEditor.UpdateFormFromSchedule | src/app/admin/schedule/page.tsx:31-63 | the forEach loop builds exactly `LoadedForm` |
| ScheduleEditor.NewSchedulesShape | src/app/admin/schedule/page.tsx:93-108 | the first `k` sessions yield at most `k` new schedules, each for an active session among them and built from its form |
| ScheduleEditor.NewSchedulesDistinct | src/app/admin/schedule/page.tsx:93-108 | no session gets two new schedules |
| ScheduleEditor.NewSchedulesComplete | src/app/admin/schedule/page.tsx:93-108 | every active session gets its new schedule |
| ScheduleEditor.NewSchedulesSpec | src/app/admin/schedule/page.tsx:93-108 | one new schedule per active session, each built from that session's form, and no session twice |
| ScheduleEditor.NewSchedulesOnDay | src/app/admin/schedule/page.tsx:95-98 | every new schedule is for the selected doctor and day |
| ScheduleEditor.WellIdentifiedMember | src/app/admin/schedule/page.tsx:84-90 | a schedule of a list with derived ids has the id built from its doctor, day and session |
| ScheduleEditor.DayIdIff | src/app/admin/schedule/page.tsx:84-90 | with derived ids, a schedule's id is among the ids of the doctor's schedules that day exactly when it is one of them |
| ScheduleEditor.RemovingDayIds | src/app/admin/schedule/page.tsx:84-90 | when every id is derived from its schedule's doctor, day and session (before the year 10000), deleting the ids of the doctor's schedules that day removes exactly those schedules and keeps the rest in order |
| ScheduleEditor.SavedDay | src/app/admin/schedule/page.tsx:79-108 | after a successful save the doctor's day holds exactly the new schedules, and every other doctor's or day's schedules are unchanged |
| ScheduleEditor.DeletedStep | src/app/admin/schedule/page.tsx:90 | deleting the next id extends the deleted batch by that id |
| ScheduleEditor.DeleteEach | src/app/admin/schedule/page.tsx:90 | the delete loop removes every listed id, or restores the list when the calls fail |
| ScheduleEditor.AddedStep | src/app/admin/schedule/page.tsx:93-108 | an active session appends its new schedule, and rolling back the first `k+1` new schedules is rolling back the first `k` and then that one |
| ScheduleEditor.SkippedStep | src/app/admin/schedule/page.tsx:93-108 | an inactive session adds nothing |
| ScheduleEditor.AddActiveRows | src/app/admin/schedule/page.tsx:93-108 | the add loop appends the new schedules, or removes their ids when the calls fail |
| ScheduleEditor.SchedulePage.constructor | src/app/admin/schedule/page.tsx:20-28 | no doctor, today's date and the default form |
| ScheduleEditor.SchedulePage.HandleDateSelect | src/app/admin/schedule/page.tsx:65-70 | the date is stored; the form is reloaded only when a date and a doctor are set |
| ScheduleEditor.SchedulePage.HandleDoctorSelect | src/app/admin/schedule/page.tsx:72-77 | the doctor is stored; the form is reloaded only when a date and a doctor are set |
| ScheduleEditor.SchedulePage.HandleSave | src/app/admin/schedule/page.tsx:79-112 | nothing without date and doctor; otherwise the day's existing schedules are deleted when the deletes succeed, then one schedule per active session is appended when the adds succeed, and rolled back by id when they fail |
| Register.Next | src/app/register/page.tsx:32 | `min(p + 1, 4)`: one step forward, never past the last step |
| Register.Prev | src/app/register/page.tsx:33 | `max(p - 1, 0)`: one step back, never below 0 |
| Register.WalkInRange | src/app/register/page.tsx:15-33 | from a step in 0..4, any sequence of next/prev moves stays in 0..4 |
| Register.NextPrev | src/app/register/page.tsx:32-33 | back undoes forward below the last step, forward undoes back above the first; both clamp at the ends |
| Register.AvailableDoctors | src/app/register/page.tsx:35 | an order-preserving subsequence of exactly the doctors of the selected department |
| Register.InsertByTime | src/app/register/page.tsx:41 | inserting adds exactly the one schedule |
| Register.InsertSorted | src/app/register/page.tsx:41 | inserting into a time-sorted list keeps it sorted |
| Register.SortByTime | src/app/register/page.tsx:41 | the result is sorted by `getTime()` and is a permutation of the input |
| Register.SortSorted | src/app/register/page.tsx:41 | an already sorted list is returned unchanged |
| Register.AvailableSchedules | src/app/register/page.tsx:37-42 | empty without a doctor; otherwise a time-sorted permutation of the doctor's schedules dated at or after now |
| Register.AvailableSchedulesIff | src/app/register/page.tsx:38-42 | a schedule is offered exactly when it is in the store, belongs to the doctor and is not in the past |
| Register.SessionCard | src/app/register/page.tsx:191-209 | a card is disabled exactly when `currentPatients >= maxPatients`, and is labelled 額滿 exactly then and 可預約 otherwise |
| Register.UpperChar | src/app/register/page.tsx:285 | no lower-case letter remains and upper-case letters are kept |
| Register.Upper | src/app/register/page.tsx:285 | `toUpperCase` keeps the length and maps each character |
| Register.UpperIdempotent | src/app/register/page.tsx:285 | upper-casing twice is upper-casing once, and the result has no lower-case letter |
| Register.Booking | src/app/register/page.tsx:47-53 | the appointment references the chosen schedule, is Confirmed, has id `apt-<now>`, is created now and copies the form |
| Register.SubmitEnabledBooks | src/app/register/page.tsx:313 | with a session chosen, an enabled submit button always passes `handleRegister`'s guard, which itself checks only the name |
| Register.RegisterWizard.constructor | src/app/register/page.tsx:20-30 | the wizard starts at step 0 with nothing selected and an empty form |
| Register.RegisterWizard.NextStep | src/app/register/page.tsx:32 | the step becomes `Next` of the old step and stays in range |
| Register.RegisterWizard.PrevStep | src/app/register/page.tsx:33 | the step becomes `Prev` of the old step and stays in range |
| Register.RegisterWizard.ChooseDepartment | src/app/register/page.tsx:100 | the department is stored and the wizard moves one step on |
| Register.RegisterWizard.ChooseDoctor | src/app/register/page.tsx:142 | the doctor is stored and the wizard moves one step on |
| Register.RegisterWizard.ChooseSchedule | src/app/register/page.tsx:191-195 | a full card ignores the click; otherwise the schedule is stored and the wizard moves on |
| Register.RegisterWizard.SetName | src/app/register/page.tsx:275 | only the name field changes |
| Register.RegisterWizard.SetIdNumber | src/app/register/page.tsx:285 | only the id number changes, to the upper-cased input |
| Register.RegisterWizard.SetBirthDate | src/app/register/page.tsx:295 | only the birth date changes |
| Register.RegisterWizard.SetPhone | src/app/register/page.tsx:305 | only the phone changes |
| Register.RegisterWizard.HandleRegister | src/app/register/page.tsx:44-56 | nothing without a schedule or with an empty name; otherwise one Confirmed appointment for the schedule is added, the schedule is booked and the step advances |
| Register.RegisterWizard.PressSubmit | src/app/register/page.tsx:310-316 | a disabled 確認掛號 button (name, id number or phone missing) changes nothing; with a session chosen, an enabled one books it, appends the Confirmed appointment and advances the step |
| AdminDoctors.TrimmedNonEmpty | src/app/admin/doctors/page.tsx:54 | trimming and dropping empty pieces never adds pieces |
| AdminDoctors.ParseSpecialties | src/app/admin/doctors/page.tsx:54 | every parsed specialty is non-empty, has no comma and no white space at either end |
| AdminDoctors.CleanPieces | src/app/admin/doctors/page.tsx:54 | trimmed, non-empty, comma-free pieces are clean names |
| AdminDoctors.TrimmedNonEmptyClean | src/app/admin/doctors/page.tsx:54 | clean names pass trimming and filtering unchanged |
| AdminDoctors.ParseJoin | src/app/admin/doctors/page.tsx:54 | parsing clean names joined by commas gives back the names |
| AdminDoctors.ParseEmpty | src/app/admin/doctors/page.tsx:54 | an empty input gives no specialties |
| AdminDoctors.NewDoctor | src/app/admin/doctors/page.tsx:48-57 | id `doc-<now>`; name, department and introduction copied; a given title is kept and an empty one becomes 主治醫師; the specialties are the parsed input; an empty picture becomes the name's avatar; always available |
| AdminDoctors.NewDoctorSpecialties | src/app/admin/doctors/page.tsx:54 | the new doctor's specialties are the clean names typed, comma-separated |
| AdminDoctors.FilteredDoctors | src/app/admin/doctors/page.tsx:66-70 | an order-preserving subsequence of exactly the doctors whose name, department or title contains the term; an empty term keeps all |
| AdminDoctors.EmptyTermKeepsAll | src/app/admin/doctors/page.tsx:66-70 | the empty search term keeps every doctor, in order |
| AdminDoctors.AdminDoctorsPage.constructor | src/app/admin/doctors/page.tsx:31-43 | empty search, dialog closed, empty form with the placeholder picture |
| AdminDoctors.AdminDoctorsPage.SetSearchTerm | src/app/admin/doctors/page.tsx:31 | the search term is stored |
| AdminDoctors.AdminDoctorsPage.SetAddOpen | src/app/admin/doctors/page.tsx:32 | the dialog state is stored |
| AdminDoctors.AdminDoctorsPage.SetFormData | src/app/admin/doctors/page.tsx:35 | the form is stored |
| AdminDoctors.AdminDoctorsPage.SetSpecialtiesInput | src/app/admin/doctors/page.tsx:43 | the specialties text is stored |
| AdminDoctors.AdminDoctorsPage.HandleAddDoctor | src/app/admin/doctors/page.tsx:45-64 | nothing without a name and a department; otherwise the new doctor is added through the store and the dialog is closed and the form reset |
| AdminDoctors.AdminDoctorsPage.DeleteDoctor | src/app/admin/doctors/page.tsx:177 | the store removes every doctor with the id, or keeps the snapshot on failure |
| DoctorsPage.InitialDept | src/app/doctors/page.tsx:19 | a missing or empty `dept` parameter selects "all"; otherwise the parameter |
| DoctorsPage.FilteredDirectory | src/app/doctors/page.tsx:26-30 | an order-preserving subsequence of exactly the doctors in the department (any, for "all") whose name or some specialty contains the term |
| DoctorsPage.DirectoryShowsAll | src/app/doctors/page.tsx:19-30 | "all" with an empty term lists every doctor, in order |
| DoctorsPage.EmptySearchByDepartment | src/app/doctors/page.tsx:27-28 | with an empty term a doctor is listed exactly when its department matches |

## Left out

- Rendering, animation, styling and icons. So are the layout and navigation pages and the dashboard page, which only counts collection lengths.
- Concurrency: the `Promise.all` initial fetch in `src/lib/store.tsx:43-66`, and the un-awaited delete and add calls in the schedule editor's save. The model runs them one after another.
- Store.HospitalStore.AddDoctor: each durable call's outcome is a parameter `ok`. The actions' own outcomes are not fed back, because the store and the actions are modelled separately.
- ScheduleEditor.SchedulePage.HandleSave: one outcome `deletesOk` stands for all of its delete calls, and one outcome `addsOk` for all of its add calls. A save where only some of the deletes, or only some of the adds, fail is not modelled.
- The Prisma client is reduced to tables keyed by id. Left out: `revalidatePath`, `$disconnect` and `process.exit`. Unique and foreign-key constraints are left out beyond "create fails on a used id". The order of a doctor's linked specialties is the connection order.
- `Math.random` becomes the `Draws` oracle. This covers both draws of the generators and the initial counts. The registration page's random confirmation number is display only and not modelled.
- `Date.now()` and `new Date()` become parameters. One booking reads a single instant `now` for its id, its creation time and the "not in the past" filter.
- Time zones and locale formatting: an instant is a local day index plus milliseconds, and `getDate`/`getMonth`/`getFullYear` are compared through the day index.
- `console.error` and `alert` are left out.
- date-fns is replaced by `AddDays`, `Weekday` and `DateStamp`. Calendar.DateStamp and SlotIds.ScheduleIdInjective state injectivity only up to year 9999, where `yyyyMMdd` stops being eight digits.
- Register.SortByTime: states sortedness and permutation, but not the stability of `Array.prototype.sort` among schedules with the same time.
- Register.UpperChar: upper-cases ASCII letters only. `toUpperCase` also maps other alphabets and can lengthen a string (for example `ß`).
- The `specialties: []` initial field of the admin doctor form is never read. `DoctorForm` has no such field.
- The doctors page file is truncated after its filtering code. Nothing of it is modelled beyond `src/app/doctors/page.tsx:16-30`.
- The store's `isLoading` flag and the `getDepartmentsAction`/`getSchedulesAction` reads are left out. They copy rows unchanged.
