/** The server actions: the operations the client store calls to make its
    changes durable, and the mappings between table rows and the records
    the pages use. */
module Actions {
  import opened Calendar
  import opened Types
  import opened Database

  // ---- specialties: find or create, name by name ----

  /** The specialty table, and the ids pushed onto the connect list, after
      the find-or-create loop has handled `names` in order. */
  function ResolveAll(table: seq<string>, names: seq<string>): (seq<string>, seq<nat>)
    decreases |names|
  {
    if names == [] then (table, [])
    else
      var (t, ids) := ResolveAll(table, names[..|names| - 1]);
      var (t2, id) := FindOrCreate(t, names[|names| - 1]);
      (t2, ids + [id])
  }

  /** The loop only ever appends to the table, and the connect list holds
      one id per input name, in input order, naming a specialty called
      that name. */
  lemma {:induction false} ResolveAllConnects(table: seq<string>, names: seq<string>)
    ensures var (t, ids) := ResolveAll(table, names);
      && |table| <= |t| && t[..|table|] == table
      && |ids| == |names|
      && forall k :: 0 <= k < |names| ==> ids[k] < |t| && t[ids[k]] == names[k]
    decreases |names|
  {
    if names != [] {
      var init := names[..|names| - 1];
      ResolveAllConnects(table, init);
      var (t, ids) := ResolveAll(table, init);
      FindOrCreateSpec(t, names[|names| - 1]);
      var (t2, id) := FindOrCreate(t, names[|names| - 1]);
      forall k | 0 <= k < |names|
        ensures (ids + [id])[k] < |t2| && t2[(ids + [id])[k]] == names[k]
      {
        if k < |init| {
          assert (ids + [id])[k] == ids[k] && names[k] == init[k];
          assert t2[..|t|] == t;
          assert t2[ids[k]] == t[ids[k]];
        }
      }
      assert t2[..|table|] == t[..|table|];
    }
  }

  /** A specialty is created only for a name not already in the table, and
      names stay unique: no name already present gets a second row. */
  lemma {:induction false} ResolveAllCreates(table: seq<string>, names: seq<string>)
    requires UniqueNames(table)
    ensures var (t, ids) := ResolveAll(table, names);
      && UniqueNames(t)
      && (forall k :: |table| <= k < |t| ==> t[k] in names && t[k] !in table)
    decreases |names|
  {
    if names != [] {
      var init := names[..|names| - 1];
      var name := names[|names| - 1];
      ResolveAllCreates(table, init);
      ResolveAllConnects(table, init);
      var (t, ids) := ResolveAll(table, init);
      FindOrCreateSpec(t, name);
      var (t2, id) := FindOrCreate(t, name);
      forall k | |table| <= k < |t2|
        ensures t2[k] in names && t2[k] !in table
      {
        if k < |t| {
          assert t2[k] == t[k] && t[k] in init;
        } else {
          assert t2[k] == name;
          assert t[..|table|] == table;
          assert forall x :: x in table ==> x in t;
        }
      }
    }
  }

  /** When every name is already in the table, the loop creates nothing. */
  lemma {:induction false} ResolveAllExisting(table: seq<string>, names: seq<string>)
    requires forall k :: 0 <= k < |names| ==> names[k] in table
    ensures ResolveAll(table, names).0 == table
    decreases |names|
  {
    if names != [] {
      var init := names[..|names| - 1];
      ResolveAllExisting(table, init);
      FindOrCreateSpec(table, names[|names| - 1]);
    }
  }

  /** Each id on the connect list is where its name is first found in the
      resulting table. */
  lemma {:induction false} ResolveAllFirst(table: seq<string>, names: seq<string>)
    ensures var (t, ids) := ResolveAll(table, names);
      |ids| == |names| && forall k :: 0 <= k < |names| ==> FindSpecialty(t, names[k]) == Some(ids[k])
    decreases |names|
  {
    ResolveAllConnects(table, names);
    if names != [] {
      var init := names[..|names| - 1];
      var name := names[|names| - 1];
      ResolveAllFirst(table, init);
      ResolveAllConnects(table, init);
      var (t, ids) := ResolveAll(table, init);
      FindOrCreateSpec(t, name);
      var (t2, id) := FindOrCreate(t, name);
      forall k | 0 <= k < |names|
        ensures FindSpecialty(t2, names[k]) == Some((ids + [id])[k])
      {
        if k < |init| {
          assert names[k] == init[k] && t[ids[k]] == names[k];
          FindSpecialtyExtend(t, t2[|t|..], names[k]);
          assert t + t2[|t|..] == t2;
        } else if name !in t {
          var r := FindSpecialty(t2, name);
          assert t2[|t|] == name;
          assert forall i :: 0 <= i < |t| ==> t2[i] == t[i] != name;
        }
      }
    }
  }

  /** The relation after connecting each id of `ids` in turn. */
  function LinkAll(links: seq<nat>, ids: seq<nat>): (r: seq<nat>)
    decreases |ids|
  {
    if ids == [] then links else Link(LinkAll(links, ids[..|ids| - 1]), ids[|ids| - 1])
  }

  /** Connecting adds exactly the ids connected, and connecting ids that are
      all distinct and new keeps them in connect order. */
  lemma {:induction false} LinkAllSpec(links: seq<nat>, ids: seq<nat>)
    ensures forall x :: x in LinkAll(links, ids) <==> x in links || x in ids
    ensures (forall i, j :: 0 <= i < j < |ids| ==> ids[i] != ids[j]) && (forall k :: 0 <= k < |ids| ==> ids[k] !in links)
      ==> LinkAll(links, ids) == links + ids
    decreases |ids|
  {
    if ids != [] {
      var init := ids[..|ids| - 1];
      LinkAllSpec(links, init);
      assert ids == init + [ids[|ids| - 1]];
    }
  }

  /** Connecting ids that are all linked already changes nothing. */
  lemma {:induction false} LinkAllPresent(links: seq<nat>, ids: seq<nat>)
    requires forall k :: 0 <= k < |ids| ==> ids[k] in links
    ensures LinkAll(links, ids) == links
    decreases |ids|
  {
    if ids != [] {
      LinkAllPresent(links, ids[..|ids| - 1]);
    }
  }

  /** The names of the linked specialties: `doc.specialties.map(s => s.name)`. */
  function NamesOf(ids: seq<nat>, table: seq<string>): (r: seq<string>)
    requires forall k :: 0 <= k < |ids| ==> ids[k] < |table|
    ensures |r| == |ids|
    ensures forall k :: 0 <= k < |ids| ==> r[k] == table[ids[k]]
  {
    seq(|ids|, k requires 0 <= k < |ids| => table[ids[k]])
  }

  predicate LinksValid(row: DoctorRow, table: seq<string>)
  {
    forall k :: 0 <= k < |row.specialtyIds| ==> row.specialtyIds[k] < |table|
  }

  /** The record the pages use for a doctor row (`getDoctorsAction`, and the
      value `addDoctorAction` returns). */
  function DoctorView(row: DoctorRow, table: seq<string>): Doctor
    requires LinksValid(row, table)
  {
    Doctor(row.id, row.name, row.departmentId, row.title, NamesOf(row.specialtyIds, table),
           row.imageUrl, row.introduction, Some(row.isAvailable))
  }

  /** `getDoctorsAction`: `rows` are the doctor rows the database lists, in
      the order it lists them. */
  function GetDoctorsAction(rows: seq<DoctorRow>, table: seq<string>): (r: seq<Doctor>)
    requires forall k :: 0 <= k < |rows| ==> LinksValid(rows[k], table)
    ensures |r| == |rows|
    ensures forall k :: 0 <= k < |rows| ==>
      && r[k].id == rows[k].id && r[k].name == rows[k].name && r[k].title == rows[k].title
      && r[k].department == rows[k].departmentId
      && r[k].imageUrl == rows[k].imageUrl && r[k].introduction == rows[k].introduction
      && r[k].isAvailable == Some(rows[k].isAvailable)
      && |r[k].specialties| == |rows[k].specialtyIds|
      && forall j :: 0 <= j < |rows[k].specialtyIds| ==>
           rows[k].specialtyIds[j] < |table| && r[k].specialties[j] == table[rows[k].specialtyIds[j]]
  {
    var r := seq(|rows|, k requires 0 <= k < |rows| => DoctorView(rows[k], table));
    assert forall k :: 0 <= k < |rows| ==> LinksValid(rows[k], table) && r[k].specialties == NamesOf(rows[k].specialtyIds, table);
    r
  }

  /** The row `addDoctorAction` creates; `isAvailable ?? true`. */
  function NewDoctorRow(data: Doctor, links: seq<nat>): DoctorRow
  {
    DoctorRow(data.id, data.name, data.title, data.department, data.introduction, data.imageUrl,
              match data.isAvailable case Some(b) => b case None => true, links)
  }

  /** The loop of `addDoctorAction`: `findFirst ?? create` for each name,
      pushing the specialty's id onto the connect list. */
  method ResolveSpecialties(db: Db, names: seq<string>) returns (connects: seq<nat>)
    requires db.Valid()
    modifies db`specialties
    ensures db.Valid()
    ensures (db.specialties, connects) == ResolveAll(old(db.specialties), names)
  {
    connects := [];
    var i := 0;
    while i < |names|
      invariant 0 <= i <= |names|
      invariant db.Valid()
      invariant (db.specialties, connects) == ResolveAll(old(db.specialties), names[..i])
    {
      var spec := db.FindOrCreateSpecialty(names[i]);
      connects := connects + [spec];
      assert names[..i + 1][..i] == names[..i];
      i := i + 1;
    }
    assert names[..i] == names;
  }

  /** `addDoctorAction`: resolves each specialty name (find or create),
      then creates the doctor row connected to them. The specialties
      created by the loop stay even when the doctor row is refused. */
  method AddDoctorAction(db: Db, data: Doctor) returns (r: Option<Doctor>)
    requires db.Valid()
    modifies db`doctors, db`specialties
    ensures db.Valid()
    ensures db.specialties == ResolveAll(old(db.specialties), data.specialties).0
    ensures r.Some? == (data.id !in old(db.doctors))
    ensures r.Some? ==> db.doctors == old(db.doctors)[data.id := NewDoctorRow(data, LinkAll([], ResolveAll(old(db.specialties), data.specialties).1))]
    ensures r.None? ==> db.doctors == old(db.doctors)
    ensures r.Some? ==> LinksValid(db.doctors[data.id], db.specialties) && r.value == DoctorView(db.doctors[data.id], db.specialties)
  {
    var connects := ResolveSpecialties(db, data.specialties);
    ResolveAllConnects(old(db.specialties), data.specialties);
    var links := LinkAll([], connects);
    LinkAllSpec([], connects);
    assert forall k :: 0 <= k < |links| ==> links[k] < |db.specialties| by {
      forall k | 0 <= k < |links| ensures links[k] < |db.specialties| {
        assert links[k] in connects;
      }
    }
    var row := NewDoctorRow(data, links);
    var ok := db.CreateDoctor(row);
    if ok {
      r := Some(DoctorView(row, db.specialties));
    } else {
      r := None;
    }
  }

  /** Read back after `addDoctorAction`, a doctor whose specialty names are
      distinct is the doctor that was sent, with availability defaulted to
      true. */
  lemma AddDoctorRoundTrip(table: seq<string>, data: Doctor)
    requires forall i, j :: 0 <= i < j < |data.specialties| ==> data.specialties[i] != data.specialties[j]
    ensures var (t, ids) := ResolveAll(table, data.specialties);
      && LinksValid(NewDoctorRow(data, LinkAll([], ids)), t)
      && DoctorView(NewDoctorRow(data, LinkAll([], ids)), t) == data.(isAvailable := Some(match data.isAvailable case Some(b) => b case None => true))
  {
    var (t, ids) := ResolveAll(table, data.specialties);
    ResolveAllConnects(table, data.specialties);
    forall i, j | 0 <= i < j < |ids| ensures ids[i] != ids[j] {
      assert t[ids[i]] != t[ids[j]];
    }
    LinkAllSpec([], ids);
    assert LinkAll([], ids) == ids;
    var view := DoctorView(NewDoctorRow(data, ids), t);
    assert view.specialties == data.specialties;
  }

  /** `deleteDoctorAction`: removes exactly the row with that id. */
  method DeleteDoctorAction(db: Db, id: string) returns (ok: bool)
    requires db.Valid()
    modifies db`doctors
    ensures db.Valid()
    ensures ok == (id in old(db.doctors))
    ensures db.doctors == old(db.doctors) - {id}
  {
    ok := db.DeleteDoctor(id);
  }

  // ---- schedules ----

  /** `addScheduleAction`: creates the row with the schedule's fields. */
  method AddScheduleAction(db: Db, data: Schedule) returns (ok: bool)
    modifies db`schedules
    ensures ok == (data.id !in old(db.schedules))
    ensures db.schedules == if ok then old(db.schedules)[data.id := data] else old(db.schedules)
  {
    ok := db.CreateSchedule(data);
  }

  /** `deleteScheduleAction`: removes exactly the row with that id. */
  method DeleteScheduleAction(db: Db, id: string) returns (ok: bool)
    modifies db`schedules
    ensures ok == (id in old(db.schedules))
    ensures db.schedules == old(db.schedules) - {id}
  {
    ok := db.DeleteSchedule(id);
  }

  // ---- appointments ----

  /** The row `createAppointmentAction` writes: the patient flattened into columns. */
  function AppointmentRowOf(a: Appointment): (row: AppointmentRow)
    ensures row.id == a.id && row.scheduleId == a.scheduleId && row.status == a.status && row.createdAt == a.createdAt
  {
    AppointmentRow(a.id, a.scheduleId, a.status, a.createdAt, a.patient.name, a.patient.idNumber,
                   a.patient.birthDate, a.patient.phone, a.patient.email)
  }

  /** `email: a.patientEmail || undefined`: a missing or empty email reads as none. */
  function EmailView(e: Option<string>): (r: Option<string>)
    ensures r.Some? <==> e.Some? && e.value != ""
    ensures r.Some? ==> r == e
  {
    match e
    case None => None
    case Some(s) => if s == "" then None else Some(s)
  }

  /** The record the pages use for an appointment row. */
  function AppointmentView(row: AppointmentRow): Appointment
  {
    Appointment(row.id, row.scheduleId,
                Patient(row.patientName, row.patientIdNumber, row.patientBirthDate, row.patientPhone, EmailView(row.patientEmail)),
                row.status, row.createdAt)
  }

  /** `getAppointmentsAction`, over the rows as the database lists them. */
  function GetAppointmentsAction(rows: seq<AppointmentRow>): (r: seq<Appointment>)
    ensures |r| == |rows|
    ensures forall k :: 0 <= k < |rows| ==>
      && r[k].id == rows[k].id && r[k].scheduleId == rows[k].scheduleId
      && r[k].status == rows[k].status && r[k].createdAt == rows[k].createdAt
      && r[k].patient.name == rows[k].patientName && r[k].patient.idNumber == rows[k].patientIdNumber
      && r[k].patient.birthDate == rows[k].patientBirthDate && r[k].patient.phone == rows[k].patientPhone
      && r[k].patient.email == EmailView(rows[k].patientEmail)
  {
    seq(|rows|, k requires 0 <= k < |rows| => AppointmentView(rows[k]))
  }

  /** Writing an appointment and reading it back gives the same appointment,
      unless its email was the empty string, which comes back as none. */
  lemma AppointmentRoundTrip(a: Appointment)
    ensures AppointmentView(AppointmentRowOf(a)) == a <==> a.patient.email != Some("")
  {
  }

  /** Listing the rows written for a sequence of appointments gives those
      appointments back, in order, when none has an empty email. */
  lemma AppointmentsRoundTrip(appts: seq<Appointment>)
    requires forall k :: 0 <= k < |appts| ==> appts[k].patient.email != Some("")
    ensures GetAppointmentsAction(seq(|appts|, k requires 0 <= k < |appts| => AppointmentRowOf(appts[k]))) == appts
  {
    var rows := seq(|appts|, k requires 0 <= k < |appts| => AppointmentRowOf(appts[k]));
    var r := GetAppointmentsAction(rows);
    forall k | 0 <= k < |appts|
      ensures r[k] == appts[k]
    {
      assert rows[k] == AppointmentRowOf(appts[k]);
      assert r[k].patient == appts[k].patient;
    }
  }

  /** `createAppointmentAction`: creates the appointment row, then adds one
      to the schedule's `currentPatients`. The two writes are not one
      transaction and nothing compares the count with `maxPatients`: a full
      schedule goes over capacity. These tables have no foreign keys, so
      here the appointment row also stays when the schedule is missing. */
  method CreateAppointmentAction(db: Db, appt: Appointment) returns (ok: bool)
    modifies db`appointments, db`schedules
    ensures var created := appt.id !in old(db.appointments);
      && db.appointments == (if created then old(db.appointments)[appt.id := AppointmentRowOf(appt)] else old(db.appointments))
      && ok == (created && appt.scheduleId in old(db.schedules))
    ensures ok ==> db.schedules == old(db.schedules)[appt.scheduleId := Incremented(old(db.schedules)[appt.scheduleId])]
    ensures ok ==> db.schedules[appt.scheduleId].currentPatients == old(db.schedules)[appt.scheduleId].currentPatients + 1
    ensures !ok ==> db.schedules == old(db.schedules)
  {
    var created := db.CreateAppointment(AppointmentRowOf(appt));
    if !created {
      return false;
    }
    ok := db.IncrementPatients(appt.scheduleId);
  }
}
