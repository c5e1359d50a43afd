/** The relational store behind the server actions and the seed script,
    reduced to in-memory tables keyed by id. Each method is one table
    operation (`upsert`, `findFirst`/`create`, `create`, `update`,
    `delete`); an operation the database would reject (a duplicate id on
    `create`, a missing row on `update` or `delete`) changes nothing and
    reports `false`, where the database client throws. */
module Database {
  import opened Calendar
  import opened Types

  /** A `doctor` row: its own columns plus the ids of the specialties it is
      linked to, in the order they were connected. */
  datatype DoctorRow = DoctorRow(
    id: string,
    name: string,
    title: string,
    departmentId: string,
    introduction: string,
    imageUrl: string,
    isAvailable: bool,
    specialtyIds: seq<nat>)

  /** An `appointment` row: the patient is stored as flat columns. */
  datatype AppointmentRow = AppointmentRow(
    id: string,
    scheduleId: string,
    status: Status,
    createdAt: Instant,
    patientName: string,
    patientIdNumber: string,
    patientBirthDate: string,
    patientPhone: string,
    patientEmail: Option<string>)

  /** `upsert({ where: { id: key }, update: {}, create: v })`: create the row
      if the key is free, otherwise leave the stored row as it is. */
  function Upsert<V>(t: map<string, V>, key: string, v: V): (r: map<string, V>)
    ensures r.Keys == t.Keys + {key}
    ensures key in t ==> r[key] == t[key]
    ensures key !in t ==> r[key] == v
    ensures forall k :: k in t ==> r[k] == t[k]
  {
    if key in t then t else t[key := v]
  }

  /** `findFirst({ where: { name } })` on the specialty table, whose row ids
      are the positions in `names`. */
  function FindSpecialty(names: seq<string>, name: string): (r: Option<nat>)
    ensures r.Some? ==> r.value < |names| && names[r.value] == name && name !in names[..r.value]
    ensures r.Some? ==> forall i :: 0 <= i < r.value ==> names[i] != name
    ensures r.None? ==> name !in names
    decreases |names|
  {
    if names == [] then None
    else if names[0] == name then Some(0)
    else match FindSpecialty(names[1..], name)
      case None => None
      case Some(k) => assert names[1..][..k] == names[1..k + 1]; Some(k + 1)
  }

  /** Rows appended after a name's first row do not change where it is found. */
  lemma FindSpecialtyExtend(names: seq<string>, more: seq<string>, name: string)
    requires name in names
    ensures FindSpecialty(names + more, name) == FindSpecialty(names, name)
  {
    var all := names + more;
    var r1, r2 := FindSpecialty(all, name), FindSpecialty(names, name);
    assert r1.Some? && r2.Some?;
    assert all[r2.value] == name;
    assert r1.value <= r2.value;
    assert names[r1.value] == all[r1.value];
  }

  /** No two specialties share a name. */
  predicate UniqueNames(names: seq<string>)
  {
    forall i, j :: 0 <= i < j < |names| ==> names[i] != names[j]
  }

  /** `findFirst(...) ?? create(...)`: the new table and the id of the
      specialty called `name`. */
  function FindOrCreate(names: seq<string>, name: string): (seq<string>, nat)
  {
    match FindSpecialty(names, name)
    case Some(k) => (names, k)
    case None => (names + [name], |names|)
  }

  /** Find-or-create yields a specialty of that name, creates a row only for
      a new name, and never creates a second specialty with a name in use. */
  lemma FindOrCreateSpec(names: seq<string>, name: string)
    ensures var (t, id) := FindOrCreate(names, name);
      && id < |t| && t[id] == name
      && (name in names ==> t == names && id < |names|)
      && (name !in names ==> t == names + [name])
      && (UniqueNames(names) ==> UniqueNames(t))
  {
    var (t, id) := FindOrCreate(names, name);
    if name !in names {
      forall i, j | 0 <= i < j < |t| && UniqueNames(names)
        ensures t[i] != t[j]
      {
        if j == |names| {
          assert t[i] == names[i];
          assert names[i] in names;
        }
      }
    }
  }

  /** `connect: { id }` on the doctor-specialty relation: a pair already
      present is not added again. */
  function Link(ids: seq<nat>, id: nat): (r: seq<nat>)
    ensures id in r
    ensures forall x :: x in r <==> x in ids || x == id
    ensures id in ids ==> r == ids
  {
    if id in ids then ids else ids + [id]
  }

  class Db {
    var departments: map<string, Department>
    var doctors: map<string, DoctorRow>
    var specialties: seq<string>
    var schedules: map<string, Schedule>
    var appointments: map<string, AppointmentRow>

    /** Every doctor row is stored under its own id, and every link names
      an existing specialty. */
    predicate Valid()
      reads this`doctors, this`specialties
    {
      forall id :: id in doctors ==>
        && doctors[id].id == id
        && forall k :: 0 <= k < |doctors[id].specialtyIds| ==> doctors[id].specialtyIds[k] < |specialties|
    }

    constructor ()
      ensures departments == map[] && doctors == map[] && specialties == []
      ensures schedules == map[] && appointments == map[]
      ensures Valid()
    {
      departments, doctors, specialties := map[], map[], [];
      schedules, appointments := map[], map[];
    }

    method UpsertDepartment(d: Department)
      modifies this`departments
      ensures departments == Upsert(old(departments), d.id, d)
    {
      departments := Upsert(departments, d.id, d);
    }

    /** Upsert with an empty update; returns the row now stored under the id. */
    method UpsertDoctor(row: DoctorRow) returns (stored: DoctorRow)
      requires Valid()
      requires forall k :: 0 <= k < |row.specialtyIds| ==> row.specialtyIds[k] < |specialties|
      modifies this`doctors
      ensures doctors == Upsert(old(doctors), row.id, row)
      ensures stored == doctors[row.id]
      ensures Valid()
    {
      doctors := Upsert(doctors, row.id, row);
      stored := doctors[row.id];
    }

    method FindOrCreateSpecialty(name: string) returns (id: nat)
      requires Valid()
      modifies this`specialties
      ensures (specialties, id) == FindOrCreate(old(specialties), name)
      ensures id < |specialties| && specialties[id] == name
      ensures |old(specialties)| <= |specialties| && specialties[..|old(specialties)|] == old(specialties)
      ensures Valid()
    {
      FindOrCreateSpec(specialties, name);
      var (t, k) := FindOrCreate(specialties, name);
      specialties, id := t, k;
    }

    /** `doctor.update({ where: { id }, data: { specialties: { connect: { id: specId } } } })`. */
    method ConnectSpecialty(doctorId: string, specId: nat) returns (ok: bool)
      requires Valid() && specId < |specialties|
      modifies this`doctors
      ensures ok == (doctorId in old(doctors))
      ensures ok ==> doctors == old(doctors)[doctorId := old(doctors)[doctorId].(specialtyIds := Link(old(doctors)[doctorId].specialtyIds, specId))]
      ensures !ok ==> doctors == old(doctors)
      ensures Valid()
    {
      ok := doctorId in doctors;
      if ok {
        var row := doctors[doctorId];
        doctors := doctors[doctorId := row.(specialtyIds := Link(row.specialtyIds, specId))];
      }
    }

    /** `doctor.create`: fails on an id already in use. */
    method CreateDoctor(row: DoctorRow) returns (ok: bool)
      requires Valid()
      requires forall k :: 0 <= k < |row.specialtyIds| ==> row.specialtyIds[k] < |specialties|
      modifies this`doctors
      ensures ok == (row.id !in old(doctors))
      ensures doctors == if ok then old(doctors)[row.id := row] else old(doctors)
      ensures Valid()
    {
      ok := row.id !in doctors;
      if ok {
        doctors := doctors[row.id := row];
      }
    }

    /** `doctor.delete({ where: { id } })`: fails when there is no such row. */
    method DeleteDoctor(id: string) returns (ok: bool)
      requires Valid()
      modifies this`doctors
      ensures ok == (id in old(doctors))
      ensures doctors == old(doctors) - {id}
      ensures Valid()
    {
      ok := id in doctors;
      doctors := doctors - {id};
    }

    method UpsertSchedule(s: Schedule)
      modifies this`schedules
      ensures schedules == Upsert(old(schedules), s.id, s)
    {
      schedules := Upsert(schedules, s.id, s);
    }

    method CreateSchedule(s: Schedule) returns (ok: bool)
      modifies this`schedules
      ensures ok == (s.id !in old(schedules))
      ensures schedules == if ok then old(schedules)[s.id := s] else old(schedules)
    {
      ok := s.id !in schedules;
      if ok {
        schedules := schedules[s.id := s];
      }
    }

    method DeleteSchedule(id: string) returns (ok: bool)
      modifies this`schedules
      ensures ok == (id in old(schedules))
      ensures schedules == old(schedules) - {id}
    {
      ok := id in schedules;
      schedules := schedules - {id};
    }

    /** `schedule.update` with `currentPatients: { increment: 1 }`: fails
      when there is no such row; nothing compares the count with `maxPatients`. */
    method IncrementPatients(id: string) returns (ok: bool)
      modifies this`schedules
      ensures ok == (id in old(schedules))
      ensures schedules == if ok then old(schedules)[id := Incremented(old(schedules)[id])] else old(schedules)
    {
      ok := id in schedules;
      if ok {
        schedules := schedules[id := Incremented(schedules[id])];
      }
    }

    method CreateAppointment(row: AppointmentRow) returns (ok: bool)
      modifies this`appointments
      ensures ok == (row.id !in old(appointments))
      ensures appointments == if ok then old(appointments)[row.id := row] else old(appointments)
    {
      ok := row.id !in appointments;
      if ok {
        appointments := appointments[row.id := row];
      }
    }
  }
}
