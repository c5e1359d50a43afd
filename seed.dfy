/** The seed script: upserts the demo departments, upserts each demo
    doctor and connects it to its specialties (found by name or created),
    then upserts freshly generated schedules for the next two weeks. Every
    upsert has an empty `update`, so a row already present is left as it
    is, and running the script again with the same inputs changes nothing. */
module Seed {
  import opened Calendar
  import opened Types
  import opened Store
  import opened Database
  import opened Actions
  import opened SlotIds
  import opened Generator
  import opened MockData

  // ---- a sequence of upserts ----

  /** The table after upserting each of `vs` in turn, keyed by `key`. */
  function UpsertAll<V>(t: map<string, V>, key: V -> string, vs: seq<V>): map<string, V>
    decreases |vs|
  {
    if vs == [] then t else Upsert(UpsertAll(t, key, vs[..|vs| - 1]), key(vs[|vs| - 1]), vs[|vs| - 1])
  }

  lemma UpsertAllSnoc<V>(t: map<string, V>, key: V -> string, vs: seq<V>, v: V)
    ensures UpsertAll(t, key, vs + [v]) == Upsert(UpsertAll(t, key, vs), key(v), v)
  {
    assert (vs + [v])[..|vs|] == vs;
  }

  /** Upserting two batches is upserting their concatenation. */
  lemma {:induction false} UpsertAllConcat<V>(t: map<string, V>, key: V -> string, xs: seq<V>, ys: seq<V>)
    ensures UpsertAll(t, key, xs + ys) == UpsertAll(UpsertAll(t, key, xs), key, ys)
    decreases |ys|
  {
    if ys == [] {
      assert xs + ys == xs;
    } else {
      var init := ys[..|ys| - 1];
      var y := ys[|ys| - 1];
      UpsertAllConcat(t, key, xs, init);
      assert xs + ys == (xs + init) + [y];
      UpsertAllSnoc(t, key, xs + init, y);
    }
  }

  /** After the upserts every key of `vs` is present, the rows that were
      there are untouched, and each new row is one of `vs`, stored under its
      own key. */
  lemma {:induction false} UpsertAllSpec<V>(t: map<string, V>, key: V -> string, vs: seq<V>)
    ensures var r := UpsertAll(t, key, vs);
      && (forall j :: 0 <= j < |vs| ==> key(vs[j]) in r)
      && (forall k :: k in t ==> k in r && r[k] == t[k])
      && (forall k :: k in r && k !in t ==> r[k] in vs && key(r[k]) == k)
    decreases |vs|
  {
    if vs != [] {
      var init := vs[..|vs| - 1];
      UpsertAllSpec(t, key, init);
      var r := UpsertAll(t, key, vs);
      forall j | 0 <= j < |vs| ensures key(vs[j]) in r {
        if j < |init| {
          assert vs[j] == init[j];
        }
      }
      forall k | k in r && k !in t ensures r[k] in vs && key(r[k]) == k {
        if k in UpsertAll(t, key, init) {
          assert r[k] in init;
        }
      }
    }
  }

  /** A key neither in the table nor among the upserted keys stays absent. */
  lemma {:induction false} UpsertAllAbsent<V>(t: map<string, V>, key: V -> string, vs: seq<V>, k: string)
    requires k !in t && forall j :: 0 <= j < |vs| ==> key(vs[j]) != k
    ensures k !in UpsertAll(t, key, vs)
    decreases |vs|
  {
    if vs != [] {
      UpsertAllAbsent(t, key, vs[..|vs| - 1], k);
    }
  }

  /** When the keys of `vs` are distinct, each of `vs` whose key was free is
      stored as it is. */
  lemma {:induction false} UpsertAllFresh<V>(t: map<string, V>, key: V -> string, vs: seq<V>)
    requires forall i, j :: 0 <= i < j < |vs| ==> key(vs[i]) != key(vs[j])
    ensures forall j :: 0 <= j < |vs| && key(vs[j]) !in t ==>
      key(vs[j]) in UpsertAll(t, key, vs) && UpsertAll(t, key, vs)[key(vs[j])] == vs[j]
    decreases |vs|
  {
    if vs != [] {
      var init := vs[..|vs| - 1];
      var v := vs[|vs| - 1];
      UpsertAllFresh(t, key, init);
      forall j | 0 <= j < |init| ensures key(init[j]) != key(v) {
        assert init[j] == vs[j];
      }
      if key(v) !in t {
        UpsertAllAbsent(t, key, init, key(v));
      }
      forall j | 0 <= j < |init| && key(init[j]) !in t
        ensures key(vs[j]) in UpsertAll(t, key, vs) && UpsertAll(t, key, vs)[key(vs[j])] == vs[j]
      {
        assert vs[j] == init[j];
      }
    }
  }

  /** Upserting rows whose keys are all present changes nothing. */
  lemma {:induction false} UpsertAllPresent<V>(t: map<string, V>, key: V -> string, vs: seq<V>)
    requires forall j :: 0 <= j < |vs| ==> key(vs[j]) in t
    ensures UpsertAll(t, key, vs) == t
    decreases |vs|
  {
    if vs != [] {
      UpsertAllPresent(t, key, vs[..|vs| - 1]);
    }
  }

  /** Running the same upserts a second time changes nothing. */
  lemma UpsertAllTwice<V>(t: map<string, V>, key: V -> string, vs: seq<V>)
    ensures UpsertAll(UpsertAll(t, key, vs), key, vs) == UpsertAll(t, key, vs)
  {
    UpsertAllSpec(t, key, vs);
    UpsertAllPresent(UpsertAll(t, key, vs), key, vs);
  }

  function DepartmentKey(d: Department): string { d.id }

  // ---- doctors and their specialties ----

  /** The two tables the doctor loop writes. */
  datatype Tables = Tables(doctors: map<string, DoctorRow>, specialties: seq<string>)

  /** One iteration of the doctor loop: upsert the row without links, then
      find or create each specialty by name and connect it. Other rows are
      untouched, and the doctor's row keeps the columns it had (or takes the
      doctor's, with `isAvailable ?? true`, when new): only its links
      change. */
  function DoctorSeeded(s: Tables, doc: Doctor): (r: Tables)
    ensures r.doctors.Keys == s.doctors.Keys + {doc.id}
    ensures forall id :: id in s.doctors && id != doc.id ==> r.doctors[id] == s.doctors[id]
    ensures r.doctors[doc.id] == StartRow(s, doc).(specialtyIds := r.doctors[doc.id].specialtyIds)
  {
    var base := Upsert(s.doctors, doc.id, NewDoctorRow(doc, []));
    var (t, ids) := ResolveAll(s.specialties, doc.specialties);
    Tables(base[doc.id := base[doc.id].(specialtyIds := LinkAll(base[doc.id].specialtyIds, ids))], t)
  }

  /** The doctor loop over `docs`. */
  function DoctorsSeeded(s: Tables, docs: seq<Doctor>): Tables
    decreases |docs|
  {
    if docs == [] then s else DoctorSeeded(DoctorsSeeded(s, docs[..|docs| - 1]), docs[|docs| - 1])
  }

  /** The row the loop starts from for `doc`: the stored one, or the new
      row without links. */
  function StartRow(s: Tables, doc: Doctor): DoctorRow
  {
    if doc.id in s.doctors then s.doctors[doc.id] else NewDoctorRow(doc, [])
  }

  /** The doctor's links grow by exactly the specialties it names, each
      the first row of that name in the new table. */
  lemma SeededLinks(s: Tables, doc: Doctor)
    ensures var r := DoctorSeeded(s, doc);
      forall x :: x in r.doctors[doc.id].specialtyIds <==>
        x in StartRow(s, doc).specialtyIds ||
        exists k :: 0 <= k < |doc.specialties| && FindSpecialty(r.specialties, doc.specialties[k]) == Some(x)
  {
    var (t, ids) := ResolveAll(s.specialties, doc.specialties);
    ResolveAllFirst(s.specialties, doc.specialties);
    var row := StartRow(s, doc);
    LinkAllSpec(row.specialtyIds, ids);
    var r := DoctorSeeded(s, doc);
    assert r.doctors[doc.id].specialtyIds == LinkAll(row.specialtyIds, ids);
    forall x | x in ids
      ensures exists k :: 0 <= k < |doc.specialties| && FindSpecialty(t, doc.specialties[k]) == Some(x)
    {
      var k :| 0 <= k < |ids| && ids[k] == x;
      assert FindSpecialty(t, doc.specialties[k]) == Some(x);
    }
  }

  /** The specialty table only grows, holds each name the doctor lists,
      and keeps names unique. */
  lemma SeededTable(s: Tables, doc: Doctor)
    ensures var r := DoctorSeeded(s, doc);
      && |s.specialties| <= |r.specialties| && r.specialties[..|s.specialties|] == s.specialties
      && (forall k :: 0 <= k < |doc.specialties| ==> doc.specialties[k] in r.specialties)
      && (UniqueNames(s.specialties) ==> UniqueNames(r.specialties))
  {
    var (t, ids) := ResolveAll(s.specialties, doc.specialties);
    ResolveAllConnects(s.specialties, doc.specialties);
    if UniqueNames(s.specialties) {
      ResolveAllCreates(s.specialties, doc.specialties);
    }
    forall k | 0 <= k < |doc.specialties| ensures doc.specialties[k] in t {
      assert t[ids[k]] == doc.specialties[k];
    }
  }

  /** The doctor's row is present, each of its specialty names is in the
      table, and the first row of that name is linked. */
  predicate Absorbed(s: Tables, doc: Doctor)
  {
    && doc.id in s.doctors
    && forall k :: 0 <= k < |doc.specialties| ==>
         && FindSpecialty(s.specialties, doc.specialties[k]).Some?
         && FindSpecialty(s.specialties, doc.specialties[k]).value in s.doctors[doc.id].specialtyIds
  }

  lemma SeededAbsorbs(s: Tables, doc: Doctor)
    ensures Absorbed(DoctorSeeded(s, doc), doc)
  {
    var (t, ids) := ResolveAll(s.specialties, doc.specialties);
    ResolveAllFirst(s.specialties, doc.specialties);
    var base := Upsert(s.doctors, doc.id, NewDoctorRow(doc, []));
    LinkAllSpec(base[doc.id].specialtyIds, ids);
    assert forall k :: 0 <= k < |ids| ==> ids[k] in ids;
  }

  /** Seeding a doctor keeps every doctor seeded before absorbed: rows stay,
      links only grow, and a name already in the table is found where it
      was. */
  lemma SeededKeepsAbsorbed(s: Tables, doc: Doctor, a: Doctor)
    requires Absorbed(s, a)
    ensures Absorbed(DoctorSeeded(s, doc), a)
  {
    var r := DoctorSeeded(s, doc);
    var t := r.specialties;
    SeededLinks(s, doc);
    SeededTable(s, doc);
    assert s.specialties + t[|s.specialties|..] == t;
    assert forall x :: x in s.doctors[a.id].specialtyIds ==> x in r.doctors[a.id].specialtyIds;
    forall k | 0 <= k < |a.specialties|
      ensures FindSpecialty(t, a.specialties[k]) == FindSpecialty(s.specialties, a.specialties[k])
    {
      FindSpecialtyExtend(s.specialties, t[|s.specialties|..], a.specialties[k]);
    }
  }

  /** Each specialty name of an absorbed doctor is in the table. */
  lemma AbsorbedNames(s: Tables, doc: Doctor)
    requires Absorbed(s, doc)
    ensures forall k :: 0 <= k < |doc.specialties| ==> doc.specialties[k] in s.specialties
  {
    forall k | 0 <= k < |doc.specialties| ensures doc.specialties[k] in s.specialties {
      var i := FindSpecialty(s.specialties, doc.specialties[k]).value;
      assert s.specialties[i] == doc.specialties[k];
    }
  }

  /** The ids the names of an absorbed doctor resolve to are all linked. */
  lemma AbsorbedLinks(s: Tables, doc: Doctor, ids: seq<nat>)
    requires Absorbed(s, doc) && |ids| == |doc.specialties|
    requires forall k :: 0 <= k < |ids| ==> FindSpecialty(s.specialties, doc.specialties[k]) == Some(ids[k])
    ensures forall k :: 0 <= k < |ids| ==> ids[k] in s.doctors[doc.id].specialtyIds
  {
  }

  /** Seeding an absorbed doctor again changes nothing. */
  lemma AbsorbedSeeded(s: Tables, doc: Doctor)
    requires Absorbed(s, doc)
    ensures DoctorSeeded(s, doc) == s
  {
    var (t, ids) := ResolveAll(s.specialties, doc.specialties);
    var links := s.doctors[doc.id].specialtyIds;
    AbsorbedNames(s, doc);
    ResolveAllExisting(s.specialties, doc.specialties);
    ResolveAllFirst(s.specialties, doc.specialties);
    AbsorbedLinks(s, doc, ids);
    LinkAllPresent(links, ids);
    var base := Upsert(s.doctors, doc.id, NewDoctorRow(doc, []));
    assert base == s.doctors;
    var row := base[doc.id].(specialtyIds := LinkAll(base[doc.id].specialtyIds, ids));
    assert row == s.doctors[doc.id];
    UpdateSame(s.doctors, doc.id, row);
    assert DoctorSeeded(s, doc) == Tables(base[doc.id := row], t);
  }

  /** Storing the value a key already holds leaves a map as it is. */
  lemma UpdateSame<K, V>(m: map<K, V>, k: K, v: V)
    requires k in m && m[k] == v
    ensures m[k := v] == m
  {
  }

  /** After the loop every doctor it handled is absorbed. */
  lemma {:induction false} DoctorsSeededAbsorb(s: Tables, docs: seq<Doctor>)
    ensures forall k :: 0 <= k < |docs| ==> Absorbed(DoctorsSeeded(s, docs), docs[k])
    decreases |docs|
  {
    if docs != [] {
      var init := docs[..|docs| - 1];
      var last := docs[|docs| - 1];
      var mid := DoctorsSeeded(s, init);
      DoctorsSeededAbsorb(s, init);
      SeededAbsorbs(mid, last);
      forall k | 0 <= k < |init| ensures Absorbed(DoctorsSeeded(s, docs), docs[k]) {
        assert docs[k] == init[k];
        SeededKeepsAbsorbed(mid, last, init[k]);
      }
    }
  }

  lemma {:induction false} DoctorsSeededNoop(s: Tables, docs: seq<Doctor>)
    requires forall k :: 0 <= k < |docs| ==> Absorbed(s, docs[k])
    ensures DoctorsSeeded(s, docs) == s
    decreases |docs|
  {
    if docs != [] {
      DoctorsSeededNoop(s, docs[..|docs| - 1]);
      AbsorbedSeeded(s, docs[|docs| - 1]);
    }
  }

  /** Running the doctor loop a second time changes nothing. */
  lemma DoctorsSeededTwice(s: Tables, docs: seq<Doctor>)
    ensures DoctorsSeeded(DoctorsSeeded(s, docs), docs) == DoctorsSeeded(s, docs)
  {
    DoctorsSeededAbsorb(s, docs);
    DoctorsSeededNoop(DoctorsSeeded(s, docs), docs);
  }

  /** The loop never creates a second specialty with a name in use, and
      never removes a doctor row. */
  lemma {:induction false} DoctorsSeededKeep(s: Tables, docs: seq<Doctor>)
    ensures s.doctors.Keys <= DoctorsSeeded(s, docs).doctors.Keys
    ensures UniqueNames(s.specialties) ==> UniqueNames(DoctorsSeeded(s, docs).specialties)
    decreases |docs|
  {
    if docs != [] {
      DoctorsSeededKeep(s, docs[..|docs| - 1]);
      SeededTable(DoctorsSeeded(s, docs[..|docs| - 1]), docs[|docs| - 1]);
    }
  }

  /** The tables once the row `id` of `base` is connected to the first `n`
      of `names`, starting from the specialty table `table`. */
  function PartSeeded(base: map<string, DoctorRow>, id: string, table: seq<string>, names: seq<string>, n: nat): Tables
    requires id in base && n <= |names|
  {
    var (t, ids) := ResolveAll(table, names[..n]);
    Tables(base[id := base[id].(specialtyIds := LinkAll(base[id].specialtyIds, ids))], t)
  }

  /** One more name: find or create it, then connect it. */
  lemma PartSeededStep(base: map<string, DoctorRow>, id: string, table: seq<string>, names: seq<string>, n: nat)
    requires id in base && n < |names|
    ensures var p := PartSeeded(base, id, table, names, n);
      var (t2, sid) := FindOrCreate(p.specialties, names[n]);
      PartSeeded(base, id, table, names, n + 1) == Tables(p.doctors[id := p.doctors[id].(specialtyIds := Link(p.doctors[id].specialtyIds, sid))], t2)
  {
    var (t, ids) := ResolveAll(table, names[..n]);
    var (t2, sid) := FindOrCreate(t, names[n]);
    var links := base[id].specialtyIds;
    assert names[..n + 1][..n] == names[..n] && names[..n + 1][n] == names[n];
    assert ResolveAll(table, names[..n + 1]) == (t2, ids + [sid]);
    assert (ids + [sid])[..|ids|] == ids;
    assert LinkAll(links, ids + [sid]) == Link(LinkAll(links, ids), sid);
    var row := base[id].(specialtyIds := LinkAll(links, ids));
    assert base[id := row][id := row.(specialtyIds := Link(row.specialtyIds, sid))]
        == base[id := base[id].(specialtyIds := LinkAll(links, ids + [sid]))];
  }

  /** The inner loop: find or create each specialty by name and connect
      it to the row `id`. */
  method ConnectSpecialties(db: Db, id: string, names: seq<string>)
    requires db.Valid() && id in db.doctors
    modifies db`doctors, db`specialties
    ensures db.Valid()
    ensures Tables(db.doctors, db.specialties) == PartSeeded(old(db.doctors), id, old(db.specialties), names, |names|)
  {
    ghost var base := db.doctors;
    assert base[id := base[id].(specialtyIds := base[id].specialtyIds)] == base;
    var i := 0;
    while i < |names|
      invariant 0 <= i <= |names|
      invariant db.Valid()
      invariant Tables(db.doctors, db.specialties) == PartSeeded(base, id, old(db.specialties), names, i)
    {
      PartSeededStep(base, id, old(db.specialties), names, i);
      var specialty := db.FindOrCreateSpecialty(names[i]);
      var ok := db.ConnectSpecialty(id, specialty);
      i := i + 1;
    }
  }

  /** The doctor loop for one doctor, on the database: the row is
      upserted, then its specialties are connected to the row the upsert
      returns. */
  method SeedDoctor(db: Db, doc: Doctor)
    requires db.Valid()
    modifies db`doctors, db`specialties
    ensures db.Valid()
    ensures Tables(db.doctors, db.specialties) == DoctorSeeded(Tables(old(db.doctors), old(db.specialties)), doc)
  {
    var created := db.UpsertDoctor(NewDoctorRow(doc, []));
    ConnectSpecialties(db, created.id, doc.specialties);
    assert doc.specialties[..|doc.specialties|] == doc.specialties;
  }

  /** `for (const doc of initialDoctors)`. */
  method SeedDoctors(db: Db, docs: seq<Doctor>)
    requires db.Valid()
    modifies db`doctors, db`specialties
    ensures db.Valid()
    ensures Tables(db.doctors, db.specialties) == DoctorsSeeded(Tables(old(db.doctors), old(db.specialties)), docs)
  {
    var i := 0;
    while i < |docs|
      invariant 0 <= i <= |docs|
      invariant db.Valid()
      invariant Tables(db.doctors, db.specialties) == DoctorsSeeded(Tables(old(db.doctors), old(db.specialties)), docs[..i])
    {
      assert docs[..i + 1][..i] == docs[..i];
      SeedDoctor(db, docs[i]);
      i := i + 1;
    }
    assert docs[..i] == docs;
  }

  /** `for (const dept of departments)`: upsert each department. */
  method SeedDepartments(db: Db, depts: seq<Department>)
    modifies db`departments
    ensures db.departments == UpsertAll(old(db.departments), DepartmentKey, depts)
  {
    var i := 0;
    while i < |depts|
      invariant 0 <= i <= |depts|
      invariant db.departments == UpsertAll(old(db.departments), DepartmentKey, depts[..i])
    {
      assert depts[..i + 1] == depts[..i] + [depts[i]];
      UpsertAllSnoc(old(db.departments), DepartmentKey, depts[..i], depts[i]);
      db.UpsertDepartment(depts[i]);
      i := i + 1;
    }
    assert depts[..i] == depts;
  }

  // ---- schedules ----

  /** The table `t` once the first `k` sessions of one doctor's day have
      been upserted. */
  function SessionsSeeded(t: map<string, Schedule>, doctorId: string, p: nat, date: Instant, today: Instant, draw: Draws, k: nat): map<string, Schedule>
    requires k <= SlotCount()
  {
    UpsertAll(t, ScheduleKey, Schedules(doctorId, today, DayOffers(p, date.day, draw, k)))
  }

  /** One iteration of the session loop: the draw decides whether the
      `k`-th session is upserted and with how many patients
      (`Math.floor(Math.random() * 5)`). `t` is the table before the loop. */
  method SeedSession(db: Db, doctorId: string, p: nat, currentDate: Instant, today: Instant, draw: Draws, k: nat, ghost t: map<string, Schedule>)
    requires currentDate.ms == today.ms && k < SlotCount()
    requires db.schedules == SessionsSeeded(t, doctorId, p, currentDate, today, draw, k)
    modifies db`schedules
    ensures db.schedules == SessionsSeeded(t, doctorId, p, currentDate, today, draw, k + 1)
  {
    var slot := SlotAt(k);
    ghost var done := Schedules(doctorId, today, DayOffers(p, currentDate.day, draw, k));
    match draw(p, currentDate.day, slot) {
      case Skip =>
        assert DayOffers(p, currentDate.day, draw, k + 1) == DayOffers(p, currentDate.day, draw, k);
      case Take(c) =>
        var o := Offer(currentDate.day, slot, c);
        var s := Schedule(SlotId(doctorId, DateStamp(currentDate.day), slot), doctorId, currentDate,
                          slot, SlotStart(slot), SlotEnd(slot), Capacity, c, true);
        assert s == OfferSchedule(doctorId, today, o);
        assert DayOffers(p, currentDate.day, draw, k + 1) == DayOffers(p, currentDate.day, draw, k) + [o];
        SchedulesSnoc(doctorId, today, DayOffers(p, currentDate.day, draw, k), o);
        UpsertAllSnoc(t, ScheduleKey, done, s);
        db.UpsertSchedule(s);
    }
  }

  /** The table `t` once all sessions of one doctor's day have been
      upserted. */
  function DaySeeded(t: map<string, Schedule>, doctorId: string, p: nat, date: Instant, today: Instant, draw: Draws): map<string, Schedule>
  {
    SessionsSeeded(t, doctorId, p, date, today, draw, SlotCount())
  }

  lemma DaySeededAt(t: map<string, Schedule>, doctorId: string, p: nat, date: Instant, today: Instant, draw: Draws, k: nat)
    requires k == SlotCount()
    ensures SessionsSeeded(t, doctorId, p, date, today, draw, k) == DaySeeded(t, doctorId, p, date, today, draw)
  {
  }

  /** The session loop for one doctor on one working day. */
  method SeedSessions(db: Db, doctorId: string, p: nat, currentDate: Instant, today: Instant, draw: Draws)
    requires currentDate.ms == today.ms
    modifies db`schedules
    ensures db.schedules == DaySeeded(old(db.schedules), doctorId, p, currentDate, today, draw)
  {
    assert Schedules(doctorId, today, DayOffers(p, currentDate.day, draw, 0)) == [];
    var k := 0;
    while k < SlotCount()
      invariant 0 <= k <= SlotCount()
      invariant db.schedules == SessionsSeeded(old(db.schedules), doctorId, p, currentDate, today, draw, k)
    {
      SeedSession(db, doctorId, p, currentDate, today, draw, k, old(db.schedules));
      k := k + 1;
    }
    DaySeededAt(old(db.schedules), doctorId, p, currentDate, today, draw, k);
  }

  /** One iteration of the day loop: Sundays are skipped. */
  method SeedDay(db: Db, doctorId: string, p: nat, currentDate: Instant, today: Instant, draw: Draws)
    requires currentDate.ms == today.ms
    modifies db`schedules
    ensures db.schedules == UpsertAll(old(db.schedules), ScheduleKey, Schedules(doctorId, today, WorkDay(p, currentDate.day, draw)))
  {
    if Weekday(currentDate.day) == 0 {
      return;
    }
    SeedSessions(db, doctorId, p, currentDate, today, draw);
  }

  /** The table `t` once the first `n` days of one doctor have been
      upserted. */
  function DaysSeeded(t: map<string, Schedule>, doctorId: string, p: nat, today: Instant, draw: Draws, n: nat): map<string, Schedule>
  {
    UpsertAll(t, ScheduleKey, DaysScheduled(doctorId, p, today, draw, n))
  }

  lemma DaysSeededAt(t: map<string, Schedule>, doctorId: string, p: nat, today: Instant, draw: Draws, n: nat)
    requires n == HorizonDays
    ensures DaysSeeded(t, doctorId, p, today, draw, n) == UpsertAll(t, ScheduleKey, DoctorSchedules(doctorId, p, today, draw))
  {
  }

  /** One more day upserts that day's schedules. */
  lemma DaysSeededStep(t: map<string, Schedule>, doctorId: string, p: nat, today: Instant, draw: Draws, i: nat, date: Instant)
    requires date == AddDays(today, i)
    ensures DaysSeeded(t, doctorId, p, today, draw, i + 1) ==
      UpsertAll(DaysSeeded(t, doctorId, p, today, draw, i), ScheduleKey, Schedules(doctorId, today, WorkDay(p, date.day, draw)))
  {
    var prev := DaysScheduled(doctorId, p, today, draw, i);
    var day := Schedules(doctorId, today, WorkDay(p, date.day, draw));
    DaysScheduledStep(doctorId, p, today, draw, i);
    assert DaysScheduled(doctorId, p, today, draw, i + 1) == prev + day;
    UpsertAllConcat(t, ScheduleKey, prev, day);
  }

  /** One iteration of the day loop: `addDays(today, i)`, skipped on a
      Sunday. `t` is the table before the loop. */
  method SeedDayAt(db: Db, doctorId: string, p: nat, today: Instant, draw: Draws, i: nat, ghost t: map<string, Schedule>)
    requires db.schedules == DaysSeeded(t, doctorId, p, today, draw, i)
    modifies db`schedules
    ensures db.schedules == DaysSeeded(t, doctorId, p, today, draw, i + 1)
  {
    var currentDate := AddDays(today, i);
    DaysSeededStep(t, doctorId, p, today, draw, i, currentDate);
    SeedDay(db, doctorId, p, currentDate, today, draw);
  }

  /** The day loop for one doctor, over the two weeks. */
  method SeedDoctorSchedules(db: Db, doctorId: string, p: nat, today: Instant, draw: Draws)
    modifies db`schedules
    ensures db.schedules == UpsertAll(old(db.schedules), ScheduleKey, DoctorSchedules(doctorId, p, today, draw))
  {
    var i := 0;
    while i < HorizonDays
      invariant 0 <= i <= HorizonDays
      invariant db.schedules == DaysSeeded(old(db.schedules), doctorId, p, today, draw, i)
    {
      SeedDayAt(db, doctorId, p, today, draw, i, old(db.schedules));
      i := i + 1;
    }
    DaysSeededAt(old(db.schedules), doctorId, p, today, draw, i);
  }

  /** `for (const doctorId of doctorIds)`: the schedules of each doctor in
      turn, upserted. */
  method SeedSchedules(db: Db, doctorIds: seq<string>, today: Instant, draw: Draws)
    modifies db`schedules
    ensures db.schedules == UpsertAll(old(db.schedules), ScheduleKey, Generated(doctorIds, today, draw))
  {
    var p := 0;
    while p < |doctorIds|
      invariant 0 <= p <= |doctorIds|
      invariant db.schedules == UpsertAll(old(db.schedules), ScheduleKey, Generated(doctorIds[..p], today, draw))
    {
      assert doctorIds[..p + 1][..p] == doctorIds[..p];
      GeneratedSnoc(doctorIds[..p + 1], today, draw);
      UpsertAllConcat(old(db.schedules), ScheduleKey, Generated(doctorIds[..p], today, draw),
                      DoctorSchedules(doctorIds[p], p, today, draw));
      SeedDoctorSchedules(db, doctorIds[p], p, today, draw);
      p := p + 1;
    }
    assert doctorIds[..p] == doctorIds;
  }

  /** What the schedule upserts leave: every generated id is present, rows
      already there are untouched, and each new row has the generated shape
      with an initial count below `bound`, carries its own id and belongs to
      one of the doctors. When the doctor ids are distinct and the horizon
      ends before the year 10000, each generated schedule whose id was free
      is stored as generated. */
  lemma SeededSchedules(t: map<string, Schedule>, ids: seq<string>, today: Instant, draw: Draws, bound: nat)
    requires DrawsBelow(draw, bound)
    ensures var g := Generated(ids, today, draw);
      var r := UpsertAll(t, ScheduleKey, g);
      && (forall j :: 0 <= j < |g| ==> g[j].id in r)
      && (forall id :: id in t ==> id in r && r[id] == t[id])
      && (forall id :: id in r && id !in t ==> r[id].id == id && WellFormed(r[id], today, bound) && r[id].doctorId in ids)
      && (Distinct(ids) && CivilDate(today.day + HorizonDays - 1).year < 10000 ==>
            forall j :: 0 <= j < |g| && g[j].id !in t ==> r[g[j].id] == g[j])
  {
    var g := Generated(ids, today, draw);
    UpsertAllSpec(t, ScheduleKey, g);
    GeneratedWellFormed(ids, today, draw, bound);
    GeneratedDerived(ids, today, draw);
    if Distinct(ids) && CivilDate(today.day + HorizonDays - 1).year < 10000 {
      GeneratedUnique(ids, today, draw);
      UpsertAllFresh(t, ScheduleKey, g);
    }
  }

  // ---- the whole script ----

  /** After the department loop every department a demo doctor names has
      a row. */
  lemma DepartmentsSeeded(t: map<string, Department>)
    ensures forall k :: 0 <= k < |InitialDoctors()| ==> InitialDoctors()[k].department in UpsertAll(t, DepartmentKey, Departments())
  {
    UpsertAllSpec(t, DepartmentKey, Departments());
    InitialDepartmentsExist();
    DepartmentIdsSpec();
  }

  /** The three loops of `main` in order: departments, then doctors with
      their specialties, then the schedules of those doctors. */
  method SeedAll(db: Db, departments: seq<Department>, doctors: seq<Doctor>, today: Instant, draw: Draws)
    requires db.Valid()
    modifies db`departments, db`doctors, db`specialties, db`schedules
    ensures db.Valid()
    ensures db.departments == UpsertAll(old(db.departments), DepartmentKey, departments)
    ensures Tables(db.doctors, db.specialties) == DoctorsSeeded(Tables(old(db.doctors), old(db.specialties)), doctors)
    ensures db.schedules == UpsertAll(old(db.schedules), ScheduleKey, Generated(Ids(DoctorKey, doctors), today, draw))
  {
    SeedDepartments(db, departments);
    SeedDoctors(db, doctors);
    var doctorIds := Ids(DoctorKey, doctors);
    SeedSchedules(db, doctorIds, today, draw);
  }

  /** `main`, on the demo departments and doctors. */
  method Seed(db: Db, today: Instant, draw: Draws)
    requires db.Valid()
    modifies db`departments, db`doctors, db`specialties, db`schedules
    ensures db.Valid()
    ensures db.departments == UpsertAll(old(db.departments), DepartmentKey, Departments())
    ensures Tables(db.doctors, db.specialties) == DoctorsSeeded(Tables(old(db.doctors), old(db.specialties)), InitialDoctors())
    ensures db.schedules == UpsertAll(old(db.schedules), ScheduleKey, Generated(Ids(DoctorKey, InitialDoctors()), today, draw))
  {
    SeedAll(db, Departments(), InitialDoctors(), today, draw);
  }
}
