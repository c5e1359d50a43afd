/** The client-side store: in-memory copies of the four collections, each
    mutation applied at once and then made durable. `ok` says whether the
    durable call succeeded; on failure `addDoctor` and `addSchedule` filter
    the new id back out, `deleteDoctor` and `deleteSchedule` restore the
    snapshot taken before the removal, and `addAppointment` keeps both of
    its changes. */
module Store {
  import opened Calendar
  import opened Types
  import opened Seqs

  // ---- removing by id, for any record with an id ----

  /** `x => key(x) !== id`. */
  function KeyIsNot<T>(key: T -> string, id: string): T -> bool
  {
    x => key(x) != id
  }

  /** `xs.filter(x => x.id !== id)`. */
  function WithoutId<T>(key: T -> string, xs: seq<T>, id: string): seq<T>
  {
    Filter(KeyIsNot(key, id), xs)
  }

  /** Removing an id keeps the other entries in their order and drops
      every entry with that id. */
  lemma WithoutIdSpec<T>(key: T -> string, xs: seq<T>, id: string)
    ensures IsSubsequence(WithoutId(key, xs, id), xs)
    ensures forall x :: x in WithoutId(key, xs, id) <==> x in xs && key(x) != id
  {
    FilterIsSubsequence(KeyIsNot(key, id), xs);
  }

  /** Appending `x` and then filtering its id out is filtering the id out
      of what was there: a rollback also drops an entry that had the same id
      before. The result is the old sequence exactly when no old entry had
      that id. */
  lemma RollbackAppend<T>(key: T -> string, xs: seq<T>, x: T)
    ensures WithoutId(key, xs + [x], key(x)) == WithoutId(key, xs, key(x))
    ensures WithoutId(key, xs, key(x)) == xs <==> forall k :: 0 <= k < |xs| ==> key(xs[k]) != key(x)
  {
    var p := KeyIsNot(key, key(x));
    FilterConcat(p, xs, [x]);
    assert Filter(p, [x]) == [] by {
      assert [x][1..] == [];
    }
    assert xs + [] == xs;
    if forall k :: 0 <= k < |xs| ==> key(xs[k]) != key(x) {
      FilterKeepsAll(p, xs);
    }
    if WithoutId(key, xs, key(x)) == xs {
      WithoutIdSpec(key, xs, key(x));
      forall k | 0 <= k < |xs| ensures key(xs[k]) != key(x) {
        assert xs[k] in WithoutId(key, xs, key(x));
      }
    }
  }

  /** The ids of `xs`, in order. */
  function Ids<T>(key: T -> string, xs: seq<T>): (r: seq<string>)
    ensures |r| == |xs|
    ensures forall k :: 0 <= k < |xs| ==> r[k] == key(xs[k])
  {
    seq(|xs|, k requires 0 <= k < |xs| => key(xs[k]))
  }

  /** The id of each record is among the ids. */
  lemma IdsMember<T>(key: T -> string, xs: seq<T>, x: T)
    requires x in xs
    ensures key(x) in Ids(key, xs)
  {
    var k :| 0 <= k < |xs| && xs[k] == x;
    assert Ids(key, xs)[k] == key(x);
  }

  /** Each of the ids is the id of a record. */
  lemma IdsFrom<T>(key: T -> string, xs: seq<T>, id: string) returns (x: T)
    requires id in Ids(key, xs)
    ensures x in xs && key(x) == id
  {
    var k :| 0 <= k < |xs| && Ids(key, xs)[k] == id;
    x := xs[k];
  }

  /** `x => !ids.includes(key(x))`. */
  function KeyNotIn<T>(key: T -> string, ids: seq<string>): T -> bool
  {
    x => key(x) !in ids
  }

  /** What is left after removing each id of `ids` in turn. */
  function WithoutIds<T>(key: T -> string, xs: seq<T>, ids: seq<string>): seq<T>
  {
    Filter(KeyNotIn(key, ids), xs)
  }

  /** Removing one more id after a batch is removing the longer batch. */
  lemma WithoutIdsSnoc<T>(key: T -> string, xs: seq<T>, ids: seq<string>, id: string)
    ensures WithoutId(key, WithoutIds(key, xs, ids), id) == WithoutIds(key, xs, ids + [id])
  {
    FilterFilter(KeyNotIn(key, ids), KeyIsNot(key, id), KeyNotIn(key, ids + [id]), xs);
  }

  /** The same, with the ids taken from records. */
  lemma WithoutIdsAppend<T>(key: T -> string, xs: seq<T>, ys: seq<T>, y: T)
    ensures WithoutId(key, WithoutIds(key, xs, Ids(key, ys)), key(y)) == WithoutIds(key, xs, Ids(key, ys + [y]))
  {
    WithoutIdsSnoc(key, xs, Ids(key, ys), key(y));
    assert Ids(key, ys) + [key(y)] == Ids(key, ys + [y]);
  }

  lemma WithoutNoIds<T>(key: T -> string, xs: seq<T>)
    ensures WithoutIds(key, xs, []) == xs
  {
    FilterKeepsAll(KeyNotIn(key, []), xs);
  }

  function DoctorKey(d: Doctor): string { d.id }

  function ScheduleKey(s: Schedule): string { s.id }

  // ---- updateDoctor and the optimistic booking count ----

  /** `doctors.map(d => d.id === doctor.id ? doctor : d)`. */
  function ReplaceDoctor(ds: seq<Doctor>, doctor: Doctor): (r: seq<Doctor>)
    ensures |r| == |ds|
    ensures forall k :: 0 <= k < |ds| ==> (ds[k].id == doctor.id ==> r[k] == doctor) && (ds[k].id != doctor.id ==> r[k] == ds[k])
  {
    seq(|ds|, k requires 0 <= k < |ds| => if ds[k].id == doctor.id then doctor else ds[k])
  }

  /** `schedules.map(s => s.id === scheduleId ? { ...s, currentPatients: s.currentPatients + 1 } : s)`. */
  function Booked(ss: seq<Schedule>, scheduleId: string): (r: seq<Schedule>)
    ensures |r| == |ss|
    ensures forall k :: 0 <= k < |ss| ==> r[k] == if ss[k].id == scheduleId then Incremented(ss[k]) else ss[k]
  {
    seq(|ss|, k requires 0 <= k < |ss| => if ss[k].id == scheduleId then Incremented(ss[k]) else ss[k])
  }

  /** Every schedule holds `0 <= currentPatients <= maxPatients`. */
  predicate WithinCapacity(ss: seq<Schedule>)
  {
    forall k :: 0 <= k < |ss| ==> 0 <= ss[k].currentPatients <= ss[k].maxPatients
  }

  /** The optimistic count keeps every schedule within capacity exactly
      when no schedule with the booked id is already full: nothing in the
      store checks capacity. */
  lemma BookedCapacity(ss: seq<Schedule>, scheduleId: string)
    requires WithinCapacity(ss)
    ensures WithinCapacity(Booked(ss, scheduleId)) <==> forall k :: 0 <= k < |ss| && ss[k].id == scheduleId ==> !IsFull(ss[k])
  {
    var r := Booked(ss, scheduleId);
    if WithinCapacity(r) {
      forall k | 0 <= k < |ss| && ss[k].id == scheduleId ensures !IsFull(ss[k]) {
        assert r[k].currentPatients <= r[k].maxPatients;
      }
    }
  }

  // ---- queries ----

  function DoctorIs(doctorId: string): Schedule -> bool
  {
    (s: Schedule) => s.doctorId == doctorId
  }

  /** `getDate()`, `getMonth()` and `getFullYear()` of the schedule's date
      equal those of `date`. */
  function OnDayOf(date: Instant): Schedule -> bool
  {
    (s: Schedule) => SameCalendarDay(s.date, date)
  }

  /** Same calendar day means same day index. */
  lemma OnDayOfIff(date: Instant)
    ensures forall s: Schedule :: OnDayOf(date)(s) <==> s.date.day == date.day
  {
    forall s: Schedule ensures OnDayOf(date)(s) <==> s.date.day == date.day {
      SameCalendarDayIff(s.date, date);
    }
  }

  /** The store. `ok` on each mutation is whether the server action it
      awaits resolved (true) or threw (false). */
  class HospitalStore {
    var doctors: seq<Doctor>
    var schedules: seq<Schedule>
    var departments: seq<Department>
    var appointments: seq<Appointment>

    /** The store once the initial fetch has filled it. */
    constructor (doctors0: seq<Doctor>, departments0: seq<Department>, schedules0: seq<Schedule>, appointments0: seq<Appointment>)
      ensures doctors == doctors0 && departments == departments0
      ensures schedules == schedules0 && appointments == appointments0
    {
      doctors, departments := doctors0, departments0;
      schedules, appointments := schedules0, appointments0;
    }

    /** Appends the doctor; if the action fails, removes every doctor with
      the new doctor's id, including one that was there before. */
    method AddDoctor(doctor: Doctor, ok: bool)
      modifies this`doctors
      ensures ok ==> doctors == old(doctors) + [doctor]
      ensures !ok ==> doctors == WithoutId(DoctorKey, old(doctors), doctor.id)
    {
      doctors := doctors + [doctor];
      if !ok {
        RollbackAppend(DoctorKey, old(doctors), doctor);
        doctors := WithoutId(DoctorKey, doctors, doctor.id);
      }
    }

    /** Replaces the doctors with a matching id; there is no server call. */
    method UpdateDoctor(doctor: Doctor)
      modifies this`doctors
      ensures doctors == ReplaceDoctor(old(doctors), doctor)
    {
      doctors := ReplaceDoctor(doctors, doctor);
    }

    /** Removes the doctors with that id; if the action fails, restores
      the snapshot. */
    method DeleteDoctor(id: string, ok: bool)
      modifies this`doctors
      ensures doctors == if ok then WithoutId(DoctorKey, old(doctors), id) else old(doctors)
    {
      var prevDoctors := doctors;
      doctors := WithoutId(DoctorKey, doctors, id);
      if !ok {
        doctors := prevDoctors;
      }
    }

    method AddSchedule(schedule: Schedule, ok: bool)
      modifies this`schedules
      ensures ok ==> schedules == old(schedules) + [schedule]
      ensures !ok ==> schedules == WithoutId(ScheduleKey, old(schedules), schedule.id)
    {
      schedules := schedules + [schedule];
      if !ok {
        RollbackAppend(ScheduleKey, old(schedules), schedule);
        schedules := WithoutId(ScheduleKey, schedules, schedule.id);
      }
    }

    method DeleteSchedule(id: string, ok: bool)
      modifies this`schedules
      ensures schedules == if ok then WithoutId(ScheduleKey, old(schedules), id) else old(schedules)
    {
      var prevSchedules := schedules;
      schedules := WithoutId(ScheduleKey, schedules, id);
      if !ok {
        schedules := prevSchedules;
      }
    }

    /** Appends the appointment and counts it on the schedules with its
      `scheduleId`; neither change is undone when the action fails. */
    method AddAppointment(appointment: Appointment, ok: bool)
      modifies this`appointments, this`schedules
      ensures appointments == old(appointments) + [appointment]
      ensures schedules == Booked(old(schedules), appointment.scheduleId)
    {
      appointments := appointments + [appointment];
      schedules := Booked(schedules, appointment.scheduleId);
    }

    /** `getSchedulesByDoctor`: the doctor's schedules, in store order. */
    function SchedulesByDoctor(doctorId: string): (r: seq<Schedule>)
      reads this
      ensures IsSubsequence(r, schedules)
      ensures forall s :: s in r <==> s in schedules && s.doctorId == doctorId
    {
      FilterIsSubsequence(DoctorIs(doctorId), schedules);
      Filter(DoctorIs(doctorId), schedules)
    }

    /** `getSchedulesByDate`: the schedules on the same calendar day, in
      store order. */
    function SchedulesByDate(date: Instant): (r: seq<Schedule>)
      reads this
      ensures IsSubsequence(r, schedules)
      ensures forall s :: s in r <==> s in schedules && s.date.day == date.day
    {
      FilterIsSubsequence(OnDayOf(date), schedules);
      OnDayOfIff(date);
      Filter(OnDayOf(date), schedules)
    }
  }
}
