/** The five-step registration wizard: choose a department, a doctor and a
    session, fill in the patient's details, and book. The page's derived
    lists (the department's doctors, the doctor's upcoming sessions in date
    order) are functions of the store; the wizard's own state is a class. */
module Register {
  import opened Calendar
  import opened Types
  import opened Seqs
  import opened Store
  import opened Text

  /** The captions of the wizard's steps; the step index ranges over them. */
  const Steps: seq<string> := ["選擇科別", "選擇醫師", "選擇時間", "填寫資料", "完成掛號"]

  /** The index of the final ("booked") step. */
  function LastStep(): nat
  {
    |Steps| - 1
  }

  /** `nextStep`: one step forward, never past the last step. */
  function Next(p: int): (r: int)
    ensures r <= LastStep()
    ensures p < LastStep() ==> r == p + 1
    ensures p >= LastStep() ==> r == LastStep()
  {
    if p + 1 < LastStep() then p + 1 else LastStep()
  }

  /** `prevStep`: one step back, never before the first step. */
  function Prev(p: int): (r: int)
    ensures r >= 0
    ensures p > 0 ==> r == p - 1
    ensures p <= 0 ==> r == 0
  {
    if p - 1 > 0 then p - 1 else 0
  }

  /** A move of the wizard: `nextStep` (a card click or `handleRegister`)
      or `prevStep` (a back link). */
  datatype Move = Forward | Back

  function Apply(p: int, m: Move): int
  {
    match m
    case Forward => Next(p)
    case Back => Prev(p)
  }

  /** The step reached after a series of presses. */
  function Walk(p: int, moves: seq<Move>): int
    decreases |moves|
  {
    if moves == [] then p else Walk(Apply(p, moves[0]), moves[1..])
  }

  /** From any step in range, every series of presses stays in range. */
  lemma {:induction false} WalkInRange(p: int, moves: seq<Move>)
    requires 0 <= p <= LastStep()
    ensures 0 <= Walk(p, moves) <= LastStep()
    decreases |moves|
  {
    if moves != [] {
      WalkInRange(Apply(p, moves[0]), moves[1..]);
    }
  }

  /** Away from the ends, back undoes forward and forward undoes back; at the
      ends a press is absorbed. */
  lemma NextPrev(p: int)
    requires 0 <= p <= LastStep()
    ensures p < LastStep() ==> Prev(Next(p)) == p
    ensures p > 0 ==> Next(Prev(p)) == p
    ensures p == LastStep() ==> Next(p) == p
    ensures p == 0 ==> Prev(p) == p
  {
  }

  // ---- derived lists ----

  function InDepartment(dept: string): Doctor -> bool
  {
    (d: Doctor) => d.department == dept
  }

  /** `availableDoctors`: the doctors of the selected department, in store order. */
  function AvailableDoctors(doctors: seq<Doctor>, dept: string): (r: seq<Doctor>)
    ensures IsSubsequence(r, doctors)
    ensures forall d :: d in r <==> d in doctors && d.department == dept
  {
    FilterIsSubsequence(InDepartment(dept), doctors);
    Filter(InDepartment(dept), doctors)
  }

  /** The comparator's key: `new Date(s.date).getTime()`. */
  function Time(s: Schedule): nat
  {
    GetTime(s.date)
  }

  predicate SortedByTime(s: seq<Schedule>)
  {
    forall i, j :: 0 <= i < j < |s| ==> Time(s[i]) <= Time(s[j])
  }

  /** Puts `x` into a list sorted by time, after every entry not later than
      it, so that entries with equal times keep their order. */
  function InsertByTime(s: seq<Schedule>, x: Schedule): (r: seq<Schedule>)
    ensures multiset(r) == multiset(s) + multiset{x}
    ensures forall k :: 0 <= k < |r| ==> r[k] in s || r[k] == x
    decreases |s|
  {
    if s == [] then [x]
    else if Time(s[|s| - 1]) <= Time(x) then s + [x]
    else
      var init, last := s[..|s| - 1], s[|s| - 1];
      assert s == init + [last];
      InsertByTime(init, x) + [last]
  }

  /** Inserting into a sorted list keeps it sorted. */
  lemma {:induction false} InsertSorted(s: seq<Schedule>, x: Schedule)
    requires SortedByTime(s)
    ensures SortedByTime(InsertByTime(s, x))
    decreases |s|
  {
    if s != [] && Time(s[|s| - 1]) > Time(x) {
      var init, last := s[..|s| - 1], s[|s| - 1];
      assert SortedByTime(init);
      InsertSorted(init, x);
      var r0 := InsertByTime(init, x);
      var r := r0 + [last];
      assert r == InsertByTime(s, x);
      forall i, j | 0 <= i < j < |r|
        ensures Time(r[i]) <= Time(r[j])
      {
        if j == |r| - 1 {
          assert r[i] == r0[i];
          assert r0[i] in init || r0[i] == x;
          if r0[i] in init {
            var k :| 0 <= k < |init| && init[k] == r0[i];
            assert s[k] == init[k];
          }
        } else {
          assert r[i] == r0[i] && r[j] == r0[j];
        }
      }
    }
  }

  /** `sort((a, b) => time(a) - time(b))`: a stable sort by time. */
  function SortByTime(s: seq<Schedule>): (r: seq<Schedule>)
    ensures SortedByTime(r)
    ensures multiset(r) == multiset(s)
    decreases |s|
  {
    if s == [] then []
    else
      var init := s[..|s| - 1];
      assert s == init + [s[|s| - 1]];
      var sorted := SortByTime(init);
      InsertSorted(sorted, s[|s| - 1]);
      InsertByTime(sorted, s[|s| - 1])
  }

  /** Sorting a list that is already in time order leaves it as it is. */
  lemma {:induction false} SortSorted(s: seq<Schedule>)
    requires SortedByTime(s)
    ensures SortByTime(s) == s
    decreases |s|
  {
    if s != [] {
      var init, last := s[..|s| - 1], s[|s| - 1];
      assert s == init + [last];
      assert SortedByTime(init);
      SortSorted(init);
      if init != [] {
        assert Time(init[|init| - 1]) <= Time(last);
      }
      assert InsertByTime(init, last) == init + [last];
    }
  }

  /** `new Date(s.date) >= new Date()`. */
  function NotPast(now: Instant): Schedule -> bool
  {
    (s: Schedule) => Time(s) >= GetTime(now)
  }

  /** The doctor's sessions that have not started. */
  function OpenFor(doctorId: string, now: Instant): Schedule -> bool
  {
    (s: Schedule) => s.doctorId == doctorId && Time(s) >= GetTime(now)
  }

  /** `availableSchedules`: the selected doctor's sessions dated now or
      later, earliest first; nothing while no doctor is selected. */
  function AvailableSchedules(store: HospitalStore, selected: Option<Doctor>, now: Instant): (r: seq<Schedule>)
    reads store
    ensures selected.None? ==> r == []
    ensures SortedByTime(r)
    ensures selected.Some? ==> multiset(r) == multiset(Filter(OpenFor(selected.value.id, now), store.schedules))
  {
    match selected
    case None => []
    case Some(doctor) =>
      FilterFilter(DoctorIs(doctor.id), NotPast(now), OpenFor(doctor.id, now), store.schedules);
      SortByTime(Filter(NotPast(now), store.SchedulesByDoctor(doctor.id)))
  }

  /** A session is offered iff it is one of the selected doctor's and has
      not started. */
  lemma AvailableSchedulesIff(store: HospitalStore, doctor: Doctor, now: Instant, s: Schedule)
    ensures s in AvailableSchedules(store, Some(doctor), now) <==>
      s in store.schedules && s.doctorId == doctor.id && Time(s) >= GetTime(now)
  {
    var open := OpenFor(doctor.id, now);
    FilterIsSubsequence(open, store.schedules);
    var r := AvailableSchedules(store, Some(doctor), now);
    assert s in r <==> s in multiset(r);
    assert s in Filter(open, store.schedules) <==> s in multiset(Filter(open, store.schedules));
  }

  // ---- the session cards and the form ----

  const FullLabel: string := "額滿"
  const OpenLabel: string := "可預約"

  /** What a session card shows: its status label, and whether it is
      dimmed and ignores clicks. */
  datatype Card = Card(caption: string, disabled: bool)

  function SessionCard(s: Schedule): (c: Card)
    ensures c.disabled <==> s.currentPatients >= s.maxPatients
    ensures c.caption == FullLabel <==> c.disabled
    ensures c.caption == OpenLabel <==> !c.disabled
  {
    if IsFull(s) then Card(FullLabel, true) else Card(OpenLabel, false)
  }

  /** The patient form: every field starts empty; there is no e-mail field. */
  datatype PatientForm = PatientForm(name: string, idNumber: string, birthDate: string, phone: string)

  /** The submit button is enabled when name, id number and phone are filled in. */
  predicate SubmitEnabled(form: PatientForm)
  {
    form.name != "" && form.idNumber != "" && form.phone != ""
  }

  /** The guard of `handleRegister`: a session is chosen and a name given. */
  predicate WillBook(selected: Option<Schedule>, form: PatientForm)
  {
    selected.Some? && form.name != ""
  }

  /** With a session chosen, an enabled button always passes the handler's
      guard; the handler itself checks only the name, so the id number and
      phone are required by the button alone. */
  lemma SubmitEnabledBooks(selected: Option<Schedule>, form: PatientForm)
    requires selected.Some?
    ensures SubmitEnabled(form) ==> WillBook(selected, form)
    ensures WillBook(selected, form) <==> form.name != ""
  {
  }

  /** `toUpperCase()` on the Latin letters. */
  function UpperChar(c: char): (u: char)
    ensures !('a' <= u <= 'z')
    ensures 'A' <= c <= 'Z' ==> u == c
  {
    if 'a' <= c <= 'z' then (c as int - 32) as char else c
  }

  function Upper(s: string): (r: string)
    ensures |r| == |s|
    ensures forall k :: 0 <= k < |s| ==> r[k] == UpperChar(s[k])
  {
    seq(|s|, k requires 0 <= k < |s| => UpperChar(s[k]))
  }

  /** Upper-casing twice is upper-casing once, and leaves no lower-case letter. */
  lemma UpperIdempotent(s: string)
    ensures Upper(Upper(s)) == Upper(s)
    ensures forall k :: 0 <= k < |s| ==> !('a' <= Upper(s)[k] <= 'z')
  {
    var u := Upper(s);
    forall k | 0 <= k < |s|
      ensures Upper(u)[k] == u[k]
    {
      assert 'A' <= u[k] <= 'Z' || !('a' <= u[k] <= 'z');
    }
  }

  /** The appointment `handleRegister` books: id `apt-<Date.now()>`, the form
      as the patient, status Confirmed, created now. */
  function Booking(schedule: Schedule, form: PatientForm, now: Instant): (a: Appointment)
    ensures a.id == StampedId("apt-", GetTime(now))
    ensures a.scheduleId == schedule.id && a.status == Confirmed && a.createdAt == now
    ensures a.patient.name == form.name && a.patient.idNumber == form.idNumber
    ensures a.patient.birthDate == form.birthDate && a.patient.phone == form.phone
    ensures a.patient.email == None
  {
    Appointment(StampedId("apt-", GetTime(now)), schedule.id, Patient(form.name, form.idNumber, form.birthDate, form.phone, None), Confirmed, now)
  }

  /** The wizard's state. */
  class RegisterWizard {
    var currentStep: int
    var selectedDept: string
    var selectedDoctor: Option<Doctor>
    var selectedSchedule: Option<Schedule>
    var patientForm: PatientForm

    predicate Valid()
      reads this`currentStep
    {
      0 <= currentStep <= LastStep()
    }

    constructor ()
      ensures currentStep == 0 && selectedDept == ""
      ensures selectedDoctor == None && selectedSchedule == None
      ensures patientForm == PatientForm("", "", "", "")
      ensures Valid()
    {
      currentStep, selectedDept := 0, "";
      selectedDoctor, selectedSchedule := None, None;
      patientForm := PatientForm("", "", "", "");
    }

    method NextStep()
      requires Valid()
      modifies this`currentStep
      ensures currentStep == Next(old(currentStep))
      ensures Valid()
    {
      currentStep := if currentStep + 1 < LastStep() then currentStep + 1 else LastStep();
    }

    method PrevStep()
      requires Valid()
      modifies this`currentStep
      ensures currentStep == Prev(old(currentStep))
      ensures Valid()
    {
      currentStep := if currentStep - 1 > 0 then currentStep - 1 else 0;
    }

    /** Clicking a department card. */
    method ChooseDepartment(deptId: string)
      requires Valid()
      modifies this`selectedDept, this`currentStep
      ensures selectedDept == deptId && currentStep == Next(old(currentStep))
      ensures Valid()
    {
      selectedDept := deptId;
      NextStep();
    }

    /** Clicking a doctor card. */
    method ChooseDoctor(doctor: Doctor)
      requires Valid()
      modifies this`selectedDoctor, this`currentStep
      ensures selectedDoctor == Some(doctor) && currentStep == Next(old(currentStep))
      ensures Valid()
    {
      selectedDoctor := Some(doctor);
      NextStep();
    }

    /** Clicking a session card; a full session's card ignores the click. */
    method ChooseSchedule(s: Schedule)
      requires Valid()
      modifies this`selectedSchedule, this`currentStep
      ensures SessionCard(s).disabled ==> selectedSchedule == old(selectedSchedule) && currentStep == old(currentStep)
      ensures !SessionCard(s).disabled ==> selectedSchedule == Some(s) && currentStep == Next(old(currentStep))
      ensures Valid()
    {
      if !SessionCard(s).disabled {
        selectedSchedule := Some(s);
        NextStep();
      }
    }

    method SetName(v: string)
      modifies this`patientForm
      ensures patientForm == old(patientForm).(name := v)
    {
      patientForm := patientForm.(name := v);
    }

    /** The id number field upper-cases what is typed. */
    method SetIdNumber(v: string)
      modifies this`patientForm
      ensures patientForm == old(patientForm).(idNumber := Upper(v))
    {
      patientForm := patientForm.(idNumber := Upper(v));
    }

    method SetBirthDate(v: string)
      modifies this`patientForm
      ensures patientForm == old(patientForm).(birthDate := v)
    {
      patientForm := patientForm.(birthDate := v);
    }

    method SetPhone(v: string)
      modifies this`patientForm
      ensures patientForm == old(patientForm).(phone := v)
    {
      patientForm := patientForm.(phone := v);
    }

    /** `handleRegister`: without a chosen session or a name, nothing happens;
      otherwise one Confirmed appointment for the chosen session goes to the
      store (which counts it on that session) and the wizard moves on. `now`
      is the clock reading both `Date.now()` and `new Date()` take; `ok` is
      whether the store's server action succeeds. */
    method HandleRegister(store: HospitalStore, now: Instant, ok: bool)
      requires Valid()
      modifies this`currentStep, store`appointments, store`schedules
      ensures Valid()
      ensures !WillBook(old(selectedSchedule), old(patientForm)) ==>
        currentStep == old(currentStep) && store.appointments == old(store.appointments) && store.schedules == old(store.schedules)
      ensures WillBook(old(selectedSchedule), old(patientForm)) ==>
        && store.appointments == old(store.appointments) + [Booking(old(selectedSchedule).value, old(patientForm), now)]
        && store.schedules == Booked(old(store.schedules), old(selectedSchedule).value.id)
        && currentStep == Next(old(currentStep))
    {
      if selectedSchedule.None? || patientForm.name == "" {
        return;
      }
      store.AddAppointment(Booking(selectedSchedule.value, patientForm, now), ok);
      NextStep();
    }

    /** A click on 確認掛號: a disabled button does nothing; an enabled one
        runs `handleRegister`, which then always books the chosen session
        and steps forward. */
    method PressSubmit(store: HospitalStore, now: Instant, ok: bool)
      requires Valid()
      modifies this`currentStep, store`appointments, store`schedules
      ensures Valid()
      ensures !SubmitEnabled(old(patientForm)) || old(selectedSchedule).None? ==>
        currentStep == old(currentStep) && store.appointments == old(store.appointments) && store.schedules == old(store.schedules)
      ensures SubmitEnabled(old(patientForm)) && old(selectedSchedule).Some? ==>
        && store.appointments == old(store.appointments) + [Booking(old(selectedSchedule).value, old(patientForm), now)]
        && store.schedules == Booked(old(store.schedules), old(selectedSchedule).value.id)
        && currentStep == Next(old(currentStep))
    {
      if !SubmitEnabled(patientForm) {
        return;
      }
      if selectedSchedule.Some? {
        SubmitEnabledBooks(selectedSchedule, patientForm);
      }
      HandleRegister(store, now, ok);
    }
  }
}
