/** The admin schedule editor: a per-day form with one row per session,
    filled from the schedules a doctor already has that day, and a save
    that replaces those schedules with one per active row. */
module ScheduleEditor {
  import opened Calendar
  import opened Types
  import opened Seqs
  import opened SlotIds
  import opened Store

  /** One session's row of the form. */
  datatype SlotForm = SlotForm(active: bool, max: int, start: string, end: string)

  /** The whole form: one row per session. */
  datatype SlotsForm = SlotsForm(morning: SlotForm, afternoon: SlotForm, evening: SlotForm)
  {
    function Get(t: TimeSlot): SlotForm
    {
      match t
      case Morning => morning
      case Afternoon => afternoon
      case Evening => evening
    }

    /** `newSlots[t] = f`. */
    function Set(t: TimeSlot, f: SlotForm): (r: SlotsForm)
      ensures r.Get(t) == f
      ensures forall u :: u != t ==> r.Get(u) == Get(u)
    {
      match t
      case Morning => this.(morning := f)
      case Afternoon => this.(afternoon := f)
      case Evening => this.(evening := f)
    }
  }

  /** A session's row before anything is loaded: inactive, 30 patients, the
      session's canonical hours. */
  function DefaultSlot(t: TimeSlot): SlotForm
  {
    SlotForm(false, 30, SlotStart(t), SlotEnd(t))
  }

  function Defaults(): (f: SlotsForm)
    ensures forall t :: f.Get(t) == DefaultSlot(t)
  {
    SlotsForm(DefaultSlot(Morning), DefaultSlot(Afternoon), DefaultSlot(Evening))
  }

  /** The row loaded from an existing schedule. */
  function FormOf(s: Schedule): SlotForm
  {
    SlotForm(true, s.maxPatients, s.startTime, s.endTime)
  }

  /** The schedule belongs to that doctor and lies on that calendar day. */
  predicate OnDoctorDay(s: Schedule, docId: string, date: Instant)
  {
    s.doctorId == docId && SameCalendarDay(s.date, date)
  }

  function DoctorDayIs(docId: string, date: Instant): Schedule -> bool
  {
    (s: Schedule) => OnDoctorDay(s, docId, date)
  }

  /** The last schedule of session `t` in `ss`. */
  function LastOfSlot(ss: seq<Schedule>, t: TimeSlot): (r: Option<Schedule>)
    decreases |ss|
  {
    if ss == [] then None
    else if ss[|ss| - 1].timeSlot == t then Some(ss[|ss| - 1])
    else LastOfSlot(ss[..|ss| - 1], t)
  }

  lemma {:induction false} LastOfSlotSpec(ss: seq<Schedule>, t: TimeSlot)
    ensures LastOfSlot(ss, t).Some? ==> LastOfSlot(ss, t).value in ss && LastOfSlot(ss, t).value.timeSlot == t
    ensures LastOfSlot(ss, t).None? <==> forall k :: 0 <= k < |ss| ==> ss[k].timeSlot != t
    decreases |ss|
  {
    if ss != [] && ss[|ss| - 1].timeSlot != t {
      var init := ss[..|ss| - 1];
      LastOfSlotSpec(init, t);
      assert forall k :: 0 <= k < |init| ==> init[k] == ss[k];
    }
  }

  /** The row the load leaves for session `t`: the last of `existing` in
      that session overwrites the default. */
  function LoadedSlot(existing: seq<Schedule>, t: TimeSlot): SlotForm
  {
    match LastOfSlot(existing, t)
    case None => DefaultSlot(t)
    case Some(s) => FormOf(s)
  }

  /** The form `updateFormFromSchedule(date, docId)` sets. */
  function LoadedForm(schedules: seq<Schedule>, date: Option<Instant>, docId: string): SlotsForm
  {
    if date.None? || docId == "" then Defaults()
    else
      var existing := Filter(DoctorDayIs(docId, date.value), schedules);
      SlotsForm(LoadedSlot(existing, Morning), LoadedSlot(existing, Afternoon), LoadedSlot(existing, Evening))
  }

  /** Without a doctor or a date the form is the defaults. Otherwise a row
      is active exactly when the doctor has a schedule of that session on
      that calendar day, and then holds that schedule's capacity and hours;
      every other row keeps its defaults. */
  lemma LoadedFormSpec(schedules: seq<Schedule>, date: Option<Instant>, docId: string, t: TimeSlot)
    ensures date.None? || docId == "" ==> LoadedForm(schedules, date, docId) == Defaults()
    ensures LoadedForm(schedules, date, docId).Get(t).active <==>
      date.Some? && docId != "" && exists s :: s in schedules && OnDoctorDay(s, docId, date.value) && s.timeSlot == t
    ensures !LoadedForm(schedules, date, docId).Get(t).active ==> LoadedForm(schedules, date, docId).Get(t) == DefaultSlot(t)
    ensures LoadedForm(schedules, date, docId).Get(t).active ==>
      exists s :: s in schedules && OnDoctorDay(s, docId, date.value) && s.timeSlot == t && LoadedForm(schedules, date, docId).Get(t) == FormOf(s)
  {
    if date.Some? && docId != "" {
      var p := DoctorDayIs(docId, date.value);
      var existing := Filter(p, schedules);
      FilterIsSubsequence(p, schedules);
      LastOfSlotSpec(existing, t);
      var f := LoadedForm(schedules, date, docId);
      assert f.Get(t) == LoadedSlot(existing, t);
      if exists s :: s in schedules && OnDoctorDay(s, docId, date.value) && s.timeSlot == t {
        var s :| s in schedules && OnDoctorDay(s, docId, date.value) && s.timeSlot == t;
        assert s in existing;
        var k :| 0 <= k < |existing| && existing[k] == s;
      }
    }
  }

  /** `updateFormFromSchedule`: starts from the defaults and, for each of the
      doctor's schedules on that day, overwrites its session's row. */
  method UpdateFormFromSchedule(schedules: seq<Schedule>, date: Option<Instant>, docId: string) returns (newSlots: SlotsForm)
    ensures newSlots == LoadedForm(schedules, date, docId)
  {
    newSlots := Defaults();
    if date.None? || docId == "" {
      return;
    }
    var existing := Filter(DoctorDayIs(docId, date.value), schedules);
    var i := 0;
    while i < |existing|
      invariant 0 <= i <= |existing|
      invariant forall t :: newSlots.Get(t) == LoadedSlot(existing[..i], t)
    {
      var s := existing[i];
      newSlots := newSlots.Set(s.timeSlot, FormOf(s));
      assert existing[..i + 1][..i] == existing[..i];
      i := i + 1;
    }
    assert existing[..i] == existing;
    assert newSlots.morning == newSlots.Get(Morning);
    assert newSlots.afternoon == newSlots.Get(Afternoon);
    assert newSlots.evening == newSlots.Get(Evening);
  }

  // ---- saving ----

  /** The schedule saved for an active row. */
  function NewSchedule(docId: string, date: Instant, t: TimeSlot, data: SlotForm): Schedule
  {
    Schedule(ScheduleId(docId, date.day, t), docId, date, t, data.start, data.end, data.max, 0, true)
  }

  /** The schedules saved for the first `k` sessions, in session order. */
  function NewSchedules(docId: string, date: Instant, slots: SlotsForm, k: nat): seq<Schedule>
    requires k <= SlotCount()
    decreases k
  {
    if k == 0 then []
    else
      NewSchedules(docId, date, slots, k - 1) +
      if slots.Get(SlotAt(k - 1)).active then [NewSchedule(docId, date, SlotAt(k - 1), slots.Get(SlotAt(k - 1)))] else []
  }

  /** The first `k` sessions save at most `k` schedules, each for an
      active row among them, built from that row. */
  lemma {:induction false} NewSchedulesShape(docId: string, date: Instant, slots: SlotsForm, k: nat)
    requires k <= SlotCount()
    ensures |NewSchedules(docId, date, slots, k)| <= k
    ensures forall j :: 0 <= j < |NewSchedules(docId, date, slots, k)| ==>
      var s := NewSchedules(docId, date, slots, k)[j];
      && SlotIndex(s.timeSlot) < k && slots.Get(s.timeSlot).active
      && s == NewSchedule(docId, date, s.timeSlot, slots.Get(s.timeSlot))
    decreases k
  {
    if k > 0 {
      NewSchedulesShape(docId, date, slots, k - 1);
      var prev := NewSchedules(docId, date, slots, k - 1);
      var t := SlotAt(k - 1);
      if slots.Get(t).active {
        var all := NewSchedules(docId, date, slots, k);
        assert all == prev + [NewSchedule(docId, date, t, slots.Get(t))];
        forall j | 0 <= j < |all|
          ensures SlotIndex(all[j].timeSlot) < k && slots.Get(all[j].timeSlot).active
          ensures all[j] == NewSchedule(docId, date, all[j].timeSlot, slots.Get(all[j].timeSlot))
        {
          if j < |prev| {
            assert all[j] == prev[j];
          }
        }
      } else {
        assert NewSchedules(docId, date, slots, k) == prev + [];
      }
    }
  }

  /** No session is saved twice. */
  lemma {:induction false} NewSchedulesDistinct(docId: string, date: Instant, slots: SlotsForm, k: nat)
    requires k <= SlotCount()
    ensures forall i, j :: 0 <= i < j < |NewSchedules(docId, date, slots, k)| ==>
      NewSchedules(docId, date, slots, k)[i].timeSlot != NewSchedules(docId, date, slots, k)[j].timeSlot
    decreases k
  {
    if k > 0 {
      NewSchedulesDistinct(docId, date, slots, k - 1);
      NewSchedulesShape(docId, date, slots, k - 1);
      var prev := NewSchedules(docId, date, slots, k - 1);
      var t := SlotAt(k - 1);
      if slots.Get(t).active {
        var all := NewSchedules(docId, date, slots, k);
        assert all == prev + [NewSchedule(docId, date, t, slots.Get(t))];
        forall i, j | 0 <= i < j < |all| ensures all[i].timeSlot != all[j].timeSlot {
          assert all[i] == prev[i];
          if j == |prev| {
            assert SlotIndex(prev[i].timeSlot) < k - 1;
          } else {
            assert all[j] == prev[j];
          }
        }
      } else {
        assert NewSchedules(docId, date, slots, k) == prev + [];
      }
    }
  }

  /** Each active row among the first `k` sessions is saved. */
  lemma {:induction false} NewSchedulesComplete(docId: string, date: Instant, slots: SlotsForm, k: nat, t: TimeSlot)
    requires k <= SlotCount() && SlotIndex(t) < k && slots.Get(t).active
    ensures NewSchedule(docId, date, t, slots.Get(t)) in NewSchedules(docId, date, slots, k)
    decreases k
  {
    var prev := NewSchedules(docId, date, slots, k - 1);
    var last := SlotAt(k - 1);
    var extra := if slots.Get(last).active then [NewSchedule(docId, date, last, slots.Get(last))] else [];
    assert NewSchedules(docId, date, slots, k) == prev + extra;
    if SlotIndex(t) < k - 1 {
      NewSchedulesComplete(docId, date, slots, k - 1, t);
    } else {
      assert last == t;
      assert extra[0] == NewSchedule(docId, date, t, slots.Get(t));
    }
  }

  /** One saved schedule per active row and none for an inactive one, each
      with the derived id, no patients yet and available. */
  lemma NewSchedulesSpec(docId: string, date: Instant, slots: SlotsForm, k: nat)
    requires k <= SlotCount()
    ensures |NewSchedules(docId, date, slots, k)| <= k
    ensures forall j :: 0 <= j < |NewSchedules(docId, date, slots, k)| ==>
      var s := NewSchedules(docId, date, slots, k)[j];
      && SlotIndex(s.timeSlot) < k && slots.Get(s.timeSlot).active
      && s == NewSchedule(docId, date, s.timeSlot, slots.Get(s.timeSlot))
    ensures forall i, j :: 0 <= i < j < |NewSchedules(docId, date, slots, k)| ==>
      NewSchedules(docId, date, slots, k)[i].timeSlot != NewSchedules(docId, date, slots, k)[j].timeSlot
    ensures forall t :: SlotIndex(t) < k && slots.Get(t).active ==>
      NewSchedule(docId, date, t, slots.Get(t)) in NewSchedules(docId, date, slots, k)
  {
    NewSchedulesShape(docId, date, slots, k);
    NewSchedulesDistinct(docId, date, slots, k);
    forall t | SlotIndex(t) < k && slots.Get(t).active
      ensures NewSchedule(docId, date, t, slots.Get(t)) in NewSchedules(docId, date, slots, k)
    {
      NewSchedulesComplete(docId, date, slots, k, t);
    }
  }

  /** Every saved schedule is on that doctor's day. */
  lemma NewSchedulesOnDay(docId: string, date: Instant, slots: SlotsForm)
    ensures forall j :: 0 <= j < |NewSchedules(docId, date, slots, SlotCount())| ==>
      OnDoctorDay(NewSchedules(docId, date, slots, SlotCount())[j], docId, date)
  {
    NewSchedulesShape(docId, date, slots, SlotCount());
  }

  /** Each schedule's id is derived from its doctor, day and session, on a
      day before the year 10000. */
  predicate WellIdentified(ss: seq<Schedule>)
  {
    forall k :: 0 <= k < |ss| ==>
      ss[k].id == ScheduleId(ss[k].doctorId, ss[k].date.day, ss[k].timeSlot) && CivilDate(ss[k].date.day).year < 10000
  }

  /** A schedule of a well-identified sequence has a derived id. */
  lemma WellIdentifiedMember(ss: seq<Schedule>, s: Schedule)
    requires WellIdentified(ss) && s in ss
    ensures s.id == ScheduleId(s.doctorId, s.date.day, s.timeSlot) && CivilDate(s.date.day).year < 10000
  {
    var k :| 0 <= k < |ss| && ss[k] == s;
  }

  /** With derived ids, a schedule's id is among the ids of the doctor's
      schedules on the day exactly when it is one of them. */
  lemma DayIdIff(ss: seq<Schedule>, docId: string, date: Instant, s: Schedule)
    requires WellIdentified(ss) && s in ss
    ensures s.id in Ids(ScheduleKey, Filter(DoctorDayIs(docId, date), ss)) <==> OnDoctorDay(s, docId, date)
  {
    var existing := Filter(DoctorDayIs(docId, date), ss);
    FilterIsSubsequence(DoctorDayIs(docId, date), ss);
    if OnDoctorDay(s, docId, date) {
      IdsMember(ScheduleKey, existing, s);
    } else if s.id in Ids(ScheduleKey, existing) {
      var e := IdsFrom(ScheduleKey, existing, s.id);
      WellIdentifiedMember(ss, s);
      WellIdentifiedMember(ss, e);
      ScheduleIdInjective(s.doctorId, s.date.day, s.timeSlot, e.doctorId, e.date.day, e.timeSlot);
      SameCalendarDayIff(s.date, date);
      SameCalendarDayIff(e.date, date);
      assert false;
    }
  }

  /** With derived ids, removing the ids of a doctor's schedules on a day
      removes exactly that doctor's schedules on that day: no other
      doctor's or day's schedule shares one of those ids. */
  lemma RemovingDayIds(ss: seq<Schedule>, docId: string, date: Instant)
    requires WellIdentified(ss)
    ensures WithoutIds(ScheduleKey, ss, Ids(ScheduleKey, Filter(DoctorDayIs(docId, date), ss))) ==
            Filter((s: Schedule) => !OnDoctorDay(s, docId, date), ss)
  {
    var ids := Ids(ScheduleKey, Filter(DoctorDayIs(docId, date), ss));
    forall k | 0 <= k < |ss|
      ensures KeyNotIn(ScheduleKey, ids)(ss[k]) == !OnDoctorDay(ss[k], docId, date)
    {
      DayIdIff(ss, docId, date, ss[k]);
    }
    FilterCongruent(KeyNotIn(ScheduleKey, ids), (s: Schedule) => !OnDoctorDay(s, docId, date), ss);
  }

  /** After a successful save the doctor's schedules on that day are exactly
      the new ones: at most three, one per session, and the schedules of
      other doctors and days are as they were, in their order. */
  lemma SavedDay(ss: seq<Schedule>, docId: string, date: Instant, slots: SlotsForm)
    requires WellIdentified(ss)
    ensures var after := WithoutIds(ScheduleKey, ss, Ids(ScheduleKey, Filter(DoctorDayIs(docId, date), ss))) + NewSchedules(docId, date, slots, SlotCount());
      && Filter(DoctorDayIs(docId, date), after) == NewSchedules(docId, date, slots, SlotCount())
      && Filter((s: Schedule) => !OnDoctorDay(s, docId, date), after) == Filter((s: Schedule) => !OnDoctorDay(s, docId, date), ss)
  {
    var p := DoctorDayIs(docId, date);
    var q := (s: Schedule) => !OnDoctorDay(s, docId, date);
    var news := NewSchedules(docId, date, slots, SlotCount());
    RemovingDayIds(ss, docId, date);
    var kept := Filter(q, ss);
    NewSchedulesOnDay(docId, date, slots);
    FilterConcat(p, kept, news);
    FilterConcat(q, kept, news);
    FilterFilter(q, p, (s: Schedule) => false, ss);
    FilterDropsAll((s: Schedule) => false, ss);
    FilterFilter(q, q, q, ss);
    FilterKeepsAll(p, news);
    FilterDropsAll(q, news);
  }

  /** Deleting the next id of the batch extends the deleted prefix. */
  lemma DeletedStep(xs: seq<Schedule>, ids: seq<string>, i: nat)
    requires i < |ids|
    ensures WithoutId(ScheduleKey, WithoutIds(ScheduleKey, xs, ids[..i]), ids[i]) == WithoutIds(ScheduleKey, xs, ids[..i + 1])
  {
    WithoutIdsSnoc(ScheduleKey, xs, ids[..i], ids[i]);
    assert ids[..i] + [ids[i]] == ids[..i + 1];
  }

  /** `existing.forEach(s => deleteSchedule(s.id))`, one call after another. */
  method DeleteEach(store: HospitalStore, ids: seq<string>, ok: bool)
    modifies store`schedules
    ensures store.schedules == if ok then WithoutIds(ScheduleKey, old(store.schedules), ids) else old(store.schedules)
  {
    ghost var start := store.schedules;
    WithoutNoIds(ScheduleKey, start);
    assert ids[..0] == [];
    for i: nat := 0 to |ids|
      invariant ok ==> store.schedules == WithoutIds(ScheduleKey, start, ids[..i])
      invariant !ok ==> store.schedules == start
    {
      if ok {
        DeletedStep(start, ids, i);
      }
      store.DeleteSchedule(ids[i], ok);
    }
    assert ids[..|ids|] == ids;
  }

  /** An active row extends the saved schedules by its own; both what is
      appended and what a rollback removes grow by that schedule. */
  lemma AddedStep(xs: seq<Schedule>, docId: string, date: Instant, slots: SlotsForm, k: nat, s: Schedule)
    requires k < SlotCount() && slots.Get(SlotAt(k)).active
    requires s == NewSchedule(docId, date, SlotAt(k), slots.Get(SlotAt(k)))
    ensures xs + NewSchedules(docId, date, slots, k + 1) == (xs + NewSchedules(docId, date, slots, k)) + [s]
    ensures WithoutIds(ScheduleKey, xs, Ids(ScheduleKey, NewSchedules(docId, date, slots, k + 1))) ==
      WithoutId(ScheduleKey, WithoutIds(ScheduleKey, xs, Ids(ScheduleKey, NewSchedules(docId, date, slots, k))), s.id)
  {
    var before := NewSchedules(docId, date, slots, k);
    assert NewSchedules(docId, date, slots, k + 1) == before + [s];
    assert xs + (before + [s]) == (xs + before) + [s];
    WithoutIdsAppend(ScheduleKey, xs, before, s);
  }

  /** An inactive row saves nothing. */
  lemma SkippedStep(docId: string, date: Instant, slots: SlotsForm, k: nat)
    requires k < SlotCount() && !slots.Get(SlotAt(k)).active
    ensures NewSchedules(docId, date, slots, k + 1) == NewSchedules(docId, date, slots, k)
  {
    assert NewSchedules(docId, date, slots, k + 1) == NewSchedules(docId, date, slots, k) + [];
  }

  /** The `Object.entries(slots)` loop: `addSchedule` for each active row,
      in session order. A failed add filters its id back out. */
  method AddActiveRows(store: HospitalStore, docId: string, date: Instant, slots: SlotsForm, ok: bool)
    modifies store`schedules
    ensures store.schedules == if ok then old(store.schedules) + NewSchedules(docId, date, slots, SlotCount())
                               else WithoutIds(ScheduleKey, old(store.schedules), Ids(ScheduleKey, NewSchedules(docId, date, slots, SlotCount())))
  {
    ghost var start := store.schedules;
    WithoutNoIds(ScheduleKey, start);
    assert start + [] == start;
    for k: nat := 0 to SlotCount()
      invariant ok ==> store.schedules == start + NewSchedules(docId, date, slots, k)
      invariant !ok ==> store.schedules == WithoutIds(ScheduleKey, start, Ids(ScheduleKey, NewSchedules(docId, date, slots, k)))
    {
      var t := SlotAt(k);
      var data := slots.Get(t);
      if data.active {
        var s := NewSchedule(docId, date, t, data);
        AddedStep(start, docId, date, slots, k, s);
        store.AddSchedule(s, ok);
      } else {
        SkippedStep(docId, date, slots, k);
      }
    }
  }

  /** The admin schedule page's state. */
  class SchedulePage {
    var selectedDoctorId: string
    var selectedDate: Option<Instant>
    var slots: SlotsForm

    /** Opens on today with no doctor selected and the default form. */
    constructor (today: Instant)
      ensures selectedDoctorId == "" && selectedDate == Some(today) && slots == Defaults()
    {
      selectedDoctorId, selectedDate, slots := "", Some(today), Defaults();
    }

    /** `handleDateSelect`: reloads the form when a date and a doctor are set. */
    method HandleDateSelect(store: HospitalStore, date: Option<Instant>)
      modifies this
      ensures selectedDate == date && selectedDoctorId == old(selectedDoctorId)
      ensures slots == if date.Some? && selectedDoctorId != "" then LoadedForm(store.schedules, date, selectedDoctorId) else old(slots)
    {
      selectedDate := date;
      if date.Some? && selectedDoctorId != "" {
        slots := UpdateFormFromSchedule(store.schedules, date, selectedDoctorId);
      }
    }

    /** `handleDoctorSelect`: reloads the form when a date and a doctor are set. */
    method HandleDoctorSelect(store: HospitalStore, docId: string)
      modifies this
      ensures selectedDoctorId == docId && selectedDate == old(selectedDate)
      ensures slots == if selectedDate.Some? && docId != "" then LoadedForm(store.schedules, selectedDate, docId) else old(slots)
    {
      selectedDoctorId := docId;
      if selectedDate.Some? && docId != "" {
        slots := UpdateFormFromSchedule(store.schedules, selectedDate, docId);
      }
    }

    /** `handleSave`: deletes the doctor's schedules on the selected day,
      then adds one per active row. `deletesOk` is the outcome of every
      delete call it makes, `addsOk` that of every add call. */
    method HandleSave(store: HospitalStore, deletesOk: bool, addsOk: bool)
      modifies store`schedules
      ensures selectedDate.None? || selectedDoctorId == "" ==> store.schedules == old(store.schedules)
      ensures selectedDate.Some? && selectedDoctorId != "" ==>
        var existing := Filter(DoctorDayIs(selectedDoctorId, selectedDate.value), old(store.schedules));
        var news := NewSchedules(selectedDoctorId, selectedDate.value, slots, SlotCount());
        var cleared := if deletesOk then WithoutIds(ScheduleKey, old(store.schedules), Ids(ScheduleKey, existing))
                       else old(store.schedules);
        store.schedules == if addsOk then cleared + news else WithoutIds(ScheduleKey, cleared, Ids(ScheduleKey, news))
    {
      if selectedDate.None? || selectedDoctorId == "" {
        return;
      }
      var date := selectedDate.value;
      var existing := Filter(DoctorDayIs(selectedDoctorId, date), store.schedules);
      DeleteEach(store, Ids(ScheduleKey, existing), deletesOk);
      AddActiveRows(store, selectedDoctorId, date, slots, addsOk);
    }
  }
}
