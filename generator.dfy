/** The demo schedule generator shared by the seed script and the mock data:
    for each doctor, each of the 14 days from today except Sundays, and each
    of the three sessions, a random draw decides whether the session is
    offered and how many patients it starts with. */
module Generator {
  import opened Calendar
  import opened Types
  import opened SlotIds

  const HorizonDays: nat := 14
  const Capacity: int := 30

  /** One random draw: `Math.random() > 0.4` failed (Skip), or passed and a
      second draw gave the initial patient count. */
  datatype Draw = Skip | Take(count: nat)

  /** The random draws, indexed by doctor position, day index and session. */
  type Draws = (nat, nat, TimeSlot) -> Draw

  /** Every initial count drawn lies in [0, bound). */
  ghost predicate DrawsBelow(draw: Draws, bound: nat)
  {
    forall d, day, t :: draw(d, day, t).Take? ==> draw(d, day, t).count < bound
  }

  /** What one successful draw decides: the day (as a day index), the session
      and the initial number of patients. */
  datatype Offer = Offer(day: nat, slot: TimeSlot, count: nat)

  /** Sundays (`getDay() === 0`) are skipped. */
  predicate IsSunday(day: nat)
  {
    Weekday(day) == 0
  }

  /** The offers the draws make for the first `k` sessions of `day`. */
  function DayOffers(d: nat, day: nat, draw: Draws, k: nat): seq<Offer>
    requires k <= SlotCount()
    decreases k
  {
    if k == 0 then []
    else
      DayOffers(d, day, draw, k - 1) +
      match draw(d, day, SlotAt(k - 1))
      case Skip => []
      case Take(c) => [Offer(day, SlotAt(k - 1), c)]
  }

  /** The offers of one day: none on a Sunday. */
  function WorkDay(d: nat, day: nat, draw: Draws): seq<Offer>
  {
    if IsSunday(day) then [] else DayOffers(d, day, draw, SlotCount())
  }

  /** The offers the draws make for doctor `d` over the `n` days from `start`
      (`addDays(today, i)` for `i` in [0, n)). */
  function DoctorOffers(d: nat, start: nat, draw: Draws, n: nat): seq<Offer>
  {
    OverDays(DayFn(d, draw), start, n)
  }

  /** One more day adds that day's offers. */
  lemma DoctorOffersStep(d: nat, start: nat, draw: Draws, n: nat)
    ensures DoctorOffers(d, start, draw, n + 1) == DoctorOffers(d, start, draw, n) + WorkDay(d, start + n, draw)
  {
    assert start + (n + 1 - 1) == start + n;
  }

  /** Doctor `d`'s offers, day by day. */
  function DayFn(d: nat, draw: Draws): nat -> seq<Offer>
  {
    (day: nat) => WorkDay(d, day, draw)
  }

  /** The offers of the `n` days from `start`, one day after the other, where
      `f` gives each day's offers. */
  function OverDays(f: nat -> seq<Offer>, start: nat, n: nat): seq<Offer>
    decreases n
  {
    if n == 0 then [] else OverDays(f, start, n - 1) + f(start + (n - 1))
  }

  /** The loop position of an offer: days in order, sessions in order within a day. */
  function Key(o: Offer): nat
  {
    3 * o.day + SlotIndex(o.slot)
  }

  /** The draw for the offer's day and session is what made it. */
  predicate Drawn(o: Offer, d: nat, draw: Draws)
  {
    draw(d, o.day, o.slot) == Take(o.count)
  }

  /** The offers come in strictly increasing loop position. */
  predicate Sorted(os: seq<Offer>)
  {
    forall a, b :: 0 <= a < b < |os| ==> KeyAt(os, a) < KeyAt(os, b)
  }

  /** The loop position of the offer at index `i`. */
  function KeyAt(os: seq<Offer>, i: nat): nat
    requires i < |os|
  {
    Key(os[i])
  }

  /** Two sorted runs, the first ending before the second starts, are sorted together. */
  lemma SortedConcat(xs: seq<Offer>, ys: seq<Offer>)
    requires Sorted(xs) && Sorted(ys)
    requires |xs| > 0 && |ys| > 0 ==> Key(xs[|xs| - 1]) < Key(ys[0])
    ensures Sorted(xs + ys)
  {
    var zs := xs + ys;
    forall a, b | 0 <= a < b < |zs|
      ensures KeyAt(zs, a) < KeyAt(zs, b)
    {
      if b < |xs| {
        assert KeyAt(xs, a) < KeyAt(xs, b);
        assert zs[a] == xs[a] && zs[b] == xs[b];
      } else if a >= |xs| {
        assert KeyAt(ys, a - |xs|) < KeyAt(ys, b - |xs|);
        assert zs[a] == ys[a - |xs|] && zs[b] == ys[b - |xs|];
      } else {
        assert zs[a] == xs[a] && zs[b] == ys[b - |xs|];
        assert a < |xs| - 1 ==> KeyAt(xs, a) < KeyAt(xs, |xs| - 1);
        assert 0 < b - |xs| ==> KeyAt(ys, 0) < KeyAt(ys, b - |xs|);
      }
    }
  }

  // ---- one day ----

  lemma {:induction false} DayOffersShape(d: nat, day: nat, draw: Draws, k: nat)
    requires k <= SlotCount()
    ensures |DayOffers(d, day, draw, k)| <= k
    ensures forall j :: 0 <= j < |DayOffers(d, day, draw, k)| ==>
      DayOffers(d, day, draw, k)[j].day == day && SlotIndex(DayOffers(d, day, draw, k)[j].slot) < k &&
      Drawn(DayOffers(d, day, draw, k)[j], d, draw)
    decreases k
  {
    if k > 0 {
      DayOffersShape(d, day, draw, k - 1);
      var prev := DayOffers(d, day, draw, k - 1);
      var t := SlotAt(k - 1);
      match draw(d, day, t)
      case Skip =>
        assert DayOffers(d, day, draw, k) == prev;
      case Take(c) =>
        var all := DayOffers(d, day, draw, k);
        assert all == prev + [Offer(day, t, c)];
    }
  }

  /** A session the draws take on `day` is offered that day, at position `j`. */
  lemma {:induction false} DayOffersComplete(d: nat, day: nat, draw: Draws, k: nat, t: TimeSlot) returns (j: nat)
    requires k <= SlotCount() && SlotIndex(t) < k && draw(d, day, t).Take?
    ensures j < |DayOffers(d, day, draw, k)| && DayOffers(d, day, draw, k)[j] == Offer(day, t, draw(d, day, t).count)
    decreases k
  {
    var prev := DayOffers(d, day, draw, k - 1);
    if SlotIndex(t) < k - 1 {
      j := DayOffersComplete(d, day, draw, k - 1, t);
      assert DayOffers(d, day, draw, k)[j] == prev[j];
    } else {
      j := |prev|;
    }
  }

  /** What one day offers: at most three offers, none on a Sunday, each of
      that day and made by its draw. */
  lemma WorkDayShape(d: nat, day: nat, draw: Draws)
    ensures |WorkDay(d, day, draw)| <= 3
    ensures IsSunday(day) ==> |WorkDay(d, day, draw)| == 0
    ensures forall j :: 0 <= j < |WorkDay(d, day, draw)| ==>
      WorkDay(d, day, draw)[j].day == day && !IsSunday(day) && Drawn(WorkDay(d, day, draw)[j], d, draw)
  {
    if !IsSunday(day) {
      DayOffersShape(d, day, draw, SlotCount());
    }
  }

  lemma {:induction false} DayOffersSorted(d: nat, day: nat, draw: Draws, k: nat)
    requires k <= SlotCount()
    ensures Sorted(DayOffers(d, day, draw, k))
    decreases k
  {
    if k > 0 {
      DayOffersSorted(d, day, draw, k - 1);
      DayOffersShape(d, day, draw, k - 1);
      var prev := DayOffers(d, day, draw, k - 1);
      var t := SlotAt(k - 1);
      if draw(d, day, t).Take? {
        var o := Offer(day, t, draw(d, day, t).count);
        assert DayOffers(d, day, draw, k) == prev + [o];
        SortedConcat(prev, [o]);
      }
    }
  }

  /** One day's offers come in session order. */
  lemma WorkDaySorted(d: nat, day: nat, draw: Draws)
    ensures Sorted(WorkDay(d, day, draw))
  {
    if !IsSunday(day) {
      DayOffersSorted(d, day, draw, SlotCount());
    }
  }

  /** Exactly the successful draws of a working day are offered that day. */
  lemma WorkDayMembers(d: nat, day: nat, draw: Draws)
    ensures forall o :: o in WorkDay(d, day, draw) <==> o.day == day && !IsSunday(day) && Drawn(o, d, draw)
  {
    WorkDayShape(d, day, draw);
    forall o: Offer | o.day == day && !IsSunday(day) && Drawn(o, d, draw)
      ensures o in WorkDay(d, day, draw)
    {
      var j := DayOffersComplete(d, day, draw, SlotCount(), o.slot);
      assert WorkDay(d, day, draw)[j] == o;
    }
  }

  // ---- one doctor ----

  /** Each day offers only offers of that day. */
  ghost predicate Aligned(f: nat -> seq<Offer>)
  {
    forall day, o :: o in f(day) ==> o.day == day
  }

  /** An offer is among the days' offers exactly when its day lies in the
      window and that day offers it. */
  lemma {:induction false} OverDaysMembers(f: nat -> seq<Offer>, start: nat, n: nat)
    requires Aligned(f)
    ensures forall o :: o in OverDays(f, start, n) <==> start <= o.day < start + n && o in f(o.day)
    decreases n
  {
    if n > 0 {
      OverDaysMembers(f, start, n - 1);
      var prev, last := OverDays(f, start, n - 1), f(start + (n - 1));
      assert OverDays(f, start, n) == prev + last;
      forall o: Offer
        ensures o in prev + last <==> start <= o.day < start + n && o in f(o.day)
      {
        if o in last {
          assert o.day == start + (n - 1);
        }
      }
    }
  }

  /** Days whose offers come in order, each day's after the previous day's,
      give offers in order. */
  lemma {:induction false} OverDaysSorted(f: nat -> seq<Offer>, start: nat, n: nat)
    requires Aligned(f)
    requires forall day :: Sorted(f(day))
    ensures Sorted(OverDays(f, start, n))
    decreases n
  {
    if n > 0 {
      var prev, last := OverDays(f, start, n - 1), f(start + (n - 1));
      OverDaysSorted(f, start, n - 1);
      assert Sorted(last);
      if |prev| > 0 && |last| > 0 {
        OverDaysMembers(f, start, n - 1);
        assert prev[|prev| - 1] in prev;
        assert last[0] in last;
        assert Key(prev[|prev| - 1]) < 3 * (start + (n - 1)) <= Key(last[0]);
      }
      SortedConcat(prev, last);
    }
  }

  /** Days offering at most three offers, none on a Sunday, give at most
      three offers per working day. */
  lemma {:induction false} OverDaysCount(f: nat -> seq<Offer>, start: nat, n: nat)
    requires forall day :: |f(day)| <= if IsSunday(day) then 0 else 3
    ensures |OverDays(f, start, n)| <= 3 * WorkingDays(start, n)
    decreases n
  {
    if n > 0 {
      OverDaysCount(f, start, n - 1);
      assert |f(start + (n - 1))| <= if IsSunday(start + (n - 1)) then 0 else 3;
    }
  }

  /** An offer of doctor `d` made on a working day of the `n` days from `start`. */
  predicate InWindow(o: Offer, d: nat, start: nat, n: nat, draw: Draws)
  {
    start <= o.day < start + n && !IsSunday(o.day) && Drawn(o, d, draw)
  }

  /** Doctor `d` is offered exactly the successful draws on the working days
      of the window. */
  lemma DoctorOffersMembers(d: nat, start: nat, draw: Draws, n: nat)
    ensures forall o :: o in DoctorOffers(d, start, draw, n) <==> InWindow(o, d, start, n, draw)
  {
    var f := DayFn(d, draw);
    forall day
      ensures forall o :: o in f(day) <==> o.day == day && !IsSunday(day) && Drawn(o, d, draw)
    {
      WorkDayMembers(d, day, draw);
    }
    OverDaysMembers(f, start, n);
  }

  /** The offers come in loop order: by day, then by session. */
  lemma DoctorOffersSorted(d: nat, start: nat, draw: Draws, n: nat)
    ensures Sorted(DoctorOffers(d, start, draw, n))
  {
    var f := DayFn(d, draw);
    forall day
      ensures Sorted(f(day)) && forall o :: o in f(day) ==> o.day == day
    {
      WorkDaySorted(d, day, draw);
      WorkDayMembers(d, day, draw);
    }
    OverDaysSorted(f, start, n);
  }

  /** The number of days in [start, start + n) that are not Sundays. */
  function WorkingDays(start: nat, n: nat): nat
    decreases n
  {
    if n == 0 then 0 else WorkingDays(start, n - 1) + (if IsSunday(start + (n - 1)) then 0 else 1)
  }

  lemma {:induction false} WorkingDaysSplit(start: nat, a: nat, b: nat)
    ensures WorkingDays(start, a + b) == WorkingDays(start, a) + WorkingDays(start + a, b)
    decreases b
  {
    if b > 0 {
      WorkingDaysSplit(start, a, b - 1);
    }
  }

  /** The first week, 1970-01-01 (a Thursday) to 1970-01-07, has one Sunday. */
  lemma FirstWeekHasOneSunday()
    ensures WorkingDays(0, 7) == 6
  {
    assert Weekday(3) == 0;
    assert WorkingDays(0, 3) == 3;
    assert WorkingDays(0, 4) == 3;
  }

  /** Moving a week's window by one day drops one day and adds the same
      weekday a week later. */
  lemma WeekShift(start: nat)
    ensures WorkingDays(start + 1, 7) == WorkingDays(start, 7)
  {
    WorkingDaysSplit(start, 1, 6);
    assert Weekday(start + 7) == Weekday(start);
  }

  /** Every seven consecutive days hold exactly one Sunday. */
  lemma {:induction false} WeekHasOneSunday(start: nat)
    ensures WorkingDays(start, 7) == 6
    decreases start
  {
    if start == 0 {
      FirstWeekHasOneSunday();
    } else {
      WeekHasOneSunday(start - 1);
      WeekShift(start - 1);
    }
  }

  /** The 14-day horizon always has 12 working days. */
  lemma HorizonWorkingDays(start: nat)
    ensures WorkingDays(start, HorizonDays) == 12
  {
    WorkingDaysSplit(start, 7, 7);
    WeekHasOneSunday(start);
    WeekHasOneSunday(start + 7);
  }

  /** At most three sessions per working day are offered. */
  lemma DoctorOffersCount(d: nat, start: nat, draw: Draws, n: nat)
    ensures |DoctorOffers(d, start, draw, n)| <= 3 * WorkingDays(start, n)
  {
    var f := DayFn(d, draw);
    forall day
      ensures |f(day)| <= if IsSunday(day) then 0 else 3
    {
      WorkDayShape(d, day, draw);
    }
    OverDaysCount(f, start, n);
  }

  // ---- from offers to schedules ----

  /** The schedule `{ id, doctorId, date, timeSlot, startTime, endTime,
      maxPatients: 30, currentPatients, isAvailable: true }` built for an
      offer; its date is `addDays(today, i)`, the offer's day at today's time. */
  function OfferSchedule(doctorId: string, today: Instant, o: Offer): Schedule
  {
    Schedule(ScheduleId(doctorId, o.day, o.slot), doctorId, Instant(o.day, today.ms), o.slot,
             SlotStart(o.slot), SlotEnd(o.slot), Capacity, o.count, true)
  }

  /** The schedules built for a sequence of offers, in the same order. */
  function Schedules(doctorId: string, today: Instant, os: seq<Offer>): (r: seq<Schedule>)
    ensures |r| == |os|
  {
    MapOffers(ScheduleFn(doctorId, today), os)
  }

  /** The schedule built for each offer of a doctor. */
  function ScheduleFn(doctorId: string, today: Instant): Offer -> Schedule
  {
    o => OfferSchedule(doctorId, today, o)
  }

  /** `f` applied to each offer, in order. */
  function MapOffers(f: Offer -> Schedule, os: seq<Offer>): (r: seq<Schedule>)
    ensures |r| == |os|
  {
    seq(|os|, k requires 0 <= k < |os| => f(os[k]))
  }

  lemma MapOffersConcat(f: Offer -> Schedule, xs: seq<Offer>, ys: seq<Offer>)
    ensures MapOffers(f, xs + ys) == MapOffers(f, xs) + MapOffers(f, ys)
  {
    var whole, front, back := MapOffers(f, xs + ys), MapOffers(f, xs), MapOffers(f, ys);
    forall k | 0 <= k < |whole|
      ensures whole[k] == (front + back)[k]
    {
      if k < |xs| {
        assert (xs + ys)[k] == xs[k];
      } else {
        assert (xs + ys)[k] == ys[k - |xs|];
      }
    }
  }

  lemma SchedulesSnoc(doctorId: string, today: Instant, os: seq<Offer>, o: Offer)
    ensures Schedules(doctorId, today, os + [o]) == Schedules(doctorId, today, os) + [OfferSchedule(doctorId, today, o)]
  {
    assert (os + [o])[..|os|] == os;
  }

  /** The schedule built for an offer is among those built for offers holding it. */
  lemma SchedulesMember(doctorId: string, today: Instant, os: seq<Offer>, o: Offer)
    requires o in os
    ensures OfferSchedule(doctorId, today, o) in Schedules(doctorId, today, os)
  {
    var k :| 0 <= k < |os| && os[k] == o;
    assert Schedules(doctorId, today, os)[k] == OfferSchedule(doctorId, today, o);
  }

  /** Every schedule built for a sequence of offers is built for one of them. */
  lemma SchedulesFrom(doctorId: string, today: Instant, os: seq<Offer>, s: Schedule) returns (o: Offer)
    requires s in Schedules(doctorId, today, os)
    ensures o in os && s == OfferSchedule(doctorId, today, o)
  {
    var k :| 0 <= k < |os| && Schedules(doctorId, today, os)[k] == s;
    o := os[k];
  }

  lemma SchedulesConcat(doctorId: string, today: Instant, xs: seq<Offer>, ys: seq<Offer>)
    ensures Schedules(doctorId, today, xs + ys) == Schedules(doctorId, today, xs) + Schedules(doctorId, today, ys)
  {
    MapOffersConcat(ScheduleFn(doctorId, today), xs, ys);
  }

  /** What is generated for one doctor (the `d`-th) over the first `n` days. */
  function DaysScheduled(doctorId: string, d: nat, today: Instant, draw: Draws, n: nat): seq<Schedule>
  {
    Schedules(doctorId, today, DoctorOffers(d, today.day, draw, n))
  }

  /** One more day adds that day's schedules. */
  lemma DaysScheduledStep(doctorId: string, d: nat, today: Instant, draw: Draws, i: nat)
    ensures DaysScheduled(doctorId, d, today, draw, i + 1) ==
      DaysScheduled(doctorId, d, today, draw, i) + Schedules(doctorId, today, WorkDay(d, today.day + i, draw))
  {
    DoctorOffersStep(d, today.day, draw, i);
    SchedulesConcat(doctorId, today, DoctorOffers(d, today.day, draw, i), WorkDay(d, today.day + i, draw));
  }

  /** Everything generated for one doctor (the `d`-th) over the horizon. */
  function DoctorSchedules(doctorId: string, d: nat, today: Instant, draw: Draws): seq<Schedule>
  {
    DaysScheduled(doctorId, d, today, draw, HorizonDays)
  }

  /** Everything generated for the doctors `ids`, in loop order. */
  function Generated(ids: seq<string>, today: Instant, draw: Draws): seq<Schedule>
    decreases |ids|
  {
    if ids == [] then []
    else Generated(ids[..|ids| - 1], today, draw) + DoctorSchedules(ids[|ids| - 1], |ids| - 1, today, draw)
  }

  /** The id is built from the schedule's own doctor, day and session, and
      the day lies in the horizon. */
  predicate Derived(s: Schedule, today: Instant)
  {
    && today.day <= s.date.day < today.day + HorizonDays
    && s.id == ScheduleId(s.doctorId, s.date.day, s.timeSlot)
  }

  /** The shape every generated schedule has, with initial counts below `bound`. */
  predicate WellFormed(s: Schedule, today: Instant, bound: nat)
  {
    && Derived(s, today)
    && s.date.ms == today.ms
    && !IsSunday(s.date.day)
    && s.startTime == SlotStart(s.timeSlot)
    && s.endTime == SlotEnd(s.timeSlot)
    && s.maxPatients == Capacity
    && 0 <= s.currentPatients < bound
    && s.isAvailable
  }

  /** Each of a doctor's schedules belongs to that doctor, lies in the
      horizon with a derived id, and is what the draw for its day and session
      made. */
  lemma DoctorSchedulesDerived(doctorId: string, d: nat, today: Instant, draw: Draws)
    ensures forall s :: s in DoctorSchedules(doctorId, d, today, draw) ==>
      && s.doctorId == doctorId && Derived(s, today)
      && draw(d, s.date.day, s.timeSlot) == Take(s.currentPatients)
  {
    var os := DoctorOffers(d, today.day, draw, HorizonDays);
    DoctorOffersMembers(d, today.day, draw, HorizonDays);
    forall s | s in DoctorSchedules(doctorId, d, today, draw)
      ensures s.doctorId == doctorId && Derived(s, today) && draw(d, s.date.day, s.timeSlot) == Take(s.currentPatients)
    {
      var o := SchedulesFrom(doctorId, today, os, s);
    }
  }

  /** Each of a doctor's schedules has the generated shape. */
  lemma DoctorSchedulesShape(doctorId: string, d: nat, today: Instant, draw: Draws, bound: nat)
    requires DrawsBelow(draw, bound)
    ensures forall s :: s in DoctorSchedules(doctorId, d, today, draw) ==> WellFormed(s, today, bound)
  {
    var os := DoctorOffers(d, today.day, draw, HorizonDays);
    DoctorOffersMembers(d, today.day, draw, HorizonDays);
    forall s | s in DoctorSchedules(doctorId, d, today, draw)
      ensures WellFormed(s, today, bound)
    {
      var o := SchedulesFrom(doctorId, today, os, s);
    }
  }

  /** Two schedules with derived ids share an id only if they share the
      doctor, the day and the session, while the horizon ends before the year
      10000. */
  lemma DerivedIdsDiffer(x: Schedule, y: Schedule, today: Instant)
    requires CivilDate(today.day + HorizonDays - 1).year < 10000
    requires Derived(x, today) && Derived(y, today)
    requires x.doctorId != y.doctorId || x.date.day != y.date.day || x.timeSlot != y.timeSlot
    ensures x.id != y.id
  {
    var last := today.day + HorizonDays - 1;
    YearMonotone(x.date.day, last);
    YearMonotone(y.date.day, last);
    var xid, yid := ScheduleId(x.doctorId, x.date.day, x.timeSlot), ScheduleId(y.doctorId, y.date.day, y.timeSlot);
    assert x.id == xid && y.id == yid;
    if xid == yid {
      ScheduleIdInjective(x.doctorId, x.date.day, x.timeSlot, y.doctorId, y.date.day, y.timeSlot);
    }
  }

  /** No two of a doctor's schedules share an id while the horizon ends
      before the year 10000. */
  lemma DoctorSchedulesUnique(doctorId: string, d: nat, today: Instant, draw: Draws)
    requires CivilDate(today.day + HorizonDays - 1).year < 10000
    ensures UniqueIds(DoctorSchedules(doctorId, d, today, draw))
  {
    var os := DoctorOffers(d, today.day, draw, HorizonDays);
    var ss := DoctorSchedules(doctorId, d, today, draw);
    DoctorOffersSorted(d, today.day, draw, HorizonDays);
    DoctorSchedulesDerived(doctorId, d, today, draw);
    forall a, b | 0 <= a < b < |ss|
      ensures ss[a].id != ss[b].id
    {
      assert ss[a] in ss && ss[b] in ss;
      assert KeyAt(os, a) < KeyAt(os, b);
      DerivedIdsDiffer(ss[a], ss[b], today);
    }
  }

  /** A doctor gets at most 36 schedules: three sessions on each of the 12
      working days of the horizon. */
  lemma DoctorSchedulesCount(doctorId: string, d: nat, today: Instant, draw: Draws)
    ensures |DoctorSchedules(doctorId, d, today, draw)| <= 36
  {
    DoctorOffersCount(d, today.day, draw, HorizonDays);
    HorizonWorkingDays(today.day);
  }

  /** No doctor id appears twice. */
  predicate Distinct(ids: seq<string>)
  {
    forall i, j :: 0 <= i < j < |ids| ==> ids[i] != ids[j]
  }

  lemma GeneratedSnoc(ids: seq<string>, today: Instant, draw: Draws)
    requires ids != []
    ensures Generated(ids, today, draw) ==
      Generated(ids[..|ids| - 1], today, draw) + DoctorSchedules(ids[|ids| - 1], |ids| - 1, today, draw)
  {
  }

  /** Generating for one more doctor appends that doctor's schedules. */
  lemma GeneratedStep(ids: seq<string>, p: nat, today: Instant, draw: Draws)
    requires p < |ids|
    ensures Generated(ids[..p + 1], today, draw) == Generated(ids[..p], today, draw) + DoctorSchedules(ids[p], p, today, draw)
  {
    var pre := ids[..p + 1];
    assert pre[..|pre| - 1] == ids[..p];
    GeneratedSnoc(pre, today, draw);
  }

  /** Every generated schedule belongs to one of the doctors and carries an
      id derived from its doctor, day and session. */
  lemma {:induction false} GeneratedDerived(ids: seq<string>, today: Instant, draw: Draws)
    ensures forall s :: s in Generated(ids, today, draw) ==> Derived(s, today) && s.doctorId in ids
    decreases |ids|
  {
    if ids != [] {
      var init := ids[..|ids| - 1];
      var prev := Generated(init, today, draw);
      var last := DoctorSchedules(ids[|ids| - 1], |ids| - 1, today, draw);
      GeneratedSnoc(ids, today, draw);
      GeneratedDerived(init, today, draw);
      DoctorSchedulesDerived(ids[|ids| - 1], |ids| - 1, today, draw);
      forall s | s in prev + last
        ensures Derived(s, today) && s.doctorId in ids
      {
        if s in prev {
          assert s.doctorId in init;
        }
      }
    }
  }

  /** Every generated schedule has the generated shape. */
  lemma {:induction false} GeneratedWellFormed(ids: seq<string>, today: Instant, draw: Draws, bound: nat)
    requires DrawsBelow(draw, bound)
    ensures forall s :: s in Generated(ids, today, draw) ==> WellFormed(s, today, bound)
    decreases |ids|
  {
    if ids != [] {
      var init := ids[..|ids| - 1];
      var prev := Generated(init, today, draw);
      var last := DoctorSchedules(ids[|ids| - 1], |ids| - 1, today, draw);
      GeneratedSnoc(ids, today, draw);
      GeneratedWellFormed(init, today, draw, bound);
      DoctorSchedulesShape(ids[|ids| - 1], |ids| - 1, today, draw, bound);
      forall s | s in prev + last
        ensures WellFormed(s, today, bound)
      {
        if s in prev {
          assert WellFormed(s, today, bound);
        }
      }
    }
  }

  /** Every session the draws take for the `d`-th doctor on a working day of
      the horizon is among that doctor's schedules. */
  lemma DoctorSchedulesComplete(doctorId: string, d: nat, today: Instant, draw: Draws, day: nat, t: TimeSlot)
    requires today.day <= day < today.day + HorizonDays && !IsSunday(day) && draw(d, day, t).Take?
    ensures OfferSchedule(doctorId, today, Offer(day, t, draw(d, day, t).count)) in DoctorSchedules(doctorId, d, today, draw)
  {
    var o := Offer(day, t, draw(d, day, t).count);
    DoctorOffersMembers(d, today.day, draw, HorizonDays);
    assert InWindow(o, d, today.day, HorizonDays, draw);
    SchedulesMember(doctorId, today, DoctorOffers(d, today.day, draw, HorizonDays), o);
  }

  /** Every session the draws take, for any doctor on any working day of the
      horizon, is generated. */
  lemma {:induction false} GeneratedComplete(ids: seq<string>, today: Instant, draw: Draws, p: nat, day: nat, t: TimeSlot)
    requires p < |ids| && today.day <= day < today.day + HorizonDays && !IsSunday(day) && draw(p, day, t).Take?
    ensures OfferSchedule(ids[p], today, Offer(day, t, draw(p, day, t).count)) in Generated(ids, today, draw)
    decreases |ids|
  {
    var init := ids[..|ids| - 1];
    GeneratedSnoc(ids, today, draw);
    if p < |ids| - 1 {
      GeneratedComplete(init, today, draw, p, day, t);
      assert init[p] == ids[p];
    } else {
      DoctorSchedulesComplete(ids[p], p, today, draw, day, t);
    }
  }

  /** Generated ids are unique when the doctor ids are, while the horizon
      ends before the year 10000. */
  lemma {:induction false} GeneratedUnique(ids: seq<string>, today: Instant, draw: Draws)
    requires Distinct(ids) && CivilDate(today.day + HorizonDays - 1).year < 10000
    ensures UniqueIds(Generated(ids, today, draw))
    decreases |ids|
  {
    if ids != [] {
      var init := ids[..|ids| - 1];
      var id := ids[|ids| - 1];
      assert Distinct(init);
      forall i | 0 <= i < |init|
        ensures init[i] != id
      {
        assert init[i] == ids[i];
      }
      GeneratedSnoc(ids, today, draw);
      GeneratedUnique(init, today, draw);
      DoctorSchedulesUnique(id, |ids| - 1, today, draw);
      GeneratedApart(init, id, |ids| - 1, today, draw);
      UniqueIdsConcat(Generated(init, today, draw), DoctorSchedules(id, |ids| - 1, today, draw));
    }
  }

  /** A doctor not among `ids` shares no schedule id with theirs. */
  lemma GeneratedApart(ids: seq<string>, id: string, d: nat, today: Instant, draw: Draws)
    requires id !in ids && CivilDate(today.day + HorizonDays - 1).year < 10000
    ensures forall a, b :: 0 <= a < |Generated(ids, today, draw)| && 0 <= b < |DoctorSchedules(id, d, today, draw)| ==>
      Generated(ids, today, draw)[a].id != DoctorSchedules(id, d, today, draw)[b].id
  {
    var prev := Generated(ids, today, draw);
    var last := DoctorSchedules(id, d, today, draw);
    GeneratedDerived(ids, today, draw);
    DoctorSchedulesDerived(id, d, today, draw);
    forall a, b | 0 <= a < |prev| && 0 <= b < |last|
      ensures prev[a].id != last[b].id
    {
      assert prev[a] in prev && last[b] in last;
      DerivedIdsDiffer(prev[a], last[b], today);
    }
  }

  /** At most 36 schedules per doctor. */
  lemma {:induction false} GeneratedCount(ids: seq<string>, today: Instant, draw: Draws)
    ensures |Generated(ids, today, draw)| <= 36 * |ids|
    decreases |ids|
  {
    if ids != [] {
      GeneratedSnoc(ids, today, draw);
      GeneratedCount(ids[..|ids| - 1], today, draw);
      DoctorSchedulesCount(ids[|ids| - 1], |ids| - 1, today, draw);
    }
  }
}
