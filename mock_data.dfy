/** The demo data: four departments, four doctors, and the schedules
    generated for them when the module loads. */
module MockData {
  import opened Calendar
  import opened Types
  import opened Seqs
  import opened Store
  import opened SlotIds
  import opened Generator

  function Departments(): seq<Department>
  {
    [Obgyn(), Pediatrics(), Surgery(), Internal()]
  }

  function Obgyn(): Department
  {
    Department("obgyn", "婦產科", "提供全面的婦女健康照護，包含產檢、婦科疾病治療及微創手術。", "Baby")
  }

  function Pediatrics(): Department
  {
    Department("pediatrics", "小兒科", "呵護寶寶的健康成長，提供疫苗接種、生長評估及常見兒科疾病治療。", "Trees")
  }

  function Surgery(): Department
  {
    Department("surgery", "乳房外科", "專注於乳房健康篩檢、診斷及治療，守護女性自信與健康。", "Heart")
  }

  function Internal(): Department
  {
    Department("internal", "內科", "一般內科疾病診治，慢性病管理。", "Stethoscope")
  }

  function InitialDoctors(): seq<Doctor>
  {
    [DrLee(), DrChen(), DrHong(), DrLiWan()]
  }

  function DrLee(): Doctor
  {
    Doctor("dr-lee", "李宜明", "obgyn", "院長",
      ["一般產科", "高危險妊娠", "婦科腫瘤", "腹腔鏡手術"],
      AvatarUrl("Lee&clothing=blazerAndShirt"),
      "致力於婦產科領域三十餘年，經驗豐富，視病猶親。", Some(true))
  }

  function DrChen(): Doctor
  {
    Doctor("dr-chen", "陳曼玲", "obgyn", "主治醫師",
      ["青少女保健", "更年期障礙", "婦科微創手術"],
      AvatarUrl("Chen&clothing=blazerAndShirt&top=longHair"),
      "細心溫柔的診療風格，深受女性患者信賴。", Some(true))
  }

  function DrHong(): Doctor
  {
    Doctor("dr-hong", "洪晟哲", "pediatrics", "小兒科主任",
      ["小兒過敏", "氣喘", "新生兒照護"],
      AvatarUrl("Hong&clothing=blazerAndShirt"),
      "專注於兒童過敏免疫領域，守護孩子的呼吸健康。", Some(true))
  }

  function DrLiWan(): Doctor
  {
    Doctor("dr-li-wan", "李婉華", "surgery", "乳房外科醫師",
      ["乳房超音波", "乳房手術", "乳癌篩檢"],
      AvatarUrl("LiWan&clothing=blazerAndShirt&top=longHair"),
      "專業細緻的檢查，早期發現早期治療。", Some(true))
  }

  /** The department ids, in order. */
  function DepartmentIds(): seq<string>
  {
    ["obgyn", "pediatrics", "surgery", "internal"]
  }

  /** The department ids are those of the department records. */
  lemma DepartmentIdsSpec()
    ensures DepartmentIds() == seq(|Departments()|, k requires 0 <= k < |Departments()| => Departments()[k].id)
  {
  }

  /** Every demo doctor belongs to one of the demo departments. */
  lemma InitialDepartmentsExist()
    ensures forall k :: 0 <= k < |InitialDoctors()| ==> InitialDoctors()[k].department in DepartmentIds()
  {
  }

  /** No two demo doctors share an id. */
  lemma InitialIdsDistinct()
    ensures Distinct(Ids(DoctorKey, InitialDoctors()))
  {
    assert Ids(DoctorKey, InitialDoctors()) == ["dr-lee", "dr-chen", "dr-hong", "dr-li-wan"];
  }

  /** The inner `timeSlots.forEach` for one doctor on one working day: one
      draw per session decides whether it is pushed and with how many
      patients (`Math.floor(Math.random() * 10)`). */
  method PushSessions(schedules: seq<Schedule>, doctorId: string, p: nat, currentDate: Instant, today: Instant, draw: Draws)
    returns (r: seq<Schedule>)
    requires currentDate.ms == today.ms
    ensures r == schedules + Schedules(doctorId, today, DayOffers(p, currentDate.day, draw, SlotCount()))
  {
    r := schedules;
    var k := 0;
    while k < SlotCount()
      invariant 0 <= k <= SlotCount()
      invariant r == schedules + Schedules(doctorId, today, DayOffers(p, currentDate.day, draw, k))
    {
      var slot := SlotAt(k);
      ghost var done := Schedules(doctorId, today, DayOffers(p, currentDate.day, draw, k));
      match draw(p, currentDate.day, slot) {
        case Skip =>
          assert DayOffers(p, currentDate.day, draw, k + 1) == DayOffers(p, currentDate.day, draw, k) + [];
        case Take(c) =>
          var o := Offer(currentDate.day, slot, c);
          var s := Schedule(SlotId(doctorId, DateStamp(currentDate.day), slot), doctorId, currentDate,
                            slot, SlotStart(slot), SlotEnd(slot), Capacity, c, true);
          assert s == OfferSchedule(doctorId, today, o);
          assert DayOffers(p, currentDate.day, draw, k + 1) == DayOffers(p, currentDate.day, draw, k) + [o];
          SchedulesSnoc(doctorId, today, DayOffers(p, currentDate.day, draw, k), o);
          AppendAssoc(schedules, done, [s]);
          r := r + [s];
      }
      k := k + 1;
    }
  }

  /** One iteration of the day loop: a Sunday is skipped (`continue`),
      any other day gets its sessions. */
  method PushDay(schedules: seq<Schedule>, doctorId: string, p: nat, currentDate: Instant, today: Instant, draw: Draws)
    returns (r: seq<Schedule>)
    requires currentDate.ms == today.ms
    ensures r == schedules + Schedules(doctorId, today, WorkDay(p, currentDate.day, draw))
  {
    if Weekday(currentDate.day) == 0 {
      assert schedules + [] == schedules;
      return schedules;
    }
    r := PushSessions(schedules, doctorId, p, currentDate, today, draw);
  }

  /** One more day of the day loop appends that day's schedules. */
  lemma PushedStep(schedules: seq<Schedule>, doctorId: string, p: nat, today: Instant, draw: Draws, i: nat, currentDate: Instant)
    requires currentDate == AddDays(today, i)
    ensures currentDate.ms == today.ms
    ensures schedules + DaysScheduled(doctorId, p, today, draw, i + 1) ==
      (schedules + DaysScheduled(doctorId, p, today, draw, i)) + Schedules(doctorId, today, WorkDay(p, currentDate.day, draw))
  {
    DaysScheduledStep(doctorId, p, today, draw, i);
    AppendAssoc(schedules, DaysScheduled(doctorId, p, today, draw, i), Schedules(doctorId, today, WorkDay(p, today.day + i, draw)));
  }

  /** The day loop for one doctor: `addDays(today, i)` for each `i` of the
      horizon. */
  method PushDoctor(schedules: seq<Schedule>, doctorId: string, p: nat, today: Instant, draw: Draws)
    returns (r: seq<Schedule>)
    ensures r == schedules + DoctorSchedules(doctorId, p, today, draw)
  {
    r := schedules;
    assert r == schedules + [];
    for i: nat := 0 to HorizonDays
      invariant r == schedules + DaysScheduled(doctorId, p, today, draw, i)
    {
      var currentDate := AddDays(today, i);
      PushedStep(schedules, doctorId, p, today, draw, i, currentDate);
      r := PushDay(r, doctorId, p, currentDate, today, draw);
    }
  }

  /** What `generateSchedules` promises for the doctor ids `ids`: with every
      initial count drawn in [0, 10), each schedule has the generated shape
      and so lies below capacity; it belongs to one of the doctors; there are
      at most 36 per doctor; and the ids are unique when the doctor ids are
      and the horizon ends before the year 10000. */
  lemma GeneratedSpec(ids: seq<string>, today: Instant, draw: Draws)
    requires DrawsBelow(draw, 10)
    ensures forall s :: s in Generated(ids, today, draw) ==> WellFormed(s, today, 10) && s.currentPatients < s.maxPatients
    ensures forall s :: s in Generated(ids, today, draw) ==> s.doctorId in ids
    ensures |Generated(ids, today, draw)| <= 36 * |ids|
    ensures Distinct(ids) && CivilDate(today.day + HorizonDays - 1).year < 10000 ==> UniqueIds(Generated(ids, today, draw))
  {
    GeneratedWellFormed(ids, today, draw, 10);
    GeneratedDerived(ids, today, draw);
    GeneratedCount(ids, today, draw);
    if Distinct(ids) && CivilDate(today.day + HorizonDays - 1).year < 10000 {
      GeneratedUnique(ids, today, draw);
    }
  }

  /** `generateSchedules`: the schedules of each doctor in turn. */
  method GenerateSchedules(doctors: seq<Doctor>, today: Instant, draw: Draws) returns (schedules: seq<Schedule>)
    requires DrawsBelow(draw, 10)
    ensures schedules == Generated(Ids(DoctorKey, doctors), today, draw)
    ensures forall s :: s in schedules ==> WellFormed(s, today, 10) && s.currentPatients < s.maxPatients
    ensures forall s :: s in schedules ==> s.doctorId in Ids(DoctorKey, doctors)
    ensures |schedules| <= 36 * |doctors|
    ensures Distinct(Ids(DoctorKey, doctors)) && CivilDate(today.day + HorizonDays - 1).year < 10000 ==> UniqueIds(schedules)
  {
    ghost var ids := Ids(DoctorKey, doctors);
    schedules := [];
    var p := 0;
    while p < |doctors|
      invariant 0 <= p <= |doctors|
      invariant schedules == Generated(ids[..p], today, draw)
    {
      GeneratedStep(ids, p, today, draw);
      assert ids[p] == doctors[p].id;
      schedules := PushDoctor(schedules, doctors[p].id, p, today, draw);
      p := p + 1;
    }
    assert ids[..p] == ids;
    GeneratedSpec(ids, today, draw);
  }
}
