/** The records the application passes around: doctors, schedule slots,
    departments, patients and appointments. */
module Types {
  import opened Calendar

  datatype Option<T> = None | Some(value: T)

  /** The three fixed consultation sessions of a day. */
  datatype TimeSlot = Morning | Afternoon | Evening

  datatype Status = Pending | Confirmed | Cancelled

  datatype Doctor = Doctor(
    id: string,
    name: string,
    department: string,
    title: string,
    specialties: seq<string>,
    imageUrl: string,
    introduction: string,
    isAvailable: Option<bool>)

  datatype Schedule = Schedule(
    id: string,
    doctorId: string,
    date: Instant,
    timeSlot: TimeSlot,
    startTime: string,
    endTime: string,
    maxPatients: int,
    currentPatients: int,
    isAvailable: bool)

  datatype Department = Department(id: string, name: string, description: string, icon: string)

  datatype Patient = Patient(
    name: string,
    idNumber: string,
    birthDate: string,
    phone: string,
    email: Option<string>)

  datatype Appointment = Appointment(
    id: string,
    scheduleId: string,
    patient: Patient,
    status: Status,
    createdAt: Instant)

  /** The generated avatar picture for a seed (a name, or a name with
      style options). */
  function AvatarUrl(seed: string): string
  {
    "https://api.dicebear.com/7.x/avataaars/svg?seed=" + seed
  }

  /** The number of sessions a day has, kept behind a call so that the
      solver does not unroll every three-session recursion wherever it appears. */
  function SlotCount(): nat
  {
    3
  }

  /** The `k`-th session in the order every loop over the sessions visits them. */
  function SlotAt(k: nat): TimeSlot
  {
    if k == 0 then Morning else if k == 1 then Afternoon else Evening
  }

  /** The position of a session in that order. */
  function SlotIndex(t: TimeSlot): (k: nat)
    ensures k < SlotCount() && SlotAt(k) == t
  {
    match t
    case Morning => 0
    case Afternoon => 1
    case Evening => 2
  }

  /** The session's name as it is stored and as it appears in slot ids. */
  function SlotName(t: TimeSlot): (name: string)
    ensures |name| > 0 && '-' !in name
  {
    match t
    case Morning => "Morning"
    case Afternoon => "Afternoon"
    case Evening => "Evening"
  }

  /** The canonical opening hour of each session. */
  function SlotStart(t: TimeSlot): string
  {
    match t
    case Morning => "09:00"
    case Afternoon => "14:00"
    case Evening => "18:00"
  }

  /** The canonical closing hour of each session. */
  function SlotEnd(t: TimeSlot): string
  {
    match t
    case Morning => "12:00"
    case Afternoon => "17:00"
    case Evening => "21:00"
  }

  /** The schedule with one more patient booked: `currentPatients + 1`. */
  function Incremented(s: Schedule): (r: Schedule)
    ensures r.currentPatients == s.currentPatients + 1
    ensures r.(currentPatients := s.currentPatients) == s
  {
    s.(currentPatients := s.currentPatients + 1)
  }

  /** The schedule cannot take another patient. */
  predicate IsFull(s: Schedule)
  {
    s.currentPatients >= s.maxPatients
  }

  /** No two schedules share an id. */
  predicate UniqueIds(ss: seq<Schedule>)
  {
    forall i, j :: 0 <= i < j < |ss| ==> ss[i].id != ss[j].id
  }

  lemma UniqueIdsConcat(a: seq<Schedule>, b: seq<Schedule>)
    requires UniqueIds(a) && UniqueIds(b)
    requires forall i, j :: 0 <= i < |a| && 0 <= j < |b| ==> a[i].id != b[j].id
    ensures UniqueIds(a + b)
  {
    var ab := a + b;
    forall i, j | 0 <= i < j < |ab|
      ensures ab[i].id != ab[j].id
    {
      if j < |a| {
      } else if i >= |a| {
        assert ab[i] == b[i - |a|] && ab[j] == b[j - |a|];
      } else {
        assert ab[j] == b[j - |a|];
      }
    }
  }
}
