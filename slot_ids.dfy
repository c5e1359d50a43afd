/** Slot identity: a schedule's id is `doctorId + "-" + yyyyMMdd + "-" + slot`.
    The id can be taken apart from the right, because the session name has
    no `-` and the date stamp is exactly eight digits; so distinct
    (doctor, day, session) triples never share an id, even though doctor
    ids may themselves contain `-` (as in "dr-li-wan"). */
module SlotIds {
  import opened Calendar
  import opened Types

  function SlotId(doctorId: string, stamp: string, slot: TimeSlot): (id: string)
    ensures |id| == |doctorId| + |stamp| + |SlotName(slot)| + 2
  {
    doctorId + "-" + stamp + "-" + SlotName(slot)
  }

  /** The id of a doctor's schedule for one session of one day. */
  function ScheduleId(doctorId: string, day: nat, slot: TimeSlot): string
  {
    SlotId(doctorId, DateStamp(day), slot)
  }

  datatype SlotIdParts = SlotIdParts(doctorId: string, stamp: string, slot: TimeSlot)

  /** The position of the last `c` in `s`. */
  function LastIndexOf(s: string, c: char): (r: Option<nat>)
    ensures r.Some? ==> r.value < |s| && s[r.value] == c && c !in s[r.value + 1..]
    ensures r.None? ==> c !in s
    decreases |s|
  {
    if s == [] then None
    else if s[|s| - 1] == c then Some(|s| - 1)
    else LastIndexOf(s[..|s| - 1], c)
  }

  function SlotFromName(name: string): Option<TimeSlot>
  {
    if name == SlotName(Morning) then Some(Morning)
    else if name == SlotName(Afternoon) then Some(Afternoon)
    else if name == SlotName(Evening) then Some(Evening)
    else None
  }

  /** Takes a slot id apart from the right: the session name follows the
      last `-`, and the eight digits before it are preceded by another `-`. */
  function ParseSlotId(id: string): Option<SlotIdParts>
  {
    match LastIndexOf(id, '-')
    case None => None
    case Some(p) =>
      match SlotFromName(id[p + 1..])
      case None => None
      case Some(slot) =>
        if p >= 9 && id[p - 9] == '-' && AllDigits(id[p - 8..p])
        then Some(SlotIdParts(id[..p - 9], id[p - 8..p], slot))
        else None
  }

  lemma {:induction false} LastIndexOfBefore(a: string, c: char, b: string)
    requires c !in b
    ensures LastIndexOf(a + [c] + b, c) == Some(|a|)
    decreases |b|
  {
    var s := a + [c] + b;
    if b != [] {
      assert s[..|s| - 1] == a + [c] + b[..|b| - 1];
      LastIndexOfBefore(a, c, b[..|b| - 1]);
    }
  }

  /** Parsing recovers the doctor id, the stamp and the session. */
  lemma ParseSlotIdRoundTrip(doctorId: string, stamp: string, slot: TimeSlot)
    requires |stamp| == 8 && AllDigits(stamp)
    ensures ParseSlotId(SlotId(doctorId, stamp, slot)) == Some(SlotIdParts(doctorId, stamp, slot))
  {
    var id := SlotId(doctorId, stamp, slot);
    var head := doctorId + "-" + stamp;
    assert id == head + ['-'] + SlotName(slot);
    LastIndexOfBefore(head, '-', SlotName(slot));
    var p := |head|;
    assert id[p + 1..] == SlotName(slot);
    assert id[p - 9] == '-';
    assert id[p - 8..p] == stamp;
    assert id[..p - 9] == doctorId;
  }

  /** The slot id scheme is injective. */
  lemma SlotIdInjective(d1: string, st1: string, t1: TimeSlot, d2: string, st2: string, t2: TimeSlot)
    requires |st1| == 8 && AllDigits(st1) && |st2| == 8 && AllDigits(st2)
    requires SlotId(d1, st1, t1) == SlotId(d2, st2, t2)
    ensures d1 == d2 && st1 == st2 && t1 == t2
  {
    ParseSlotIdRoundTrip(d1, st1, t1);
    ParseSlotIdRoundTrip(d2, st2, t2);
  }

  /** Distinct (doctor, day, session) triples get distinct schedule ids,
      for every day up to the year 9999. */
  lemma ScheduleIdInjective(d1: string, day1: nat, t1: TimeSlot, d2: string, day2: nat, t2: TimeSlot)
    requires CivilDate(day1).year < 10000 && CivilDate(day2).year < 10000
    requires ScheduleId(d1, day1, t1) == ScheduleId(d2, day2, t2)
    ensures d1 == d2 && day1 == day2 && t1 == t2
  {
    SlotIdInjective(d1, DateStamp(day1), t1, d2, DateStamp(day2), t2);
    DateStampInjective(day1, day2);
  }
}
