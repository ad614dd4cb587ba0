/** Properties that relate the create handler to the day query: what a
    successful create adds to the listing, the at-most-three rule, and where
    that rule is scoped. */
module SchedulingProperties {
  import opened Outcomes
  import opened JsonData
  import opened Seqs
  import opened DateTime
  import opened Validators
  import opened Appointments

  /** An admitted body passed a day query on the store it was checked against,
      so no stored record faulted that scan. */
  lemma AdmittedStoreScans(roster: seq<Doctor>, recs: seq<Appointment>, doctorId: int, body: Json)
    requires Admission(roster, recs, doctorId, body).Ok?
    ensures var a := Admission(roster, recs, doctorId, body).value;
      && DayQueryOutcome(roster, recs, doctorId, a["date"].str).Ok?
      && FirstFault(recs, DayFaultOf(a["date"].str)) == None
  {
  }

  /** Creating then listing: when the body's `doctor_id` is the URL's doctor,
      the day query on the new store lists the old matches followed by the
      created record, every field unchanged. */
  lemma {:induction false} CreatedRecordIsListed(roster: seq<Doctor>, recs: seq<Appointment>, doctorId: int, body: Json)
    requires Admission(roster, recs, doctorId, body).Ok?
    requires var a := Admission(roster, recs, doctorId, body).value;
      "doctor_id" in a && PyEqualsInt(a["doctor_id"], doctorId)
    ensures var a := Admission(roster, recs, doctorId, body).value;
      DayQueryOutcome(roster, recs + [a], doctorId, a["date"].str)
        == Ok(Listed(DayFilter(recs, a["date"].str, doctorId) + [a]))
  {
    var a := Admission(roster, recs, doctorId, body).value;
    var date := a["date"].str;
    AdmittedStoreScans(roster, recs, doctorId, body);
    assert (recs + [a])[..|recs|] == recs;
    assert FirstFault(recs + [a], DayFaultOf(date)) == None;
    assert DayFilter(recs + [a], date, doctorId) == DayFilter(recs, date, doctorId) + [a];
  }

  /** An admitted body's slot had room: the URL's doctor held fewer than 3
      appointments that day at its time in the store it was checked against. */
  lemma AdmittedSlotHadRoom(roster: seq<Doctor>, recs: seq<Appointment>, doctorId: int, body: Json)
    requires Admission(roster, recs, doctorId, body).Ok?
    ensures var a := Admission(roster, recs, doctorId, body).value;
      TimeCount(DayFilter(recs, a["date"].str, doctorId), a["time"].str) < 3
  {
    var a := Admission(roster, recs, doctorId, body).value;
    var date, time := a["date"].str, a["time"].str;
    var items := DayFilter(recs, date, doctorId);
    match DayQueryOutcome(roster, recs, doctorId, date)
    case Ok(NoneFound) =>
      assert items == [];
    case Ok(Listed(_)) =>
      assert SlotVerdict(items, time) == Ok(true);
  }

  /** The at-most-three rule: a create for the URL's doctor, whose body names
      that same doctor, leaves at most 3 of that doctor's appointments on that
      date at that time, whatever the store held before. */
  lemma {:induction false} AdmissionKeepsSlotWithinCapacity(roster: seq<Doctor>, recs: seq<Appointment>, doctorId: int, body: Json)
    requires Admission(roster, recs, doctorId, body).Ok?
    requires var a := Admission(roster, recs, doctorId, body).value;
      "doctor_id" in a && PyEqualsInt(a["doctor_id"], doctorId)
    ensures var a := Admission(roster, recs, doctorId, body).value;
      var date := a["date"].str;
      var time := a["time"].str;
      && TimeCount(DayFilter(recs + [a], date, doctorId), time) == TimeCount(DayFilter(recs, date, doctorId), time) + 1
      && TimeCount(DayFilter(recs + [a], date, doctorId), time) <= 3
  {
    var a := Admission(roster, recs, doctorId, body).value;
    var date := a["date"].str;
    var time := a["time"].str;
    CreatedRecordIsListed(roster, recs, doctorId, body);
    AdmittedSlotHadRoom(roster, recs, doctorId, body);
    var before := DayFilter(recs, date, doctorId);
    assert DayFilter(recs + [a], date, doctorId) == before + [a];
    assert (before + [a])[..|before|] == before;
    assert BookedAt(a, time);
  }

  /** A stored appointment with the fields a client sends. */
  function Booking(id: int, doctorId: int, date: string, time: string): (a: Appointment)
    ensures ValidateAppointmentData(JObject(a))
    ensures MatchesDay(a, date, doctorId) && BookedAt(a, time)
  {
    map[
      "id" := JNumber(id),
      "first_name" := JString("Ada"),
      "last_name" := JString("Lovelace"),
      "date" := JString(date),
      "doctor_id" := JNumber(doctorId),
      "new_patient" := JBool(false),
      "time" := JString(time)
    ]
  }

  /** The facts a well-formed create body establishes before the capacity
      step: the schema holds, the URL's doctor is on the roster, the time is
      a quarter-hour mark, the date is real and the day's scan does not fault. */
  predicate ReachesCapacityCheck(roster: seq<Doctor>, recs: seq<Appointment>, doctorId: int, a: Appointment) {
    && ValidateAppointmentData(JObject(a))
    && OnRoster(roster, doctorId)
    && "time" in a && "date" in a
    && ValidateTime(a["time"].str) == Ok(true)
    && ValidateDate(a["date"].str)
    && FirstFault(recs, DayFaultOf(a["date"].str)) == None
  }

  /** With 3 or more of the doctor's appointments that day already at the
      candidate's time (and every one of them carrying a time), the create is
      refused as a full slot. */
  lemma FullSlotRefused(roster: seq<Doctor>, recs: seq<Appointment>, doctorId: int, a: Appointment)
    requires ReachesCapacityCheck(roster, recs, doctorId, a)
    requires var items := DayFilter(recs, a["date"].str, doctorId);
      (forall i :: 0 <= i < |items| ==> "time" in items[i]) && TimeCount(items, a["time"].str) >= 3
    ensures Admission(roster, recs, doctorId, JObject(a)) == Err(Rejected(SlotFull(a["time"].str)))
  {
    var items := DayFilter(recs, a["date"].str, doctorId);
    assert items != [];
  }

  /** With fewer than 3 of the doctor's appointments that day at the
      candidate's time (every one carrying a time), the create is accepted and
      answers with the body itself. */
  lemma FreeSlotAdmitted(roster: seq<Doctor>, recs: seq<Appointment>, doctorId: int, a: Appointment)
    requires ReachesCapacityCheck(roster, recs, doctorId, a)
    requires var items := DayFilter(recs, a["date"].str, doctorId);
      (forall i :: 0 <= i < |items| ==> "time" in items[i]) && TimeCount(items, a["time"].str) < 3
    ensures Admission(roster, recs, doctorId, JObject(a)) == Ok(a)
  {
  }

  /** Three bookings of one doctor on one date at one time. */
  function SameSlot(doctorId: int, date: string, time: string): (recs: seq<Appointment>)
    ensures |recs| == 3
    ensures forall i :: 0 <= i < |recs| ==> MatchesDay(recs[i], date, doctorId) && BookedAt(recs[i], time)
  {
    [Booking(1, doctorId, date, time), Booking(2, doctorId, date, time), Booking(3, doctorId, date, time)]
  }

  /** The day query over the three bookings does not fault, lists all three,
      and all three are at the slot's time. */
  lemma SameSlotListed(doctorId: int, date: string, time: string)
    ensures var recs := SameSlot(doctorId, date, time);
      && FirstFault(recs, DayFaultOf(date)) == None
      && DayFilter(recs, date, doctorId) == recs
      && TimeCount(recs, time) == 3
  {
    var recs := SameSlot(doctorId, date, time);
    FilterAllKept(recs, DayMatcher(date, doctorId));
    FilterAllKept(recs, BookedAtTime(time));
  }

  /** With three bookings of the doctor at a slot, a fourth at that slot is
      refused as full. */
  lemma FourthBookingRefused(roster: seq<Doctor>, doctorId: int, date: string, time: string)
    requires OnRoster(roster, doctorId) && ValidateDate(date) && ValidateTime(time) == Ok(true)
    ensures Admission(roster, SameSlot(doctorId, date, time), doctorId, JObject(Booking(4, doctorId, date, time)))
      == Err(Rejected(SlotFull(time)))
  {
    var recs := SameSlot(doctorId, date, time);
    var fourth := Booking(4, doctorId, date, time);
    SameSlotListed(doctorId, date, time);
    assert ReachesCapacityCheck(roster, recs, doctorId, fourth);
    FullSlotRefused(roster, recs, doctorId, fourth);
  }

  /** With the same three bookings, a booking at another quarter-hour mark is
      accepted and answered with the body as sent. */
  lemma OtherQuarterAccepted(roster: seq<Doctor>, doctorId: int, date: string, time: string, other: string)
    requires OnRoster(roster, doctorId) && ValidateDate(date) && ValidateTime(other) == Ok(true) && other != time
    ensures Admission(roster, SameSlot(doctorId, date, time), doctorId, JObject(Booking(5, doctorId, date, other)))
      == Ok(Booking(5, doctorId, date, other))
  {
    var recs := SameSlot(doctorId, date, time);
    var body := Booking(5, doctorId, date, other);
    SameSlotListed(doctorId, date, time);
    assert ReachesCapacityCheck(roster, recs, doctorId, body);
    FilterNoneKept(recs, BookedAtTime(other));
    FreeSlotAdmitted(roster, recs, doctorId, body);
  }

  /** Doctor 7 with three 10:00 bookings on 2024-06-01: a fourth at 10:00 is
      refused as full. */
  lemma FullSlotExample()
    ensures Admission([Doctor(7, map[])], SameSlot(7, "2024-06-01", "10:00"), 7, JObject(Booking(4, 7, "2024-06-01", "10:00")))
      == Err(Rejected(SlotFull("10:00")))
  {
    var roster := [Doctor(7, map[])];
    assert OnRoster(roster, 7) by { assert roster[0].id == 7; }
    ValidateDateIff("2024-06-01");
    ValidateTimeIff("10:00");
    FourthBookingRefused(roster, 7, "2024-06-01", "10:00");
  }

  /** With the same three 10:00 bookings, a booking at 10:15 is accepted. */
  lemma QuarterPastExample()
    ensures Admission([Doctor(7, map[])], SameSlot(7, "2024-06-01", "10:00"), 7, JObject(Booking(5, 7, "2024-06-01", "10:15")))
      == Ok(Booking(5, 7, "2024-06-01", "10:15"))
  {
    var roster := [Doctor(7, map[])];
    assert OnRoster(roster, 7) by { assert roster[0].id == 7; }
    ValidateDateIff("2024-06-01");
    ValidateTimeIff("10:15");
    OtherQuarterAccepted(roster, 7, "2024-06-01", "10:00", "10:15");
  }

  /** The capacity check counts the URL's doctor, but the stored record keeps
      the body's `doctor_id`: when that doctor already holds three bookings at
      the slot and the URL names another doctor with none, the create is
      accepted and the body's doctor ends up with four. */
  lemma BodyDoctorIdEscapesCapacity(roster: seq<Doctor>, urlDoctor: int, bodyDoctor: int, date: string, time: string)
    requires OnRoster(roster, urlDoctor) && urlDoctor != bodyDoctor
    requires ValidateDate(date) && ValidateTime(time) == Ok(true)
    ensures var recs := SameSlot(bodyDoctor, date, time);
      var body := Booking(4, bodyDoctor, date, time);
      && Admission(roster, recs, urlDoctor, JObject(body)) == Ok(body)
      && TimeCount(DayFilter(recs + [body], date, bodyDoctor), time) == 4
  {
    var recs := SameSlot(bodyDoctor, date, time);
    var body := Booking(4, bodyDoctor, date, time);
    SameSlotListed(bodyDoctor, date, time);
    assert ReachesCapacityCheck(roster, recs, urlDoctor, body);
    FilterNoneKept(recs, DayMatcher(date, urlDoctor));
    FreeSlotAdmitted(roster, recs, urlDoctor, body);
    FourBookingsListed(bodyDoctor, date, time);
  }

  /** The three bookings of a slot plus a fourth of the same doctor at the
      same slot: the day query lists all four at that time. */
  lemma FourBookingsListed(doctorId: int, date: string, time: string)
    ensures TimeCount(DayFilter(SameSlot(doctorId, date, time) + [Booking(4, doctorId, date, time)], date, doctorId), time) == 4
  {
    var all := SameSlot(doctorId, date, time) + [Booking(4, doctorId, date, time)];
    FilterAllKept(all, DayMatcher(date, doctorId));
    FilterAllKept(all, BookedAtTime(time));
  }

  /** Doctor 8 holds three 10:00 bookings on 2024-06-01; a create sent to
      doctor 7 whose body says `doctor_id` 8 is accepted. */
  lemma BodyDoctorIdExample()
    ensures Admission([Doctor(7, map[]), Doctor(8, map[])], SameSlot(8, "2024-06-01", "10:00"), 7, JObject(Booking(4, 8, "2024-06-01", "10:00")))
      == Ok(Booking(4, 8, "2024-06-01", "10:00"))
  {
    var roster := [Doctor(7, map[]), Doctor(8, map[])];
    assert OnRoster(roster, 7) by { assert roster[0].id == 7; }
    ValidateDateIff("2024-06-01");
    ValidateTimeIff("10:00");
    BodyDoctorIdEscapesCapacity(roster, 7, 8, "2024-06-01", "10:00");
  }
}
