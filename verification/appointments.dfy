/** The appointment store and the three request handlers that use it: the day
    query, delete and create. The store stands in for `appointments.txt`:
    every handler reads it in full, and only delete and create rewrite it in
    full. The roster stands in for `doctors.txt` and is passed to each
    handler. */
module Appointments {
  import opened Outcomes
  import opened JsonData
  import opened Seqs
  import opened DateTime
  import opened Validators

  // ----- The day query -----

  /** The record belongs to the doctor on the date: Python's
      `appointment['date'] == date and appointment['doctor_id'] == doctor_id`. */
  predicate MatchesDay(a: Appointment, date: string, doctorId: int) {
    "date" in a && a["date"] == JString(date) && "doctor_id" in a && PyEqualsInt(a["doctor_id"], doctorId)
  }

  function DayMatcher(date: string, doctorId: int): Appointment -> bool {
    a => MatchesDay(a, date, doctorId)
  }

  /** The KeyError the day-query loop raises on this record, if any: `date` is
      always read, `doctor_id` only when the date matched. */
  function DayFault(a: Appointment, date: string): Option<Fault> {
    if "date" !in a then Some(KeyMissing("date"))
    else if a["date"] == JString(date) && "doctor_id" !in a then Some(KeyMissing("doctor_id"))
    else None
  }

  function DayFaultOf(date: string): Appointment -> Option<Fault> {
    a => DayFault(a, date)
  }

  /** The stored records of the doctor on the date, in store order. */
  function DayFilter(recs: seq<Appointment>, date: string, doctorId: int): seq<Appointment> {
    Filter(recs, DayMatcher(date, doctorId))
  }

  /** A successful day query: the matching records, or the
      "No appointments found for doctor {} on {}" message (status 200). */
  datatype DayReply = Listed(items: seq<Appointment>) | NoneFound

  /** What `get_appointments_for_doctor_on_day` answers for a store holding `recs`. */
  function DayQueryOutcome(roster: seq<Doctor>, recs: seq<Appointment>, doctorId: int, date: string): (r: Result<DayReply>)
    ensures r.Ok? ==> ValidateDate(date) && OnRoster(roster, doctorId)
    ensures r == Ok(NoneFound) ==> DayFilter(recs, date, doctorId) == []
    ensures r.Ok? && r.value.Listed? ==> r.value.items == DayFilter(recs, date, doctorId) != []
    ensures r.Err? && r.error.Rejected? <==> !ValidateDate(date) || !OnRoster(roster, doctorId)
    ensures r.Err? && r.error.Crashed? ==> FirstFault(recs, DayFaultOf(date)) == Some(r.error.fault)
    ensures ValidateDate(date) && OnRoster(roster, doctorId) && FirstFault(recs, DayFaultOf(date)).None? ==> r.Ok?
  {
    if date == "" then Err(Rejected(MissingDate))
    else if !ValidateDate(date) then Err(Rejected(BadDateFormat))
    else if !OnRoster(roster, doctorId) then Err(Rejected(UnknownDoctor(doctorId)))
    else
      match FirstFault(recs, DayFaultOf(date))
      case Some(f) => Err(Crashed(f))
      case None =>
        var items := DayFilter(recs, date, doctorId);
        if items == [] then Ok(NoneFound) else Ok(Listed(items))
  }

  /** One step of the day-query scan: the record at `i` either faults, and
      the scan's fault is its fault, or it extends the fault-free prefix and
      the listing gains it exactly when it matches. */
  lemma DayScanStep(recs: seq<Appointment>, i: nat, date: string, doctorId: int)
    requires i < |recs| && FirstFault(recs[..i], DayFaultOf(date)) == None
    ensures FirstFault(recs[..i + 1], DayFaultOf(date)) == DayFault(recs[i], date)
    ensures DayFilter(recs[..i + 1], date, doctorId)
      == DayFilter(recs[..i], date, doctorId) + (if MatchesDay(recs[i], date, doctorId) then [recs[i]] else [])
  {
    var upTo := recs[..i + 1];
    assert upTo[..i] == recs[..i] && upTo[i] == recs[i];
  }

  /** The day query keeps exactly the stored records of the doctor on the date. */
  lemma DayFilterMembers(recs: seq<Appointment>, date: string, doctorId: int, a: Appointment)
    ensures a in DayFilter(recs, date, doctorId) <==> a in recs && MatchesDay(a, date, doctorId)
  {
    if a in recs && MatchesDay(a, date, doctorId) {
      FilterKeepsMatches(recs, DayMatcher(date, doctorId), a);
    }
  }

  /** The day query preserves store order: querying a concatenation is
      concatenating the queries. */
  lemma DayFilterConcat(xs: seq<Appointment>, ys: seq<Appointment>, date: string, doctorId: int)
    ensures DayFilter(xs + ys, date, doctorId) == DayFilter(xs, date, doctorId) + DayFilter(ys, date, doctorId)
  {
    FilterConcat(xs, ys, DayMatcher(date, doctorId));
  }

  // ----- Delete -----

  /** Python's `int(appointment['id'])`. */
  function IdOf(a: Appointment): Result<int> {
    if "id" !in a then Err(Crashed(KeyMissing("id"))) else IntOf(a["id"])
  }

  function IdFault(a: Appointment): Option<Error> {
    if IdOf(a).Err? then Some(IdOf(a).error) else None
  }

  function IdFaultOf(): Appointment -> Option<Error> {
    a => IdFault(a)
  }

  predicate HasId(a: Appointment, id: int) {
    IdOf(a) == Ok(id)
  }

  function WithId(id: int): Appointment -> bool {
    a => HasId(a, id)
  }

  function WithoutId(id: int): Appointment -> bool {
    a => !HasId(a, id)
  }

  /** The store after a delete: every record with the id is gone, the others
      keep their order. */
  function RemoveId(recs: seq<Appointment>, id: int): seq<Appointment> {
    Filter(recs, WithoutId(id))
  }

  /** Every record with the id goes, duplicates included, and only those. */
  lemma RemoveIdMembers(recs: seq<Appointment>, id: int, a: Appointment)
    ensures a in RemoveId(recs, id) <==> a in recs && !HasId(a, id)
  {
    if a in recs && !HasId(a, id) {
      FilterKeepsMatches(recs, WithoutId(id), a);
    }
  }

  /** Deleting an id no record has leaves the store as it was. */
  lemma {:induction false} RemoveAbsentId(recs: seq<Appointment>, id: int)
    requires LastWhere(recs, WithId(id)).None?
    ensures RemoveId(recs, id) == recs
  {
    FilterAllKept(recs, WithoutId(id));
  }

  /** Deleting the same id twice is deleting it once. */
  lemma RemoveIdTwice(recs: seq<Appointment>, id: int)
    ensures RemoveId(RemoveId(recs, id), id) == RemoveId(recs, id)
  {
    FilterIdempotent(recs, WithoutId(id));
  }

  /** Deleting an id that exactly one record has removes that record and no
      other, and names it in the reply. */
  lemma RemoveSoleMatch(recs: seq<Appointment>, id: int, k: nat)
    requires k < |recs| && HasId(recs[k], id)
    requires forall i :: 0 <= i < |recs| && i != k ==> !HasId(recs[i], id)
    ensures RemoveId(recs, id) == recs[..k] + recs[k + 1..]
    ensures LastWhere(recs, WithId(id)) == Some(recs[k])
  {
    var before, after := recs[..k], recs[k + 1..];
    assert recs == before + [recs[k]] + after;
    forall i | 0 <= i < |before| ensures WithoutId(id)(before[i]) {
      assert before[i] == recs[i];
    }
    forall i | 0 <= i < |after| ensures WithoutId(id)(after[i]) && !WithId(id)(after[i]) {
      assert after[i] == recs[k + 1 + i];
    }
    DropsSole(before, recs[k], after, WithoutId(id));
    LastIsSole(before, recs[k], after, WithId(id));
  }

  /** A delete: the record named in the reply, or "No appointment found." */
  datatype DeleteReply = Removed(record: Appointment) | NoneRemoved

  /** The reply once the store has been rewritten: the message reads the
      deleted record's `first_name`, `last_name` and `date`, in that order. */
  function DeleteMessage(deleted: Option<Appointment>): (r: Result<DeleteReply>)
    ensures r == Ok(NoneRemoved) <==> deleted.None?
    ensures r.Ok? && r.value.Removed? ==> deleted == Some(r.value.record)
    ensures r.Err? <==> deleted.Some? && !("first_name" in deleted.value && "last_name" in deleted.value && "date" in deleted.value)
  {
    match deleted
    case None => Ok(NoneRemoved)
    case Some(a) =>
      if "first_name" !in a then Err(Crashed(KeyMissing("first_name")))
      else if "last_name" !in a then Err(Crashed(KeyMissing("last_name")))
      else if "date" !in a then Err(Crashed(KeyMissing("date")))
      else Ok(Removed(a))
  }

  // ----- Create -----

  /** What `create_appointment` answers for the body, checking in order: the
      schema, the URL's doctor, the time, then the capacity of that doctor's
      slot on the body's date (skipped when the day has no appointments). */
  function Admission(roster: seq<Doctor>, recs: seq<Appointment>, doctorId: int, body: Json): (r: Result<Appointment>)
    ensures r.Ok? ==> body == JObject(r.value) && ValidateAppointmentData(body) && OnRoster(roster, doctorId)
    ensures r.Ok? ==> "time" in r.value && "date" in r.value
    ensures r.Ok? ==> ValidateTime(r.value["time"].str) == Ok(true) && ValidateDate(r.value["date"].str)
    ensures !ValidateAppointmentData(body) ==> r == Err(Rejected(BadAppointmentData))
    ensures ValidateAppointmentData(body) && !OnRoster(roster, doctorId) ==> r == Err(Rejected(UnknownDoctor(doctorId)))
    ensures ValidateAppointmentData(body) && OnRoster(roster, doctorId) && "time" in body.fields ==>
      match ValidateTime(body.fields["time"].str)
      case Err(e) => r == Err(e)
      case Ok(onQuarter) => !onQuarter ==> r == Err(Rejected(BadTime))
  {
    if !ValidateAppointmentData(body) then Err(Rejected(BadAppointmentData))
    else if !OnRoster(roster, doctorId) then Err(Rejected(UnknownDoctor(doctorId)))
    else if "time" !in body.fields then Err(Crashed(KeyMissing("time")))
    else
      var time := body.fields["time"].str;
      match ValidateTime(time)
      case Err(e) => Err(e)
      case Ok(onQuarter) =>
        if !onQuarter then Err(Rejected(BadTime))
        else if "date" !in body.fields then Err(Crashed(KeyMissing("date")))
        else
          match DayQueryOutcome(roster, recs, doctorId, body.fields["date"].str)
          case Err(Crashed(f)) => Err(Crashed(f))
          case Err(Rejected(_)) => Err(Crashed(ReplyHasNoJson))
          case Ok(NoneFound) => Ok(body.fields)
          case Ok(Listed(items)) =>
            match SlotVerdict(items, time)
            case Err(e) => Err(e)
            case Ok(free) => if free then Ok(body.fields) else Err(Rejected(SlotFull(time)))
  }

  class AppointmentStore {
    /** The contents of `appointments.txt`, in file order. */
    var records: seq<Appointment>

    constructor (initial: seq<Appointment>)
      ensures records == initial
    {
      records := initial;
    }

    /** `get_appointments_for_doctor_on_day`: the checks, then a scan that
        appends each matching record. It changes nothing, so asking twice
        gives the same answer. */
    method DayQuery(roster: seq<Doctor>, doctorId: int, date: string) returns (r: Result<DayReply>)
      ensures r == DayQueryOutcome(roster, records, doctorId, date)
    {
      if date == "" {
        return Err(Rejected(MissingDate));
      }
      if !ValidateDate(date) {
        return Err(Rejected(BadDateFormat));
      }
      var known := DoctorExists(roster, doctorId);
      if !known {
        return Err(Rejected(UnknownDoctor(doctorId)));
      }
      var found: seq<Appointment> := [];
      var i := 0;
      while i < |records|
        invariant 0 <= i <= |records|
        invariant FirstFault(records[..i], DayFaultOf(date)) == None
        invariant found == DayFilter(records[..i], date, doctorId)
      {
        var appointment := records[i];
        DayScanStep(records, i, date, doctorId);
        if "date" !in appointment {
          FirstFaultSettles(records, i + 1, DayFaultOf(date));
          return Err(Crashed(KeyMissing("date")));
        }
        if appointment["date"] == JString(date) {
          if "doctor_id" !in appointment {
            FirstFaultSettles(records, i + 1, DayFaultOf(date));
            return Err(Crashed(KeyMissing("doctor_id")));
          }
          if PyEqualsInt(appointment["doctor_id"], doctorId) {
            found := found + [appointment];
          }
        }
        i := i + 1;
      }
      assert records[..i] == records;
      if found == [] {
        return Ok(NoneFound);
      }
      return Ok(Listed(found));
    }

    /** `delete_appointment_for_doctor_on_day`: after the roster check, a scan
        that keeps every record whose id differs and remembers the last one
        whose id matches; the kept list is written back whether or not
        anything matched, and only then is the reply composed. The doctor id
        is not used to select records. */
    method Delete(roster: seq<Doctor>, doctorId: int, appointmentId: int) returns (r: Result<DeleteReply>)
      modifies this
      ensures !OnRoster(roster, doctorId) ==>
        r == Err(Rejected(UnknownDoctor(doctorId))) && records == old(records)
      ensures OnRoster(roster, doctorId) && FirstFault(old(records), IdFaultOf()).Some? ==>
        r == Err(FirstFault(old(records), IdFaultOf()).value) && records == old(records)
      ensures OnRoster(roster, doctorId) && FirstFault(old(records), IdFaultOf()).None? ==>
        && records == RemoveId(old(records), appointmentId)
        && r == DeleteMessage(LastWhere(old(records), WithId(appointmentId)))
      ensures r == Ok(NoneRemoved) ==> records == old(records)
    {
      var known := DoctorExists(roster, doctorId);
      if !known {
        return Err(Rejected(UnknownDoctor(doctorId)));
      }
      var kept: seq<Appointment> := [];
      var deleted: Option<Appointment> := None;
      var i := 0;
      while i < |records|
        invariant 0 <= i <= |records|
        invariant records == old(records)
        invariant FirstFault(records[..i], IdFaultOf()) == None
        invariant kept == RemoveId(records[..i], appointmentId)
        invariant deleted == LastWhere(records[..i], WithId(appointmentId))
      {
        var appointment := records[i];
        assert records[..i + 1][..i] == records[..i];
        var id := IdOf(appointment);
        if id.Err? {
          FirstFaultSettles(records, i + 1, IdFaultOf());
          return Err(id.error);
        }
        if id.value == appointmentId {
          deleted := Some(appointment);
        } else {
          kept := kept + [appointment];
        }
        i := i + 1;
      }
      assert records[..i] == records;
      if deleted.None? {
        RemoveAbsentId(records, appointmentId);
      }
      records := kept;
      r := DeleteMessage(deleted);
    }

    /** `create_appointment`: the checks of `Admission`, made by calling the
        roster lookup, the day query and the capacity count, then an append.
        A rejected or failed request leaves the store as it was. */
    method Create(roster: seq<Doctor>, doctorId: int, body: Json) returns (r: Result<Appointment>)
      modifies this
      ensures r == Admission(roster, old(records), doctorId, body)
      ensures records == if r.Ok? then old(records) + [r.value] else old(records)
    {
      if !ValidateAppointmentData(body) {
        return Err(Rejected(BadAppointmentData));
      }
      var known := DoctorExists(roster, doctorId);
      if !known {
        return Err(Rejected(UnknownDoctor(doctorId)));
      }
      var fields := body.fields;
      if "time" !in fields {
        return Err(Crashed(KeyMissing("time")));
      }
      var time := fields["time"].str;
      var timeCheck := ValidateTime(time);
      if timeCheck.Err? {
        return Err(timeCheck.error);
      }
      if !timeCheck.value {
        return Err(Rejected(BadTime));
      }
      if "date" !in fields {
        return Err(Crashed(KeyMissing("date")));
      }
      var current := DayQuery(roster, doctorId, fields["date"].str);
      match current {
        case Err(Crashed(f)) =>
          return Err(Crashed(f));
        case Err(Rejected(_)) =>
          return Err(Crashed(ReplyHasNoJson));
        case Ok(NoneFound) =>
        case Ok(Listed(items)) =>
          var verdict := ValidateAppointmentCount(items, time);
          if verdict.Err? {
            return Err(verdict.error);
          }
          if !verdict.value {
            return Err(Rejected(SlotFull(time)));
          }
      }
      records := records + [fields];
      return Ok(fields);
    }
  }
}
