/** The request validators of the scheduler: the JSON-schema check of a new
    appointment, the roster lookup and the per-slot capacity count. */
module Validators {
  import opened Outcomes
  import opened JsonData
  import opened Seqs

  /** The JSON-schema primitive types the appointment schema names. */
  datatype JsonType = NumberType | StringType | BooleanType

  /** jsonschema's type test. A bool is not a "number" to jsonschema. */
  predicate HasType(v: Json, ty: JsonType) {
    match ty
    case NumberType => v.JNumber?
    case StringType => v.JString?
    case BooleanType => v.JBool?
  }

  /** The `properties` of the appointment schema; the schema lists no
      `required` keys and allows additional ones. */
  const AppointmentProperties: seq<(string, JsonType)> := [
    ("id", NumberType),
    ("first_name", StringType),
    ("last_name", StringType),
    ("date", StringType),
    ("doctor_id", NumberType),
    ("new_patient", BooleanType),
    ("time", StringType)
  ]

  /** `validate_appointment_data`: the body is an object and every listed
      property that is present has its declared type; absent and extra keys
      are accepted. */
  function ValidateAppointmentData(v: Json): (ok: bool)
    ensures ok <==>
      && v.JObject?
      && ("id" in v.fields ==> v.fields["id"].JNumber?)
      && ("doctor_id" in v.fields ==> v.fields["doctor_id"].JNumber?)
      && ("first_name" in v.fields ==> v.fields["first_name"].JString?)
      && ("last_name" in v.fields ==> v.fields["last_name"].JString?)
      && ("date" in v.fields ==> v.fields["date"].JString?)
      && ("time" in v.fields ==> v.fields["time"].JString?)
      && ("new_patient" in v.fields ==> v.fields["new_patient"].JBool?)
  {
    && v.JObject?
    && var props := AppointmentProperties;
      assert props[0] == ("id", NumberType) && props[1] == ("first_name", StringType);
      assert props[2] == ("last_name", StringType) && props[3] == ("date", StringType);
      assert props[4] == ("doctor_id", NumberType) && props[5] == ("new_patient", BooleanType);
      assert props[6] == ("time", StringType);
      forall i :: 0 <= i < |props| ==> props[i].0 in v.fields ==> HasType(v.fields[props[i].0], props[i].1)
  }

  /** Some roster entry carries the id. */
  predicate OnRoster(roster: seq<Doctor>, doctorId: int) {
    exists i :: 0 <= i < |roster| && roster[i].id == doctorId
  }

  /** `check_if_doctor_exists`: a linear scan of the roster that stops at the
      first entry with the id. */
  method DoctorExists(roster: seq<Doctor>, doctorId: int) returns (found: bool)
    ensures found <==> OnRoster(roster, doctorId)
  {
    var i := 0;
    while i < |roster|
      invariant 0 <= i <= |roster|
      invariant forall j :: 0 <= j < i ==> roster[j].id != doctorId
    {
      if roster[i].id == doctorId {
        return true;
      }
      i := i + 1;
    }
    return false;
  }

  /** The record is booked at `time`: Python's `appointment['time'] == time`
      when the key is present. */
  predicate BookedAt(a: Appointment, time: string) {
    "time" in a && a["time"] == JString(time)
  }

  function BookedAtTime(time: string): Appointment -> bool {
    a => BookedAt(a, time)
  }

  /** How many of `xs` are booked at `time`. */
  function TimeCount(xs: seq<Appointment>, time: string): nat {
    |Filter(xs, BookedAtTime(time))|
  }

  /** What `validate_appointment_count` returns for `xs`, element by element:
      it reads each record's `time` (a KeyError when absent) and answers
      `false` as soon as 3 records share the candidate's time. */
  function SlotVerdict(xs: seq<Appointment>, time: string): (r: Result<bool>)
    ensures r == Ok(true) ==> TimeCount(xs, time) < 3
    ensures r == Ok(false) ==> TimeCount(xs, time) >= 3
    ensures r.Err? ==> r.error == Crashed(KeyMissing("time"))
    ensures (forall i :: 0 <= i < |xs| ==> "time" in xs[i]) ==> r == Ok(TimeCount(xs, time) < 3)
  {
    if xs == [] then Ok(true)
    else
      var before := SlotVerdict(xs[..|xs| - 1], time);
      if before != Ok(true) then before
      else if "time" !in xs[|xs| - 1] then Err(Crashed(KeyMissing("time")))
      else Ok(TimeCount(xs, time) < 3)
  }

  /** After the scan of a prefix has stopped, the rest of the list is never
      read: the verdict for the whole list is the prefix's. */
  lemma {:induction false} SlotVerdictSettles(xs: seq<Appointment>, i: nat, time: string)
    requires i <= |xs|
    requires SlotVerdict(xs[..i], time) != Ok(true)
    ensures SlotVerdict(xs, time) == SlotVerdict(xs[..i], time)
  {
    if i < |xs| {
      var xs' := xs[..|xs| - 1];
      assert xs'[..i] == xs[..i];
      SlotVerdictSettles(xs', i, time);
    } else {
      assert xs[..i] == xs;
    }
  }

  /** `validate_appointment_count`: the counting loop with its early exit. */
  method ValidateAppointmentCount(current: seq<Appointment>, time: string) returns (r: Result<bool>)
    ensures r == SlotVerdict(current, time)
    ensures r == Ok(true) ==> TimeCount(current, time) < 3
    ensures r == Ok(false) ==> TimeCount(current, time) >= 3
    ensures (forall i :: 0 <= i < |current| ==> "time" in current[i]) ==> r == Ok(TimeCount(current, time) < 3)
  {
    var count := 0;
    var i := 0;
    while i < |current|
      invariant 0 <= i <= |current|
      invariant SlotVerdict(current[..i], time) == Ok(true)
      invariant count == TimeCount(current[..i], time)
    {
      var appointment := current[i];
      assert current[..i + 1][..i] == current[..i];
      if "time" !in appointment {
        SlotVerdictSettles(current, i + 1, time);
        return Err(Crashed(KeyMissing("time")));
      }
      if appointment["time"] == JString(time) {
        count := count + 1;
      }
      if count >= 3 {
        SlotVerdictSettles(current, i + 1, time);
        return Ok(false);
      }
      i := i + 1;
    }
    assert current[..i] == current;
    return Ok(true);
  }
}
