# Appointment scheduler: validation and store model

This project models the decision logic of a small Flask appointment-scheduling
API. Clients query a doctor's appointments on a date, create an appointment,
and delete one. The model covers the validators the handlers use: the
`YYYY-MM-DD` date check, the quarter-hour `HH:MM` time check, the JSON-schema
check of a new appointment, the roster lookup, and the rule that at most three
appointments share a slot. It also covers the three handlers over an
in-memory store.

- `AppointmentStore.records` stands in for `appointments.txt`. Every handler
  reads that file whole. Only delete and create write it back, and each
  rewrites it whole. A `seq<Doctor>` passed to each handler stands in for
  `doctors.txt`.
- Stored appointments are JSON objects (`map<string, Json>`), as `json.loads`
  returns them. The model does not assume a record has any particular key.
- Every Python exception the handlers leave uncaught while reading a request
  body or a stored appointment is an explicit `Err(Crashed(..))` outcome: a
  `KeyError` on a lookup, `int()` on a value it
  cannot convert, the `ValueError` from `validate_time`, and `.json` read from
  the day query's error tuple. Every 400 reply is an `Err(Rejected(..))` outcome.
  A rejected or crashed request leaves the store as it was. The one exception
  is delete: it rewrites the store before composing its reply.
- Date and time parsing follows the regular expressions that Python's
  `_strptime` builds for `%Y`, `%m`, `%d`, `%H` and `%M`. It takes the first
  matching alternative and the whole string must be consumed. Formatting
  zero-pads every field. `validate_date` and `validate_time` accept exactly
  the strings that survive this parse and reformat.

Behaviour of the code that a reader may not expect:

- A malformed time makes `validate_time` raise. `create_appointment` does not
  catch it, so the reply is an error 500, not a 400 with a reason.
- Delete removes every record whose `int(id)` equals the requested id, and
  the reply names the last one. The doctor id in the URL is only checked
  against the roster. It is not used to select records.
- Create checks the capacity of the URL's doctor on the body's date. The stored
  record keeps the body's own `doctor_id`, which is never compared with the URL.
  So the at-most-three rule holds for a slot only when the two ids agree
  (`AdmissionKeepsSlotWithinCapacity`). When they differ, a fourth booking can
  reach a full slot (`BodyDoctorIdEscapesCapacity`, `BodyDoctorIdExample`).
- When the day query finds nothing, it answers with a 200 message. Create then
  skips the capacity count.

## Model

| member | source | states |
|---|---|---|
| `DateTime.ParseDate` | app.py:107 | `strptime(s, "%Y-%m-%d")` yields only dates that exist: year 1–9999, month 1–12, a day within the month's length with leap years counted |
| `DateTime.DateRoundTrip` | app.py:107 | formatting a real date and parsing it back gives the same date, and `validate_date` accepts the formatted string |
| `DateTime.ValidateDateIff` | app.py:105-111 | `validate_date(s)` is true exactly when `s` is 10 characters: digits except `-` at positions 4 and 7, a year of at least 1, month 01–12 and day 01 to the month's length. So "2024-2-5" and "2024-02-30" are false, and a malformed string is false rather than an exception |
| `DateTime.ParseTime` | app.py:140 | `strptime(s, "%H:%M")` yields only hours 0–23 and minutes 0–59 |
| `DateTime.ValidateTimeIff` | app.py:139-146 | `validate_time(s)` raises on every string that is not a zero-padded 24-hour `HH:MM` ("9:15" and "25:00" included). On a well-formed time it returns true exactly when the minute is 0, 15, 30 or 45 |
| `Validators.ValidateAppointmentData` | app.py:120-137 | the body passes the schema exactly when it is a JSON object whose present keys have their types: `id` and `doctor_id` numbers; `first_name`, `last_name`, `date` and `time` strings; `new_patient` a boolean. Missing and extra keys are accepted |
| `Validators.DoctorExists` | app.py:113-118 | the early-exit scan returns true exactly when some roster entry has the id |
| `Validators.SlotVerdict` | app.py:148-155 | the capacity verdict is true only when fewer than 3 records share the time, and false only when at least 3 do. The only error it gives is a missing `time` key. When every record has a time, it is exactly "fewer than 3 share the time" |
| `Validators.SlotVerdictSettles` | app.py:153-154 | once the scan of a prefix has returned false or failed, the rest of the list does not change the verdict: the early return agrees with the full count |
| `Validators.ValidateAppointmentCount` | app.py:148-155 | the counting loop with early exit returns the capacity verdict: true means fewer than 3 records at the time, false means 3 or more, and with every time present it is exactly the count test |
| `Appointments.DayQueryOutcome` | app.py:22-41 | the query is refused with a 400 exactly when the date is missing or not `YYYY-MM-DD`, or the doctor is not on the roster. Otherwise it succeeds when every stored record has `date`, and has `doctor_id` whenever its date matched. Any other failure is the `KeyError` of the first record that breaks this. A success lists exactly the matching records; "none found" means that no record matches |
| `Appointments.DayScanStep` | app.py:34-36 | one pass of the scan: the record either raises its `KeyError`, which becomes the scan's failure, or it extends the scanned prefix and is appended exactly when it matches |
| `Appointments.DayFilterMembers` | app.py:34-36 | a record is listed exactly when it is stored and both its `date` and its `doctor_id` match |
| `Appointments.DayFilterConcat` | app.py:34-36 | the listing keeps store order: listing a concatenation concatenates the listings |
| `Appointments.AppointmentStore.DayQuery` | app.py:22-41 | the handler's loop returns the day-query outcome for the current store and changes nothing, so asking twice gives the same answer |
| `Appointments.RemoveIdMembers` | app.py:58-62 | after a delete, a record remains exactly when it was stored and its id differs. Every duplicate of the id goes |
| `Appointments.RemoveAbsentId` | app.py:58-62 | deleting an id that no record has leaves the store equal to what it was |
| `Appointments.RemoveIdTwice` | app.py:58-62 | deleting the same id twice gives the same store as deleting it once |
| `Appointments.RemoveSoleMatch` | app.py:57-62 | when exactly one record has the id, the delete removes that record and keeps the others in order, and the reply names that record |
| `Appointments.DeleteMessage` | app.py:67-70 | the reply is "No appointment found." exactly when nothing was deleted. It raises exactly when the deleted record lacks `first_name`, `last_name` or `date`, and otherwise names that record |
| `Appointments.AppointmentStore.Delete` | app.py:47-70 | An unknown doctor is refused with the store unchanged. A record whose id is missing or not an integer aborts the request, again with the store unchanged. Otherwise the store becomes the old store minus every record with the id, in order, and the reply names the last such record. "No appointment found." leaves the store as it was |
| `Appointments.Admission` | app.py:75-103 | a body that fails the schema is refused for its format. A schema-valid body for a doctor not on the roster is refused for the doctor. After those, a malformed time raises and an off-quarter time is refused. An accepted body is a schema-valid object with a quarter-hour time and a real date, and the reply is the body itself |
| `Appointments.AppointmentStore.Create` | app.py:75-103 | the handler answers the admission outcome. On acceptance the store becomes the old store with the body appended; on any rejection or failure it is unchanged |
| `SchedulingProperties.CreatedRecordIsListed` | app.py:91-103 | after an accepted create whose body names the URL's doctor, the day query for that doctor and date lists the earlier matches followed by the created record, every field unchanged |
| `SchedulingProperties.AdmittedSlotHadRoom` | app.py:86-89 | an accepted body's slot had room: the URL's doctor held fewer than 3 appointments that day at its time |
| `SchedulingProperties.AdmissionKeepsSlotWithinCapacity` | app.py:86-89 | an accepted create whose body names the URL's doctor adds exactly one booking at its slot, and that slot then holds at most 3, whatever the store held before |
| `SchedulingProperties.FullSlotRefused` | app.py:86-89 | a body that passes the earlier checks is refused as a full slot when the doctor already has 3 or more appointments that day at its time |
| `SchedulingProperties.FreeSlotAdmitted` | app.py:86-103 | a body that passes the earlier checks is accepted, and answered with itself, when the doctor has fewer than 3 appointments that day at its time |
| `SchedulingProperties.FourthBookingRefused` | app.py:86-89 | with three bookings of a doctor at one slot, a fourth booking at that slot is refused |
| `SchedulingProperties.OtherQuarterAccepted` | app.py:82-103 | with the same three bookings, a booking at a different quarter-hour time is accepted |
| `SchedulingProperties.FullSlotExample` | app.py:86-89 | doctor 7 has three 10:00 bookings on 2024-06-01, and a fourth booking at 10:00 is refused as full |
| `SchedulingProperties.QuarterPastExample` | app.py:82-103 | with the same three 10:00 bookings, a booking at 10:15 is accepted |
| `SchedulingProperties.BodyDoctorIdEscapesCapacity` | app.py:86-101 | a create sent to one doctor, whose body names a second doctor with a full slot, is accepted and leaves that second doctor with 4 bookings at the slot |
| `SchedulingProperties.BodyDoctorIdExample` | app.py:86-101 | a POST for doctor 7 whose body says `doctor_id` 8 is accepted even though doctor 8 already holds three 10:00 bookings on 2024-06-01 |

## Left out

- Flask routing, `request`, `jsonify`, the welcome route, `GET /doctors/` (it returns the roster file's text) and `app.run`: these are framework glue.
- File I/O: reading and rewriting `doctors.txt` and `appointments.txt` and serialising them with `json.dumps`. The store field and the roster parameter replace them. Create's branch for an empty appointments file is not modelled. The day query it calls first would already have failed in `json.loads` on such a file.
- Malformed JSON in the request body or in the files: the handlers receive decoded values.
- Stored elements that are not JSON objects: the store holds objects only.
- Floating-point JSON numbers: `JNumber` carries integers only.
- Unicode digits that Python's `\d` and `int()` accept: only ASCII digits are modelled. Dates and times written with other digits fail the round trip either way.
- `JsonData.IntOf`: converts numbers, booleans and plain ASCII digit strings. Strings with a sign, surrounding whitespace or underscores, which Python's `int()` also accepts, are treated as not convertible. The schema check never lets such an id into the store.
- `DateTime.ValidateDate`: formats years 1–999 with four digits, so a string such as "0999-01-01" is accepted. Some platforms' `strftime("%Y")` writes such years without zero padding, and there `validate_date` rejects them. Years 1000–9999 behave the same everywhere.
- `Appointments.AppointmentStore.Delete`: takes `appointment_id` already converted by `int()`. A missing or non-numeric query parameter, which raises inside the loop as soon as the store is non-empty, is not modelled.
- `Validators.DoctorExists`: roster entries are assumed to carry an integer `id`. The scan of `check_if_doctor_exists` reads `doctor['id']` and compares it with Python's `==`. So an entry without `id` would raise `KeyError`, an `id` of `true` would equal 1, and a string `"7"` would not equal 7. None of these roster cases is modelled.
- Reply texts: the model returns the reply's kind and the values it names, not the formatted message strings.
- Concurrent requests: the source does nothing to serialise the read-modify-write of the file.
