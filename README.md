# Hospital records: a verified model of the store and the billing workflow

The hospital record tool keeps five keyed tables: patients, doctors,
appointments, the service catalog and bills. It also keeps a usage ledger,
`temp_service_usage`, where services are staged per patient until that patient
is billed. Most operations validate their input fields in a fixed order, then
read and write the tables; `Patient.delete` and the ledger's read and clear
validate nothing. This project models that logic over an abstract
store:

- `Store.Db` holds the five tables as `map`s keyed by ID and the ledger as a
  `seq<UsageEntry>` in insertion order.
- `Store.Outcome` stands for the printed messages: `Ok`, `Invalid(field)`,
  `NotFound`, `NoServices`, `PatientMissing`, `DoctorMissing` and `Duplicate`.
- Each operation of `service.py`, `billing.py`, `appointment.py`, `patient.py`
  and `doctor.py` is a function `Op(db, ...): Step` in the module named after
  its entity. Its contract states the outcome and the new store.
- `Hospital.Database` is a class whose fields are the tables. Its methods run
  each operation statement by statement, in place, as the source does. Each
  method is proved to report the outcome and reach the state that the matching
  function specifies, and to keep `Store.Consistent`. That invariant says every
  stored row and ledger entry is one the validators admit.

Modules:

- `Text`: character classes and validators, Python's `int()` on strings, and
  dates.
- `Ledger`: per-patient selection, clearing and totals over the usage ledger.
- `Store`: rows, the store and outcomes.
- `Services`, `Billing`, `Appointments`, `Patients`, `Doctors`: the operations.
- `Hospital`: the in-place database.
- `Scenarios`: a worked run that registers a patient, stages three services and
  bills them.

Billing follows the code. Once validation has passed, the patient has staged
entries and the patient exists, the patient's staged usage is cleared whatever
the write did. So an add whose bill ID already exists keeps the old bill row
but still drops the staged usage. An update that matches no bill writes
nothing but also drops it. One might expect the ledger to be kept in those two
cases, but the code swallows the insert error and runs the clear after the
`try` block, and the model follows the code. A missing
patient returns inside the `try` block, so the clear is skipped.

Inputs the tool reads from outside are parameters: today's date for a bill
with no date, and the result of `float()` on a cost (`None` when it raises).
Today's date is meant to be a calendar date, as the system clock writes it;
`Billing.TodayPassesDateCheck` shows such a date always passes the date check.

## Model

| member | source | states |
|---|---|---|
| Billing.DateOrToday | billing.py:10 | a missing or empty billing date becomes today's date; any other date is kept as given |
| Billing.Validate | billing.py:14-26 | bill ID, patient ID, date, checked in that order; Ok exactly when both IDs are alphanumeric and the date is a calendar date; each field is reported exactly when it is the first to fail, so the reported field is the first failing one |
| Billing.Charge | billing.py:29-48 | the bill row carries the patient, the date and the total of that patient's staged entries; that total plus the total of every other patient's entries is the total of the whole ledger, so no other entry contributes and none is counted twice |
| Billing.Add | billing.py:12-67 | invalid input changes nothing; NoServices exactly when validation passes and the patient has no staged entries, and then nothing changes; a missing patient means nothing is written and the ledger is not cleared; Ok exactly when the bill ID is new, and then the row is (patient, total of that patient's entries, date); Duplicate exactly when the patient exists and the bill ID is already taken, and then the existing row is kept; on Ok and on Duplicate the patient's entries are removed and every other patient's entries are unchanged; no other table changes |
| Billing.Update | billing.py:69-119 | same validation and NoServices/PatientMissing paths as add; Ok exactly when the bill exists, and then patient, total and date of the row are overwritten; NotFound exactly when the patient exists and no bill has that ID, and then bills are unchanged, yet the patient's entries are still cleared; no other table changes |
| Billing.Delete | billing.py:121-136 | an invalid ID is refused with no change; Ok removes only that row; an absent ID is NotFound with no change; the ledger is never touched |
| Billing.TodayPassesDateCheck | billing.py:10-26 | when no billing date is given and today's date is a calendar date, the date check cannot fail |
| Billing.RebillFindsNothing | billing.py:29-32 | after a successful bill, billing the same patient again by add or update finds no staged services |
| Billing.ChargeBounds | billing.py:35 | in a consistent store a bill total is non-negative and at most 5000 times the number of entries summed |
| Billing.WrittenKeepsConsistent | billing.py:47-48 | writing a validated bill row keeps the store consistent |
| Billing.AddKeepsConsistent | billing.py:12-67 | bill add keeps the store consistent |
| Billing.UpdateKeepsConsistent | billing.py:69-119 | bill update keeps the store consistent |
| Billing.DeleteKeepsConsistent | billing.py:121-136 | bill delete keeps the store consistent |
| Ledger.ForPatient | service.py:155-158 | the selection holds exactly the ledger entries whose patient ID matches, and is no longer than the ledger |
| Ledger.WithoutPatient | service.py:171 | the cleared ledger holds exactly the entries of other patients |
| Ledger.Total | billing.py:35 | when every cost lies in 0..5000, the sum lies between 0 and 5000 times the number of entries |
| Ledger.ForPatientAppend | service.py:140-141 | appending an entry extends only its own patient's selection |
| Ledger.WithoutPatientAppend | service.py:171 | appending an entry keeps it after a clear of any other patient |
| Ledger.TotalAppend | billing.py:35 | the total of one more entry is the old total plus its cost |
| Ledger.TotalConcat | billing.py:35 | the total of two runs of entries joined is the sum of their totals |
| Ledger.TotalPermutation | service.py:155 | two ledgers holding the same entries in any order have the same total, so the row order the query returns cannot change a bill |
| Ledger.TotalSplit | billing.py:29-35 | a patient's total plus the total of the other patients' entries is the total of the whole ledger |
| Ledger.Partition | service.py:155-171 | a patient's entries and the cleared ledger together make up the whole ledger, as multisets |
| Ledger.ClearedHasNone | service.py:171-174 | after a clear the patient has no staged entries |
| Ledger.ClearKeepsOthers | service.py:171-174 | a clear does not change any other patient's entries |
| Ledger.KeepsForeign | service.py:171 | a ledger with no entry of the patient is unchanged by the clear |
| Ledger.ClearAbsent | service.py:171-174 | clearing a patient with no staged entries changes nothing |
| Ledger.ClearIdempotent | service.py:171-174 | clearing twice is the same as clearing once |
| Ledger.SelectionsWellFormed | service.py:155-171 | selecting or clearing a patient keeps every entry well formed |
| Services.Validate | service.py:15-29 | ID, name, cost, checked in that order; Ok exactly when the ID is alphanumeric, the name is letters, digits, whitespace, `-` and `_`, and the cost parses and lies in 0..5000; each field is reported exactly when it is the first to fail, so the reported field is the first failing one |
| Services.Add | service.py:13-42 | invalid input changes nothing; Ok exactly when the ID is new, and then only that row is added; an existing ID is Duplicate with no change |
| Services.Update | service.py:44-75 | Ok exactly when the row exists, and then only its name and cost change; otherwise NotFound and no change; the ledger is never touched |
| Services.Delete | service.py:77-92 | an invalid ID is refused; Ok removes only that row; an absent ID is NotFound |
| Services.Attribute | service.py:117-143 | an invalid patient ID or service is refused with no change; otherwise exactly one entry (patient, service ID, name, cost) is appended, the patient's selection grows by that entry, its total grows by the cost, and other patients' selections are unchanged; neither the patient nor the catalog row is looked up |
| Services.Clear | service.py:167-174 | always Ok; the patient has no entries left; other patients' entries are unchanged; the removed entries and the remaining ledger together are the old ledger |
| Services.CostRange | service.py:23-26 | the cost range is closed: 0 and 5000 are accepted, costs outside it and costs that do not parse are refused as Invalid(Cost) |
| Services.ClearTwice | service.py:167-174 | a second clear of the same patient is a no-op |
| Services.UpdateKeepsSnapshots | service.py:64-65 | changing a catalog price does not change any staged total |
| Services.AddKeepsConsistent | service.py:13-42 | service add keeps the store consistent |
| Services.UpdateKeepsConsistent | service.py:44-75 | service update keeps the store consistent |
| Services.DeleteKeepsConsistent | service.py:77-97 | service delete keeps the store consistent |
| Services.AttributeKeepsConsistent | service.py:117-148 | attribution keeps every ledger entry well formed |
| Services.ClearKeepsConsistent | service.py:167-179 | a clear keeps the store consistent |
| Appointments.Validate | appointment.py:15-31 | appointment ID, patient ID, doctor ID, date, diagnosis, in that order; Ok exactly when the IDs are alphanumeric, the date is a calendar date and the diagnosis is non-empty letters or whitespace; each field is reported exactly when it is the first to fail, so the reported field is the first failing one |
| Appointments.References | appointment.py:37-45 | the patient is looked up before the doctor: PatientMissing exactly when the patient is absent, DoctorMissing exactly when the patient exists and the doctor does not |
| Appointments.Add | appointment.py:13-55 | invalid input or a missing patient or doctor changes nothing; Ok exactly when both exist and the ID is new, and then only that row is added; an existing ID is Duplicate |
| Appointments.Update | appointment.py:57-102 | a missing patient or doctor changes nothing; Ok exactly when both exist and the row exists, and then patient, doctor, date and diagnosis of that row are rewritten; otherwise NotFound |
| Appointments.Delete | appointment.py:104-119 | an invalid ID is refused; Ok removes only that row; an absent ID is NotFound |
| Appointments.WrittenRowsReferToExisting | appointment.py:37-48 | a written appointment names a patient and a doctor that exist |
| Appointments.AddKeepsConsistent | appointment.py:13-55 | appointment add keeps the store consistent |
| Appointments.UpdateKeepsConsistent | appointment.py:57-102 | appointment update keeps the store consistent |
| Appointments.DeleteKeepsConsistent | appointment.py:104-124 | appointment delete keeps the store consistent |
| Text.WithoutSpaces | patient.py:27 | removing spaces keeps exactly the characters other than ' ' and never lengthens the string |
| Text.PatientNameChars | patient.py:27 | a patient name is accepted exactly when every character is a letter or a space and at least one is a letter |
| Text.TrimStart | patient.py:18 | `int()` drops leading whitespace (tab to carriage return, and space): the result is a suffix that does not start with such a character, and every character dropped is one |
| Text.TrimEnd | patient.py:18 | `int()` drops trailing whitespace (tab to carriage return, and space): the result is a prefix that does not end with such a character, and every character dropped is one |
| Text.SeparatorIsNoIntSpace | patient.py:18 | 0x1C is whitespace to `isspace` but not to `int()`, so "\x1c5" is refused as a patient ID |
| Text.ParseInt | patient.py:18-33 | `int()` of a string succeeds exactly when, once surrounding tab-to-carriage-return and space characters are dropped, it is a run of digits (single `_` between digits allowed), optionally after one `+` or `-`, and holds at most 4300 digit characters (the interpreter's default `int()` limit; leading zeros count, `_` and the sign do not); the value is the digits' magnitude, negated after `-`, and it is written back in at most 4300 digits |
| Text.Decimal | patient.py:61 | a stored integer key is written as a non-empty run of digits |
| Text.DecimalMagnitude | patient.py:61 | the digits of a key read back as its number |
| Text.ParseDigits | patient.py:18 | `int()` of a string of at most 4300 digits is its value, and a longer string of digits is refused |
| Text.ParseDecimal | patient.py:18-61 | `int()` of a canonical decimal within the digit limit gives back its number |
| Text.DecimalIsAlnumId | patient.py:61 | a stored patient key is a valid alphanumeric ID for billing and appointments |
| Text.CalendarDays | billing.py:23 | `strptime` with `%Y-%m-%d` (also appointment.py:25 and patient.py:96), as `IsCalendarDate`: days up to 28 are valid in every month; day 29 fails only in February of a non-leap year; day 30 fails only in February; day 31 is valid only in the seven long months; no day above 31 is valid |
| Patients.PatientNumber | patient.py:17-24 | an ID is accepted exactly when `int()` reads it as a number greater than 0, and the number is that value |
| Patients.ValidateAdd | patient.py:15-54 | ID, name, age, gender, date, contact in that order; Ok exactly when the ID is a positive integer, the name is valid, `int(age)` is in 0..120, the gender is M, F or Other, the date has the shape dddd-dd-dd and the contact is at least ten digits; each field is reported exactly when it is the first to fail, so the reported field is the first failing one |
| Patients.ValidateUpdate | patient.py:71-102 | as add, except the age must already be an int in 1..120 and the date must be a real calendar date; each field is reported exactly when it is the first to fail, so the reported field is the first failing one |
| Patients.Add | patient.py:15-68 | invalid input changes nothing; the row is stored under the canonical decimal of the parsed ID, as Ok when that key is new and Duplicate otherwise |
| Patients.Update | patient.py:71-115 | invalid input changes nothing; valid input is always Ok; the row with the ID as given is rewritten when it exists, and nothing changes when it does not |
| Patients.Delete | patient.py:117-125 | no validation; always Ok; only the row with that ID, if any, is removed |
| Patients.AddStoresNumber | patient.py:61 | after an add there is a new key that `int()` reads as the caller's ID and that is a valid alphanumeric ID |
| Patients.LongIdRefused | patient.py:17-24 | a patient ID of more than 4300 digits, such as 4300 zeros then 1, is refused as Invalid(PatientId) and nothing is stored |
| Patients.AgeZero | patient.py:33-36 | age 0 passes add and fails update |
| Patients.TextAgeOnlyForAdd | patient.py:33-36 | a text age passes add exactly when `int()` reads it as 0..120, and never passes update |
| Patients.UpdateAgeIsAddAge | patient.py:86 | every age update accepts, add accepts too |
| Patients.ShapeIsNotCalendar | patient.py:47 | 2023-02-30 has the date shape add checks but is not a calendar date, so update refuses it |
| Patients.BlankName | patient.py:27 | a name of spaces only is refused |
| Patients.AddKeepsConsistent | patient.py:15-68 | patient add keeps the store consistent |
| Patients.UpdateKeepsConsistent | patient.py:71-115 | patient update keeps the store consistent |
| Patients.DeleteKeepsConsistent | patient.py:117-130 | patient delete keeps the store consistent |
| Doctors.Validate | doctor.py:13-24 | ID, name, specialization, contact in that order; Ok exactly when the ID is alphanumeric with a letter, name and specialization are non-empty letters or whitespace, and the contact is at least ten digits; each field is reported exactly when it is the first to fail, so the reported field is the first failing one |
| Doctors.Add | doctor.py:11-37 | invalid input changes nothing; Ok exactly when the ID is new, and then only that row is added; an existing ID is Duplicate |
| Doctors.Update | doctor.py:39-68 | Ok exactly when the row exists, and then only name, specialization and contact change; otherwise NotFound and no change |
| Doctors.Delete | doctor.py:70-85 | an invalid ID is refused; Ok removes only that row; an absent ID is NotFound |
| Doctors.DigitsAreNoDoctorId | doctor.py:13 | an ID of digits only is never a doctor ID |
| Doctors.BlankDoctorName | doctor.py:16 | a doctor's name may be whitespace only, while a patient's may not |
| Doctors.AddKeepsConsistent | doctor.py:11-37 | doctor add keeps the store consistent |
| Doctors.UpdateKeepsConsistent | doctor.py:39-68 | doctor update keeps the store consistent |
| Doctors.DeleteKeepsConsistent | doctor.py:70-90 | doctor delete keeps the store consistent |
| Store.PatientsWrite | patient.py:60-61 | writing a valid patient row under a valid key keeps the patients table valid |
| Store.AppointmentsWrite | appointment.py:47-48 | writing a valid appointment row under a valid ID keeps the appointments table valid |
| Hospital.Database.AddService | service.py:13-42 | the in-place add ends in the state and outcome of Services.Add and keeps consistency |
| Hospital.Database.UpdateService | service.py:44-75 | the in-place update ends as Services.Update specifies and keeps consistency |
| Hospital.Database.DeleteService | service.py:77-97 | the in-place delete ends as Services.Delete specifies and keeps consistency |
| Hospital.Database.AttributeService | service.py:117-148 | the in-place append ends as Services.Attribute specifies and keeps consistency |
| Hospital.Database.ServicesForPatient | service.py:151-164 | returns exactly the staged entries of that patient and changes nothing |
| Hospital.Database.ClearServicesForPatient | service.py:167-179 | the in-place clear ends as Services.Clear specifies and keeps consistency |
| Hospital.Database.AddBill | billing.py:12-67 | the six steps run in place end in the state and outcome of Billing.Add and keep consistency |
| Hospital.Database.UpdateBill | billing.py:69-119 | the six steps run in place end as Billing.Update specifies and keep consistency |
| Hospital.Database.DeleteBill | billing.py:121-141 | the in-place delete ends as Billing.Delete specifies and keeps consistency |
| Hospital.Database.AddAppointment | appointment.py:13-55 | ends as Appointments.Add specifies and keeps consistency |
| Hospital.Database.UpdateAppointment | appointment.py:57-102 | ends as Appointments.Update specifies and keeps consistency |
| Hospital.Database.DeleteAppointment | appointment.py:104-124 | ends as Appointments.Delete specifies and keeps consistency |
| Hospital.Database.AddPatient | patient.py:15-68 | ends as Patients.Add specifies and keeps consistency |
| Hospital.Database.UpdatePatient | patient.py:71-115 | ends as Patients.Update specifies and keeps consistency |
| Hospital.Database.DeletePatient | patient.py:117-130 | ends as Patients.Delete specifies and keeps consistency |
| Hospital.Database.AddDoctor | doctor.py:11-37 | ends as Doctors.Add specifies and keeps consistency |
| Hospital.Database.UpdateDoctor | doctor.py:39-68 | ends as Doctors.Update specifies and keeps consistency |
| Hospital.Database.DeleteDoctor | doctor.py:70-90 | ends as Doctors.Delete specifies and keeps consistency |
| Scenarios.Registered | patient.py:15-61 | registering patient "1" stores exactly one row under key "1" |
| Scenarios.Staged | service.py:117-143 | staging services costing 100.0, 250.5 and 49.5 appends three entries whose total is 400.0 |
| Scenarios.BillThreeServices | billing.py:12-67 | billing those three services writes one bill of 400.0 dated today (no billing date given) and leaves nothing staged for the patient |
| Scenarios.HyphenatedBillId | billing.py:14 | a bill ID with a hyphen is refused by add, update and delete with no change |

## Left out

- Connections, cursors, `commit`, `close` and every printed message are left out. Outcomes are the `Outcome` datatype.
- The `view()` methods and `filter_appointments` are left out. They only print query results or read from the console.
- IEEE floating point is left out. Costs and totals are exact `real`s. `float()` of a cost is a parameter (`None` when it raises). So "nan", "inf" and rounding in the sum are not modelled.
- Services.Add, Services.Update, Services.Attribute: the catalog row and the ledger entry store the parsed cost, whereas the source writes the caller's original cost value (service.py:35, service.py:65, service.py:141).
- `datetime.strptime` accepts a one-digit month or day, and a day padded with a space ("2024-01- 5"). The model requires the exact `YYYY-MM-DD` shape.
- Character classes are ASCII. Unicode letters, digits and whitespace for `isalpha`, `isdigit`, `isspace`, `\s` and `int()` are not modelled. Neither is the regular-expression `$` matching before a trailing newline.
- The `isinstance(..., str)` checks and non-string inputs are left out. IDs and names are strings. A `bool` passed as an age is not distinguished from an `int`.
- Patients.Update and Patients.Delete: the database's coercion between numeric and text patient IDs is left out. Add stores the canonical decimal of the parsed ID. Update, delete, billing and appointments compare IDs as the strings given, so "01" does not match key "1".
- Storage-layer details are left out. IDs are compared as exact strings; under a case-insensitive collation "p1" and "P1" would select and clear the same ledger entries, and "b1" would collide with "B1" as a duplicate bill. A MySQL `rowcount` counts changed rather than matched rows, so an update that rewrites identical values would report not found there. The model reports Ok whenever the row exists.
- The only insert failure modelled is a duplicate key. Foreign-key and other storage errors are not modelled. Neither is `get_services_for_patient` returning `[]` on an error.
- There is no atomicity across the steps of a bill and no concurrency. The commented-out `billed_services` block does not exist in the code.
- Ledger.ForPatient and Hospital.Database.ServicesForPatient return a patient's entries in ledger order. The query at service.py:155 has no `ORDER BY`, so the database may return them in another order. Ledger.TotalPermutation shows that the bill total does not depend on that order.
