# Hospital records: regrouping, exports, session and medication choice

This project models, in Dafny, the decision logic of a small hospital
records system written in Python, and proves properties of it.

- **Patient regrouping** (`export_tool/data_exporter.py`, `fetch_patient_data`).
  The exporter reads one flat row per patient × appointment × medication
  from a left-joined query. It folds them back into one record per
  patient. Appointments and medications are de-duplicated by id, and
  Python truthiness decides what is present. The loop is the method
  `PatientGraph.FetchPatientData`. It is proved equal to the specification
  function `PatientGraph.Group`, and the properties of the regrouping are
  proved about `Group`.
- **Exports** of the regrouped records. `CsvExport` gives the 11 cells
  handed to `csv.writer`. `XmlExport` gives the element tree handed to
  ElementTree. `YamlExport` covers the hand-written YAML emitter
  (`_write_yaml`, `_yaml_value`) as the exact text it writes. Each writer
  loop is a method proved equal to a text or tree function.
- **Console session** (`src/main/python/init.py`, class `HospitalSystem`).
  The tables `doctors`, `patients` and `medical_cards` are maps held in
  class fields, next to the logged-in doctor and patient. The class covers:
  - doctor seeding;
  - the wholesale reassignment of patients;
  - both logins;
  - the "not your patient" check;
  - the gate of menu option 3.
- **Medication choice** (`src/main/python/hospital_system.py`). This is
  `add_medication`'s parse, bounds check, `" - "` split and default usage,
  plus the numbering of `show_medications_menu`.

Python's own text functions are modelled once, in `PyText`:
- `str()` of an int;
- `int()` of a string: blanks stripped, an optional sign, digits with single underscores between them;
- `sep.join`;
- `str.split(sep)`.

`Wrappers` holds `Option`, which stands for `None`.

Behaviours of the code worth noting:
- The doctor sub-record of a regrouped patient exists only when the
  doctor's surname (`row[5]`) is truthy; a set `doctor_id` alone does not
  make it. A patient whose `doctor_id` names a doctor that no longer exists
  (5 or 6, once `create_doctors_if_not_exist` has deleted them) keeps that
  `doctor_id` and gets `doctor: None`.
- The card exists when the complaints (`row[8]`) are truthy, so an empty
  complaint text also means "no card".
- The CSV status labels are the Russian ones the code writes
  (`Подтверждена`/`Ожидает`, `Принято`/`Не принято`).
- In the XML, a missing `doctor_id` is written as the text `None`, which
  is `str(None)`.
- The YAML writer does not tell the string `null` apart from `None`.
  `YamlExport.NullStringLooksLikeNull` states this.

## Model

| member | source | states |
|---|---|---|
| PatientGraph.Group | export_tool/data_exporter.py:83-133 | specification function of the regrouping; its properties are the `Group…`, `…Complete` and `…FirstSeen` rows below |
| PatientGraph.FetchPatientData | export_tool/data_exporter.py:83-135 | the row loop returns exactly the regrouping `Group(rows)` |
| PatientGraph.AbsorbRow | export_tool/data_exporter.py:107-131 | one row appends its appointment (its medication) only when the id is truthy and not yet listed |
| PatientGraph.ContainsAppointment | export_tool/data_exporter.py:116-117 | the duplicate scan answers true iff a listed appointment carries the id |
| PatientGraph.ContainsMedication | export_tool/data_exporter.py:129-130 | the duplicate scan answers true iff a listed medication carries the id |
| PatientGraph.GroupOnePerPatient | export_tool/data_exporter.py:83-133 | a record exists for a patient id iff the id occurs in the rows; records follow the order of first appearance |
| PatientGraph.GroupDistinctIds | export_tool/data_exporter.py:83-133 | no two records share a patient id |
| PatientGraph.GroupAscending | export_tool/data_exporter.py:69 | with rows ordered by patient id, the records come in strictly ascending id order |
| PatientGraph.GroupRecordShell | export_tool/data_exporter.py:86-105 | names, `doctor_id`, doctor and card come from the patient's first row; doctor present iff that row's doctor surname is truthy, card iff its complaints are |
| PatientGraph.GroupChildren | export_tool/data_exporter.py:107-131 | a record's appointments and medications are those of that patient's own rows |
| PatientGraph.AppointmentIdsDistinct | export_tool/data_exporter.py:115-118 | appointment ids in a record are pairwise distinct |
| PatientGraph.MedicationIdsDistinct | export_tool/data_exporter.py:128-131 | medication ids in a record are pairwise distinct |
| PatientGraph.AppointmentsComplete | export_tool/data_exporter.py:108-118 | an appointment id is listed iff it is non-zero and some row of the patient carries it |
| PatientGraph.MedicationsComplete | export_tool/data_exporter.py:121-131 | a medication id is listed iff it is non-zero and some row of the patient carries it |
| PatientGraph.AppointmentsFirstSeen | export_tool/data_exporter.py:108-118 | each listed appointment is built from the first row carrying its id, in the order of those rows |
| PatientGraph.MedicationsFirstSeen | export_tool/data_exporter.py:121-131 | each listed medication is built from the first row carrying its id, in the order of those rows |
| PatientGraph.FalsyRowAddsNothing | export_tool/data_exporter.py:108-121 | a later row whose two child ids are `None` or 0 leaves the record unchanged |
| CsvExport.CsvRow | export_tool/data_exporter.py:160-201 | specification function of one CSV row; its properties are the `CsvExport` rows below |
| CsvExport.ExportCsv | export_tool/data_exporter.py:146-201 | writes the header, then one row per record in order |
| CsvExport.FormatRow | export_tool/data_exporter.py:160-201 | the loop body produces the record's row of cells |
| CsvExport.AppointmentsInfo | export_tool/data_exporter.py:171-178 | the cell is the `"; "`-join of the appointment texts, empty for no appointment |
| CsvExport.MedicationsInfo | export_tool/data_exporter.py:180-187 | the cell is the `"; "`-join of the medication texts, empty for no medication |
| CsvExport.CsvShape | export_tool/data_exporter.py:153-157 | the header has the 11 column names; each record gives one 11-cell row, in input order |
| CsvExport.DoctorInfoEmptyIffNoDoctor | export_tool/data_exporter.py:161-164 | the `doctor_info` cell is empty iff the record has no doctor |
| CsvExport.DoctorCellIffSurname | export_tool/data_exporter.py:161-164 | for a regrouped record, `doctor_info` is empty iff the first row's doctor surname is falsy |
| CsvExport.NoCardEmptyCells | export_tool/data_exporter.py:166-169 | without a card, the three card cells are empty |
| CsvExport.ComplaintsCellIffCard | export_tool/data_exporter.py:166-169 | for a regrouped record, the complaints cell is empty iff there is no card |
| CsvExport.PatientIdCellRoundTrip | export_tool/data_exporter.py:190 | the `patient_id` cell reads back with `int()` as the id |
| CsvExport.DoctorIdCellRoundTrip | export_tool/data_exporter.py:194 | the `doctor_id` cell is empty iff there is no doctor id, and otherwise reads back as the id |
| CsvExport.AppointmentsCellEmptyIffNone | export_tool/data_exporter.py:172-178 | the appointments cell is empty iff the record has no appointment |
| CsvExport.AppointmentsCellSplits | export_tool/data_exporter.py:174-178 | k appointments give k-1 separators: the cell splits back into the k texts, and its length is their total plus k-1 separators |
| CsvExport.MedicationsCellSplits | export_tool/data_exporter.py:183-187 | k medications give k-1 separators: the cell splits back into the k texts, and its length is their total plus k-1 separators |
| CsvExport.AppointmentTextStatus | export_tool/data_exporter.py:174-176 | for any appointment, the text ends with ` (Подтверждена)` iff it is confirmed |
| CsvExport.MissingDatePrintsNone | export_tool/data_exporter.py:176 | for any appointment without a date, the text opens with `None `, as the f-string prints `None` |
| XmlExport.PatientElement | export_tool/data_exporter.py:213-254 | specification function of one `patient` element; its properties are the `XmlExport` rows below |
| XmlExport.ExportXml | export_tool/data_exporter.py:210-254 | the `patients` root holds one `patient` element per record, built in order |
| XmlExport.BuildPatient | export_tool/data_exporter.py:213-254 | the loop body builds the record's `patient` element |
| XmlExport.BuildAppointments | export_tool/data_exporter.py:239-245 | the `appointments` container holds one element per appointment, in order |
| XmlExport.BuildMedications | export_tool/data_exporter.py:248-254 | the `medications` container holds one element per medication, in order |
| XmlExport.PatientTags | export_tool/data_exporter.py:215-254 | the child tags of `patient`: five fields, then `doctor` and `medical_card` only when present, then both containers |
| XmlExport.DoctorChildIffPresent | export_tool/data_exporter.py:222-226 | a `doctor` child exists iff the record has a doctor, and it holds that doctor |
| XmlExport.CardChildIffPresent | export_tool/data_exporter.py:229-236 | a `medical_card` child exists iff the record has a card, and it holds that card |
| XmlExport.ContainersPresent | export_tool/data_exporter.py:239-254 | both containers are always found, with the record's full content, even when empty |
| XmlExport.CardFieldsNeverMissing | export_tool/data_exporter.py:231-236 | a `None` card field becomes the empty text, never a missing one |
| XmlExport.ReadAppointmentRoundTrip | export_tool/data_exporter.py:242-245 | the id and the `True`/`False` flag of an appointment element read back as written |
| XmlExport.ReadMedicationRoundTrip | export_tool/data_exporter.py:251-254 | the id and the `True`/`False` flag of a medication element read back as written |
| XmlExport.TreeShape | export_tool/data_exporter.py:210-213 | the root is `patients`, with one `patient` child per record |
| YamlExport.YamlScalar | export_tool/data_exporter.py:297-310 | specification function of `_yaml_value`; its properties are the rows below |
| YamlExport.QuotedIffSpecial | export_tool/data_exporter.py:308-310 | the written text is quoted iff the string holds one of the 16 special characters |
| YamlExport.StringRoundTrip | export_tool/data_exporter.py:305-310 | stripping the added quotes gives back every string |
| YamlExport.StringsDistinct | export_tool/data_exporter.py:305-310 | different strings are written differently |
| YamlExport.IntRoundTrip | export_tool/data_exporter.py:303-304 | an int is written in a form `int()` reads back |
| YamlExport.NullStringLooksLikeNull | export_tool/data_exporter.py:299-310 | the string `null` and `None` are written the same |
| YamlExport.BoolStringsLookLikeBools | export_tool/data_exporter.py:301-310 | the strings `true` and `false` are written the same as the booleans, in lower case |
| YamlExport.BoolsNotWrittenByStr | export_tool/data_exporter.py:301-304 | a boolean is written `true`/`false`, never `True`/`False` as Python's `str()` writes it, and never as the text of any int |
| YamlExport.ColonTextsAreQuoted | export_tool/data_exporter.py:308-309 | any string holding a colon (a `HH:MM` time) is written between double quotes |
| YamlExport.DigitDashTextsArePlain | export_tool/data_exporter.py:308-310 | any string of digits and dashes (an ISO date) is written as it is |
| YamlExport.Indent | export_tool/data_exporter.py:273 | each level is exactly two spaces |
| YamlExport.YamlText | export_tool/data_exporter.py:271-295 | specification function of the text `_write_yaml` writes; its properties are the layout rows below |
| YamlExport.WriteYaml | export_tool/data_exporter.py:271-295 | the writes to the stream, in order, are exactly `YamlText(v, d)` |
| YamlExport.WriteItems | export_tool/data_exporter.py:275-282 | the list branch writes exactly the items' text |
| YamlExport.WriteEntries | export_tool/data_exporter.py:283-293 | with its `first` flag, the dict branch writes exactly the entries' text |
| YamlExport.TextIndentedAndTerminated | export_tool/data_exporter.py:271-295 | any non-empty text written at depth d starts with d levels of indentation and ends a line |
| YamlExport.ItemIndentedAndTerminated | export_tool/data_exporter.py:276-282 | each list item starts at its depth and ends with a newline |
| YamlExport.ItemsIndentedAndTerminated | export_tool/data_exporter.py:275-282 | a non-empty list starts at its depth and ends with a newline |
| YamlExport.EntryIndentedAndTerminated | export_tool/data_exporter.py:285-293 | each entry ends with a newline, and a first entry starts at its depth |
| YamlExport.EntriesIndentedAndTerminated | export_tool/data_exporter.py:283-293 | non-empty entries end with a newline and start at their depth when first |
| YamlExport.ItemLayout | export_tool/data_exporter.py:277-282 | a list item opens with `- `; a container item continues on the next line one level deeper |
| YamlExport.LaterContainerGetsBlankLine | export_tool/data_exporter.py:286-292 | a container under a key that is not the first is preceded by one blank line; scalar entries are not |
| YamlExport.EmptyContainersWriteNothing | export_tool/data_exporter.py:275-293 | an empty list or dict writes nothing |
| YamlExport.AppointmentConfirmedLine | export_tool/data_exporter.py:276-292 | an appointment listed at depth d ends with the line `confirmed: true` or `confirmed: false`, indented d+1 levels |
| YamlExport.MedicationTakenLine | export_tool/data_exporter.py:276-292 | a medication listed at depth d ends with the line `is_taken: true` or `is_taken: false`, indented d+1 levels |
| YamlExport.ExportYaml | export_tool/data_exporter.py:262-266 | the file's text is the record list written from depth 0 |
| YamlExport.DocumentPerPatient | export_tool/data_exporter.py:276-280 | each record adds a `- ` line followed by its mapping one level in |
| YamlExport.DictOpensWithFirstEntry | export_tool/data_exporter.py:284-293 | a mapping opens with its first entry, the only one spared the blank line |
| YamlExport.PatientOpensWithId | export_tool/data_exporter.py:87-88 | a record's mapping opens with its `patient_id:` line, and the other keys follow |
| HospitalSession.HospitalSystem.constructor | src/main/python/init.py:6-10 | nobody is logged in and the doctors table is seeded |
| HospitalSession.HospitalSystem.CreateDoctorsIfNotExist | src/main/python/init.py:56-70 | the doctors table becomes `SeedDoctors` of the old one; nothing else changes |
| HospitalSession.InsertMissing | src/main/python/init.py:65-70 | specification function of one insert-if-absent step; its properties are the `Seed…` rows below |
| HospitalSession.SeedDoctors | src/main/python/init.py:56-70 | specification function of `create_doctors_if_not_exist`; its properties are the `Seed…` rows below |
| HospitalSession.SeedDoctorsAt | src/main/python/init.py:56-70 | row by row: 5 and 6 are gone, 111 and 222 are present, an existing row is kept |
| HospitalSession.SeedGuarantees | src/main/python/init.py:56-62 | afterwards 5 and 6 are absent and 111 and 222 present |
| HospitalSession.SeedKeepsExisting | src/main/python/init.py:64-70 | an existing 111 or 222 row is not overwritten; a missing one gets its fixed row |
| HospitalSession.SeedOthersUntouched | src/main/python/init.py:56-70 | every other doctor is untouched |
| HospitalSession.SeedIdempotent | src/main/python/init.py:56-70 | seeding twice equals seeding once |
| HospitalSession.HospitalSystem.FixAllDoctorsPatients | src/main/python/init.py:138-170 | both tables are emptied and refilled with exactly the fixed rows; doctors and the logged-in ids are unchanged |
| HospitalSession.TableOfRows | src/main/python/init.py:152-155 | inserting rows with distinct ids leaves exactly those ids, each with its row |
| HospitalSession.FixedPatientIds | src/main/python/init.py:142-155 | after reassignment the patients are exactly 1 to 7 |
| HospitalSession.CardIds | src/main/python/init.py:157-170 | after reassignment the cards are exactly those of 1 to 7 |
| HospitalSession.FixedCardIds | src/main/python/init.py:142-170 | every patient has a card and there is no other card |
| HospitalSession.FixedAssignment | src/main/python/init.py:142-150 | patients 1, 2, 3 and 7 go to doctor 111, patients 4, 5 and 6 to doctor 222 |
| HospitalSession.DoctorLoginResult | src/main/python/init.py:214-229 | for any doctors table: an unknown id is refused as unknown; a known id logs in iff the input equals the stored password, and is otherwise refused as a wrong password; a login names the id asked for |
| HospitalSession.HospitalSystem.DoctorLogin | src/main/python/init.py:214-229 | an unknown id or a wrong password returns false and changes nothing; the right one sets the doctor and leaves the patient |
| HospitalSession.HospitalSystem.PatientLogin | src/main/python/init.py:337-348 | an existing id sets the logged-in patient and returns true; an unknown one returns false and changes nothing |
| HospitalSession.MedicalInfoAccess | src/main/python/init.py:272-307 | specification function of `get_patient_medical_info_by_id`; its properties are the `Access…` rows below |
| HospitalSession.AccessOnlyOwnPatients | src/main/python/init.py:272-283 | the card is shown iff the patient exists and is the logged-in doctor's; a missing and a foreign patient are distinct refusals |
| HospitalSession.AccessShowsOwnCard | src/main/python/init.py:285-307 | the card shown is the patient's own, with `None` fields when it has none |
| HospitalSession.HospitalSystem.MedicalInfoById | src/main/python/init.py:266-283 | on the object's tables, the card is shown iff the patient is the logged-in doctor's |
| HospitalSession.RemovedDoctorsCannotLogIn | src/main/python/init.py:214-220 | after seeding, doctors 5 and 6 are unknown whatever the password |
| HospitalSession.SeededDoctorLogsIn | src/main/python/init.py:222-226 | a freshly seeded doctor 111 logs in with `doctor111` and no other password |
| HospitalSession.Doctor111SeesOwnCards | src/main/python/init.py:272-283 | after reassignment doctor 111 sees the cards of patients 1, 2, 3 and 7 only |
| HospitalSession.MenuAction | src/main/python/init.py:438-454 | specification function of the branch `main` takes for a choice; its properties are the two rows below |
| HospitalSession.ViewCardNeedsDoctor | src/main/python/init.py:442-447 | option 3 views a card iff a truthy doctor id is logged in |
| HospitalSession.MenuNeverShowsUnassigned | src/main/python/init.py:443-445 | through the menu, an unassigned patient's card is never shown |
| MedicationCatalogue.SelectMedication | src/main/python/hospital_system.py:161-187 | specification function of `add_medication`'s choice; its properties are the rows below |
| MedicationCatalogue.AcceptedIffInRange | src/main/python/hospital_system.py:161-187 | a choice is accepted iff it parses to n with 1 <= n <= the list's length; a non-number is refused as such |
| MedicationCatalogue.InsertedNameAndUsage | src/main/python/hospital_system.py:164-170 | the name is the text before the first `" - "`; a non-empty usage is kept verbatim; no second piece gives the fixed default |
| MedicationCatalogue.SplitEntry | src/main/python/hospital_system.py:164 | a one-word name, `" - "` and a dash-free usage split into exactly those two pieces |
| MedicationCatalogue.NamesOneWord | src/main/python/hospital_system.py:7-16 | no catalogue name contains a space |
| MedicationCatalogue.UsagesWithoutDash | src/main/python/hospital_system.py:7-16 | no catalogue usage contains a dash |
| MedicationCatalogue.SelectEntry | src/main/python/hospital_system.py:162-170 | number k+1 selects the name and default usage of entry k, or the usage typed |
| MedicationCatalogue.CatalogueSelection | src/main/python/hospital_system.py:7-16 | each of the eight menu numbers inserts its drug's name with its own default usage, or the usage typed |
| MedicationCatalogue.OutOfRangeRefused | src/main/python/hospital_system.py:162-185 | any number outside 1..len is refused as an invalid number, for any list |
| MedicationCatalogue.DigitlessChoiceRefused | src/main/python/hospital_system.py:161-187 | any choice without a digit is refused as not a number |
| MedicationCatalogue.MenuNumberSelectsLine | src/main/python/hospital_system.py:151-165 | the number printed on a menu line, typed back, selects that line's entry |
| MedicationCatalogue.HospitalSystem.constructor | src/main/python/hospital_system.py:5-16 | the object holds the eight-entry catalogue |
| MedicationCatalogue.HospitalSystem.ShowMedicationsMenu | src/main/python/hospital_system.py:148-153 | the numbered lines between two rules of 50 `=` |
| MedicationCatalogue.HospitalSystem.AddMedication | src/main/python/hospital_system.py:155-187 | a valid choice appends exactly one `(name, usage)` row; a refused choice appends nothing |
| PyText.ParseInt | src/main/python/hospital_system.py:162 | specification function of `int()` on a string, `None` for `ValueError`; its properties are the `ParseInt…` rows below |
| PyText.ParseIntNeedsDigit | src/main/python/hospital_system.py:162 | `int()` of any text without a digit raises `ValueError` |
| PyText.Split | src/main/python/hospital_system.py:164 | `str.split(sep)`: always at least one piece; its properties are `SplitOfJoin` and `JoinOfSplit` |
| PyText.Join | export_tool/data_exporter.py:178 | specification function of `sep.join(items)`; its properties are `JoinLength`, `SplitOfJoin` and `JoinOfSplit` |
| PyText.ParseIntOfIntToString | src/main/python/hospital_system.py:162 | `int(str(i)) == i` for every int |
| PyText.IntToStringInjective | export_tool/data_exporter.py:215 | different ints have different decimal texts |
| PyText.OptIntTextInjective | src/main/python/init.py:280 | `str(a) == str(b)` iff `a == b`, where `None` is `"None"` |
| PyText.ParseIntOfOptIntText | export_tool/data_exporter.py:219 | the `doctor_id` text reads back as the id, and `None` is not a number |
| PyText.JoinLength | export_tool/data_exporter.py:178 | a join of k pieces is their total length plus k-1 separators |
| PyText.SplitOfJoin | export_tool/data_exporter.py:178 | splitting a join of at least one piece gives back the pieces, provided no piece holds the separator's first character |
| PyText.JoinOfSplit | src/main/python/hospital_system.py:164 | joining the pieces of a split gives back the text |

## Left out

- SQL and sqlite connections are not modelled. The query's rows are the input of the regrouping, and the tables are maps.
- Type affinity is not modelled: ids are ints throughout. The login and menu id inputs are taken as already-parsed ints. Only the medication choice goes through `int()`.
- Files and streams are not modelled. That covers `out/` creation, `json.dump`, `csv.writer` quoting, ElementTree escaping and serialisation. Cells, trees and YAML text are modelled as values.
- The JSON export is a library call and is not modelled.
- The float branch of `_yaml_value` is left out, because the records never hold floats.
- `run_export` is left out, as are the per-writer `try/except` blocks that swallow errors.
- Console input, `print`, banners and the `while True` menu loop of `main` are left out. `MenuAction` models only which branch one choice takes.
- `show_doctor_patients` and `show_patient_medical_info` are left out; they only print.
- The medication listings of `get_patient_medical_info_by_id` and `show_patient_medical_info` are left out. They read a table that no schema creates.
- `HospitalSession.HospitalSystem.DoctorLogin`: the password is compared with the stored one as text. The `sqlite3.Error` path that returns false is not modelled.
- `MedicationCatalogue.HospitalSystem.AddMedication`: the generated drug id (`lastrowid`) and its message are not modelled.
- `PyText.ParseInt`: Python's `int()` also accepts non-ASCII digits and whitespace. This model accepts ASCII only.
- `PyText.ParseInt`: Python's `int()` refuses a text of more than `sys.int_max_str_digits` digits (4300 by default) with `ValueError`; this model reads any number of digits. The limit is an interpreter setting, and `str()` of so large an int fails the same way, so the round-trip lemmas do not model it either.
- `MedicationCatalogue.SelectMedication`: a choice of more than 4300 digits naming an entry (such as 4300 zeros and a `1`) is accepted here, where the default interpreter refuses it as not a number; see the `int()` limit above.
- The other methods of hospital_system.py are left out: fixed inserts (`add_doctor_*`, `add_patient`, `add_medical_card`) and printing loops (`show_*`).
- `export_tool/reate_database.py` is not part of this model. It holds table definitions and seed inserts only.
- `src/main/python/main.py` is not part of this model. It creates tables and prints the list of table names (`show_tables`).
- Appointment booking and confirmation are not modelled. None of init.py, hospital_system.py, data_exporter.py, main.py or reate_database.py implements them.
