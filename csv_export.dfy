/**
 * The CSV export of the regrouped patients (export_tool/data_exporter.py,
 * `export_to_csv`): a header of 11 column names, then one 11-cell row per
 * patient.  Cells are modelled as the text `csv.writer` is handed after its
 * own conversion (`None` becomes the empty cell, an int its decimal form);
 * the quoting `csv.writer` adds around the cells is not part of this model.
 */
module CsvExport {
  import opened Wrappers
  import opened PyText
  import opened PatientGraph

  /** The header row. */
  const Header: seq<string> := [
    "patient_id", "surname", "name", "patronymic", "doctor_id",
    "doctor_info", "health_complaints", "medical_history", "treatment_plan",
    "appointments_info", "medications_info"]

  /** Separator of the multi-valued cells. */
  const ItemSeparator: string := "; "

  /** How an f-string renders an optional text: `None` prints as `None`. */
  function FormatText(o: Option<string>): string
  {
    match o
    case None => "None"
    case Some(s) => s
  }

  /** How `csv.writer` renders an optional text cell: `None` is the empty cell. */
  function TextCell(o: Option<string>): string
  {
    match o
    case None => ""
    case Some(s) => s
  }

  /** How `csv.writer` renders an optional int cell. */
  function IntCell(o: Option<int>): string
  {
    match o
    case None => ""
    case Some(i) => IntToString(i)
  }

  function ConfirmedLabel(confirmed: bool): string
  {
    if confirmed then "Подтверждена" else "Ожидает"
  }

  function TakenLabel(taken: bool): string
  {
    if taken then "Принято" else "Не принято"
  }

  /** `"{date} {time} ({label})"` for one appointment. */
  function AppointmentText(a: Appointment): string
  {
    FormatText(a.appointmentDate) + " " + FormatText(a.appointmentTime) + " (" + ConfirmedLabel(a.confirmed) + ")"
  }

  /** `"{name}: {usage} ({label})"` for one medication. */
  function MedicationText(m: Medication): string
  {
    FormatText(m.medicationName) + ": " + FormatText(m.usageDescription) + " (" + TakenLabel(m.isTaken) + ")"
  }

  function AppointmentTexts(apps: seq<Appointment>): (ts: seq<string>)
    ensures |ts| == |apps| && forall k :: 0 <= k < |apps| ==> ts[k] == AppointmentText(apps[k])
  {
    seq(|apps|, k requires 0 <= k < |apps| => AppointmentText(apps[k]))
  }

  function MedicationTexts(meds: seq<Medication>): (ts: seq<string>)
    ensures |ts| == |meds| && forall k :: 0 <= k < |meds| ==> ts[k] == MedicationText(meds[k])
  {
    seq(|meds|, k requires 0 <= k < |meds| => MedicationText(meds[k]))
  }

  /** `"surname name patronymic"`, or the empty cell when there is no doctor. */
  function DoctorInfo(p: Patient): string
  {
    match p.doctor
    case None => ""
    case Some(d) => d.surname + " " + FormatText(d.name) + " " + FormatText(d.patronymic)
  }

  /** The three card cells, empty when there is no card. */
  function CardCells(p: Patient): seq<string>
  {
    match p.medicalCard
    case None => ["", "", ""]
    case Some(c) => [c.healthComplaints, TextCell(c.medicalHistory), TextCell(c.treatmentPlan)]
  }

  /** The row written for one patient. */
  function CsvRow(p: Patient): seq<string>
  {
    [IntToString(p.patientId), p.surname, p.name, p.patronymic, IntCell(p.doctorId), DoctorInfo(p)]
    + CardCells(p)
    + [Join(AppointmentTexts(p.appointments), ItemSeparator), Join(MedicationTexts(p.medications), ItemSeparator)]
  }

  /** The rows written for the patients, one each, in order. */
  function CsvRows(data: seq<Patient>): (rows: seq<seq<string>>)
    ensures |rows| == |data| && forall k :: 0 <= k < |data| ==> rows[k] == CsvRow(data[k])
  {
    seq(|data|, k requires 0 <= k < |data| => CsvRow(data[k]))
  }

  /** Everything written to the CSV file, row by row. */
  function CsvTable(data: seq<Patient>): seq<seq<string>>
  {
    [Header] + CsvRows(data)
  }

  // ---------------------------------------------------------------------------
  // The loops of export_to_csv

  /** The `appointments_info` cell: the empty cell, or the joined appointment texts. */
  method AppointmentsInfo(apps: seq<Appointment>) returns (info: string)
    ensures info == Join(AppointmentTexts(apps), ItemSeparator)
  {
    info := "";
    if |apps| > 0 {
      var texts: seq<string> := [];
      for k := 0 to |apps|
        invariant texts == AppointmentTexts(apps[..k])
      {
        assert apps[..k + 1] == apps[..k] + [apps[k]];
        texts := texts + [AppointmentText(apps[k])];
      }
      assert apps[..|apps|] == apps;
      info := Join(texts, ItemSeparator);
    }
  }

  /** The `medications_info` cell: the empty cell, or the joined medication texts. */
  method MedicationsInfo(meds: seq<Medication>) returns (info: string)
    ensures info == Join(MedicationTexts(meds), ItemSeparator)
  {
    info := "";
    if |meds| > 0 {
      var texts: seq<string> := [];
      for k := 0 to |meds|
        invariant texts == MedicationTexts(meds[..k])
      {
        assert meds[..k + 1] == meds[..k] + [meds[k]];
        texts := texts + [MedicationText(meds[k])];
      }
      assert meds[..|meds|] == meds;
      info := Join(texts, ItemSeparator);
    }
  }

  /** The body of the patient loop: the row written for one patient. */
  method FormatRow(p: Patient) returns (row: seq<string>)
    ensures row == CsvRow(p)
  {
    var doctorInfo := "";
    if p.doctor.Some? {
      doctorInfo := p.doctor.value.surname + " " + FormatText(p.doctor.value.name) + " " + FormatText(p.doctor.value.patronymic);
    }
    var complaints, history, plan := "", "", "";
    if p.medicalCard.Some? {
      complaints := p.medicalCard.value.healthComplaints;
      history := TextCell(p.medicalCard.value.medicalHistory);
      plan := TextCell(p.medicalCard.value.treatmentPlan);
    }
    var appointmentsInfo := AppointmentsInfo(p.appointments);
    var medicationsInfo := MedicationsInfo(p.medications);
    row := [IntToString(p.patientId), p.surname, p.name, p.patronymic, IntCell(p.doctorId), doctorInfo,
            complaints, history, plan, appointmentsInfo, medicationsInfo];
  }

  /** `export_to_csv`: the header, then one row per patient in the order given. */
  method ExportCsv(data: seq<Patient>) returns (table: seq<seq<string>>)
    ensures table == CsvTable(data)
  {
    var rows: seq<seq<string>> := [];
    for k := 0 to |data|
      invariant rows == CsvRows(data[..k])
    {
      var row := FormatRow(data[k]);
      rows := rows + [row];
    }
    assert data[..|data|] == data;
    table := [Header] + rows;
  }

  // ---------------------------------------------------------------------------
  // Properties of the CSV text

  /** The header row has the 11 column names, and every patient row has 11 cells. */
  lemma CsvShape(data: seq<Patient>)
    ensures |CsvTable(data)| == |data| + 1 && CsvTable(data)[0] == Header && |Header| == 11
    ensures forall k :: 0 <= k < |data| ==> |CsvTable(data)[k + 1]| == 11 && CsvTable(data)[k + 1] == CsvRow(data[k])
  {
  }

  /** The doctor cell is empty exactly when the record has no doctor. */
  lemma DoctorInfoEmptyIffNoDoctor(p: Patient)
    ensures CsvRow(p)[5] == "" <==> p.doctor.None?
  {
    if p.doctor.Some? {
      assert |DoctorInfo(p)| >= 1;
    }
  }

  /**
   * For a regrouped record the doctor cell is empty exactly when the
   * patient's first row has no truthy doctor surname, whatever its `doctor_id`.
   */
  lemma DoctorCellIffSurname(rows: seq<Row>, k: nat)
    requires k < |Group(rows)|
    ensures Group(rows)[k].patientId in PatientKeys(rows)
    ensures CsvRow(Group(rows)[k])[5] == "" <==>
              !StrTruthy(rows[FirstPos(PatientKeys(rows), Group(rows)[k].patientId)].doctorSurname)
  {
    GroupRecordShell(rows, k);
    DoctorInfoEmptyIffNoDoctor(Group(rows)[k]);
  }

  /** Without a card, the three card cells are empty. */
  lemma NoCardEmptyCells(p: Patient)
    requires p.medicalCard.None?
    ensures CsvRow(p)[6] == "" && CsvRow(p)[7] == "" && CsvRow(p)[8] == ""
  {
  }

  /**
   * For a regrouped record the complaints cell is empty exactly when there is
   * no card, since a card is only built from truthy complaints.
   */
  lemma ComplaintsCellIffCard(rows: seq<Row>, k: nat)
    requires k < |Group(rows)|
    ensures CsvRow(Group(rows)[k])[6] == "" <==> Group(rows)[k].medicalCard.None?
  {
    GroupRecordShell(rows, k);
  }

  /** The patient id cell reads back as the patient id. */
  lemma PatientIdCellRoundTrip(p: Patient)
    ensures ParseInt(CsvRow(p)[0]) == Some(p.patientId)
  {
    ParseIntOfIntToString(p.patientId);
  }

  /** The `doctor_id` cell reads back as the doctor id, and is empty for `None`. */
  lemma DoctorIdCellRoundTrip(p: Patient)
    ensures p.doctorId.None? <==> CsvRow(p)[4] == ""
    ensures p.doctorId.Some? ==> ParseInt(CsvRow(p)[4]) == Some(p.doctorId.value)
  {
    if p.doctorId.Some? {
      ParseIntOfIntToString(p.doctorId.value);
    }
  }

  /** The appointments cell is empty exactly when the record has no appointment. */
  lemma AppointmentsCellEmptyIffNone(p: Patient)
    ensures CsvRow(p)[9] == "" <==> |p.appointments| == 0
  {
    var ts := AppointmentTexts(p.appointments);
    if |ts| > 0 {
      JoinLength(ts, ItemSeparator);
      TotalLengthOfTexts(ts, 4);
    }
  }

  /** Every item text of the cell has at least `n` characters, so the total is at least `n` per item. */
  lemma {:induction false} TotalLengthOfTexts(ts: seq<string>, n: nat)
    requires forall k :: 0 <= k < |ts| ==> |ts[k]| >= n
    ensures TotalLength(ts) >= |ts| * n
  {
    if ts != [] {
      TotalLengthOfTexts(ts[..|ts| - 1], n);
    }
  }

  /** An optional text with no ';' still has none once formatted. */
  predicate NoSemicolon(o: Option<string>)
  {
    o.Some? ==> ';' !in o.value
  }

  lemma LabelsNoSemicolon(b: bool)
    ensures ';' !in ConfirmedLabel(b) && ';' !in TakenLabel(b)
  {
  }

  lemma AppointmentTextNoSemicolon(a: Appointment)
    requires NoSemicolon(a.appointmentDate) && NoSemicolon(a.appointmentTime)
    ensures ';' !in AppointmentText(a)
  {
    LabelsNoSemicolon(a.confirmed);
    var date, time := FormatText(a.appointmentDate), FormatText(a.appointmentTime);
    assert ';' !in date && ';' !in time;
    assert AppointmentText(a) == date + " " + time + " (" + ConfirmedLabel(a.confirmed) + ")";
  }

  lemma MedicationTextNoSemicolon(m: Medication)
    requires NoSemicolon(m.medicationName) && NoSemicolon(m.usageDescription)
    ensures ';' !in MedicationText(m)
  {
    LabelsNoSemicolon(m.isTaken);
    var name, usage := FormatText(m.medicationName), FormatText(m.usageDescription);
    assert ';' !in name && ';' !in usage;
    assert MedicationText(m) == name + ": " + usage + " (" + TakenLabel(m.isTaken) + ")";
  }

  /**
   * k appointments give k - 1 separators: when no date or time contains ';',
   * splitting the cell on `"; "` gives back exactly one text per appointment.
   */
  lemma AppointmentsCellSplits(apps: seq<Appointment>)
    requires |apps| > 0
    requires forall k :: 0 <= k < |apps| ==> NoSemicolon(apps[k].appointmentDate) && NoSemicolon(apps[k].appointmentTime)
    ensures Split(Join(AppointmentTexts(apps), ItemSeparator), ItemSeparator) == AppointmentTexts(apps)
    ensures |Join(AppointmentTexts(apps), ItemSeparator)| ==
              TotalLength(AppointmentTexts(apps)) + (|apps| - 1) * |ItemSeparator|
  {
    var ts := AppointmentTexts(apps);
    forall k, j | 0 <= k < |ts| && 0 <= j < |ts[k]|
      ensures ts[k][j] != ItemSeparator[0]
    {
      AppointmentTextNoSemicolon(apps[k]);
      assert ts[k][j] in ts[k];
    }
    SplitOfJoin(ts, ItemSeparator);
    JoinLength(ts, ItemSeparator);
  }

  /**
   * k medications give k - 1 separators: when no name or usage contains ';',
   * splitting the cell on `"; "` gives back exactly one text per medication.
   */
  lemma MedicationsCellSplits(meds: seq<Medication>)
    requires |meds| > 0
    requires forall k :: 0 <= k < |meds| ==> NoSemicolon(meds[k].medicationName) && NoSemicolon(meds[k].usageDescription)
    ensures Split(Join(MedicationTexts(meds), ItemSeparator), ItemSeparator) == MedicationTexts(meds)
    ensures |Join(MedicationTexts(meds), ItemSeparator)| ==
              TotalLength(MedicationTexts(meds)) + (|meds| - 1) * |ItemSeparator|
  {
    var ts := MedicationTexts(meds);
    forall k, j | 0 <= k < |ts| && 0 <= j < |ts[k]|
      ensures ts[k][j] != ItemSeparator[0]
    {
      MedicationTextNoSemicolon(meds[k]);
      assert ts[k][j] in ts[k];
    }
    SplitOfJoin(ts, ItemSeparator);
    JoinLength(ts, ItemSeparator);
  }

  /** A text ending in `tail` does not end in `c` when their next-to-last characters differ. */
  lemma TailsDiffer(head: string, tail: string, c: string)
    requires |tail| >= 2 && |c| >= 2 && tail[|tail| - 2] != c[|c| - 2]
    ensures var t := head + tail; !(|t| >= |c| && t[|t| - |c|..] == c)
  {
    var t := head + tail;
    if |t| >= |c| && t[|t| - |c|..] == c {
      assert t[|t| - 2] == tail[|tail| - 2];
    }
  }

  /** The ` ({label})` closing an appointment's text. */
  function StatusTail(confirmed: bool): string
  {
    " (" + ConfirmedLabel(confirmed) + ")"
  }

  lemma AppointmentTextSplit(a: Appointment)
    ensures AppointmentText(a) ==
              (FormatText(a.appointmentDate) + " " + FormatText(a.appointmentTime)) + StatusTail(a.confirmed)
  {
  }

  /** Any appointment's text ends with `" (Подтверждена)"` exactly when it is confirmed. */
  lemma AppointmentTextStatus(a: Appointment)
    ensures var t, c := AppointmentText(a), " (Подтверждена)";
      (|t| >= |c| && t[|t| - |c|..] == c) <==> a.confirmed
  {
    var head := FormatText(a.appointmentDate) + " " + FormatText(a.appointmentTime);
    var c := " (Подтверждена)";
    AppointmentTextSplit(a);
    if a.confirmed {
      assert StatusTail(true) == c;
    } else {
      var tail := StatusTail(false);
      assert tail == " (Ожидает)";
      assert tail[|tail| - 2] == 'т' && c[|c| - 2] == 'а';
      TailsDiffer(head, tail, c);
    }
  }

  /** A missing date is printed as `None` at the head of any appointment's text. */
  lemma MissingDatePrintsNone(a: Appointment)
    requires a.appointmentDate.None?
    ensures AppointmentText(a)[..5] == "None "
  {
    var rest := FormatText(a.appointmentTime) + StatusTail(a.confirmed);
    AppointmentTextSplit(a);
    assert AppointmentText(a) == "None " + rest;
  }
}
