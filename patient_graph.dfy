/**
 * Regrouping of the exporter's joined query (export_tool/data_exporter.py,
 * `fetch_patient_data`): patients left-joined with their doctor, medical card,
 * appointments and medications, one row per appointment x medication pair,
 * folded back into one record per patient.
 */
module PatientGraph {
  import opened Wrappers

  /** One row of the joined query, columns in SELECT order (row[0] .. row[18]). */
  datatype Row = Row(
    patientId: int, surname: string, name: string, patronymic: string,
    doctorId: Option<int>,
    doctorSurname: Option<string>, doctorName: Option<string>, doctorPatronymic: Option<string>,
    healthComplaints: Option<string>, medicalHistory: Option<string>, treatmentPlan: Option<string>,
    appointmentId: Option<int>, appointmentDate: Option<string>, appointmentTime: Option<string>,
    confirmed: Option<int>,
    medicationId: Option<int>, medicationName: Option<string>, usageDescription: Option<string>,
    isTaken: Option<int>)

  /** Python truthiness: `None` and `0` are false. */
  predicate IntTruthy(o: Option<int>) { o.Some? && o.value != 0 }

  /** Python truthiness: `None` and `""` are false. */
  predicate StrTruthy(o: Option<string>) { o.Some? && o.value != "" }

  datatype Doctor = Doctor(surname: string, name: Option<string>, patronymic: Option<string>)

  datatype MedicalCard = MedicalCard(healthComplaints: string, medicalHistory: Option<string>,
                                     treatmentPlan: Option<string>)

  datatype Appointment = Appointment(appointmentId: int, appointmentDate: Option<string>,
                                     appointmentTime: Option<string>, confirmed: bool)

  datatype Medication = Medication(medicationId: int, medicationName: Option<string>,
                                   usageDescription: Option<string>, isTaken: bool)

  /** The per-patient dict, keys in the order the exporter creates them. */
  datatype Patient = Patient(
    patientId: int, surname: string, name: string, patronymic: string, doctorId: Option<int>,
    doctor: Option<Doctor>, medicalCard: Option<MedicalCard>,
    appointments: seq<Appointment>, medications: seq<Medication>)

  // ---------------------------------------------------------------------------
  // What one row contributes

  /** The doctor sub-record exists iff the doctor's surname (row[5]) is truthy. */
  function DoctorOf(r: Row): Option<Doctor>
  {
    if StrTruthy(r.doctorSurname) then Some(Doctor(r.doctorSurname.value, r.doctorName, r.doctorPatronymic))
    else None
  }

  /** The card sub-record exists iff the complaints (row[8]) are truthy. */
  function CardOf(r: Row): Option<MedicalCard>
  {
    if StrTruthy(r.healthComplaints) then Some(MedicalCard(r.healthComplaints.value, r.medicalHistory, r.treatmentPlan))
    else None
  }

  /** The record created on the first row of a patient, with empty lists. */
  function ShellOf(r: Row): Patient
  {
    Patient(r.patientId, r.surname, r.name, r.patronymic, r.doctorId, DoctorOf(r), CardOf(r), [], [])
  }

  function AppointmentOf(r: Row): Appointment
    requires IntTruthy(r.appointmentId)
  {
    Appointment(r.appointmentId.value, r.appointmentDate, r.appointmentTime, IntTruthy(r.confirmed))
  }

  function MedicationOf(r: Row): Medication
    requires IntTruthy(r.medicationId)
  {
    Medication(r.medicationId.value, r.medicationName, r.usageDescription, IntTruthy(r.isTaken))
  }

  // ---------------------------------------------------------------------------
  // Specification of the regrouping

  /** The two child columns that are de-duplicated by id. */
  datatype Column = AppointmentColumn | MedicationColumn

  function KeyOf(r: Row, c: Column): Option<int>
  {
    match c
    case AppointmentColumn => r.appointmentId
    case MedicationColumn => r.medicationId
  }

  /** Some row of `rs` carries `k` in column `c`. */
  predicate Seen(rs: seq<Row>, c: Column, k: Option<int>)
  {
    exists j :: 0 <= j < |rs| && KeyOf(rs[j], c) == k
  }

  /**
   * Positions of the first occurrence of every truthy key of column `c`, in
   * row order: the rows that contribute an appointment (or a medication).
   */
  function FirstSeen(rs: seq<Row>, c: Column): (idx: seq<nat>)
    ensures forall m :: 0 <= m < |idx| ==> idx[m] < |rs| && IntTruthy(KeyOf(rs[idx[m]], c))
  {
    if rs == [] then []
    else
      var prev := rs[..|rs| - 1];
      var k := KeyOf(rs[|rs| - 1], c);
      FirstSeen(prev, c) + (if IntTruthy(k) && !Seen(prev, c, k) then [|rs| - 1] else [])
  }

  /**
   * The listed positions increase, and each is the first row carrying its
   * key, so no key is listed twice.
   */
  lemma {:induction false} FirstSeenOrdered(rs: seq<Row>, c: Column)
    ensures forall m, j :: 0 <= m < |FirstSeen(rs, c)| && 0 <= j < FirstSeen(rs, c)[m] ==>
              KeyOf(rs[j], c) != KeyOf(rs[FirstSeen(rs, c)[m]], c)
    ensures forall m1, m2 :: 0 <= m1 < m2 < |FirstSeen(rs, c)| ==> FirstSeen(rs, c)[m1] < FirstSeen(rs, c)[m2]
  {
    if rs != [] {
      var prev := rs[..|rs| - 1];
      FirstSeenOrdered(prev, c);
      var idx, idx' := FirstSeen(rs, c), FirstSeen(prev, c);
      assert forall m :: 0 <= m < |idx'| ==> idx[m] == idx'[m];
    }
  }

  /** Every truthy key has its first occurrence listed: `m` is its place in the list. */
  lemma {:induction false} FirstSeenComplete(rs: seq<Row>, c: Column, j: nat) returns (m: nat)
    requires j < |rs| && IntTruthy(KeyOf(rs[j], c))
    ensures m < |FirstSeen(rs, c)| && KeyOf(rs[FirstSeen(rs, c)[m]], c) == KeyOf(rs[j], c)
  {
    var prev := rs[..|rs| - 1];
    var k := KeyOf(rs[j], c);
    if j < |rs| - 1 {
      assert KeyOf(prev[j], c) == k;
      m := FirstSeenComplete(prev, c, j);
      FirstSeenPrefix(rs, c, m);
    } else if Seen(prev, c, k) {
      var j' :| 0 <= j' < |prev| && KeyOf(prev[j'], c) == k;
      m := FirstSeenComplete(prev, c, j');
      FirstSeenPrefix(rs, c, m);
    } else {
      m := |FirstSeen(prev, c)|;
    }
  }

  /** Dropping the last row keeps the earlier listed positions. */
  lemma FirstSeenPrefix(rs: seq<Row>, c: Column, m: nat)
    requires |rs| > 0 && m < |FirstSeen(rs[..|rs| - 1], c)|
    ensures m < |FirstSeen(rs, c)| && FirstSeen(rs, c)[m] == FirstSeen(rs[..|rs| - 1], c)[m]
    ensures rs[FirstSeen(rs, c)[m]] == rs[..|rs| - 1][FirstSeen(rs, c)[m]]
  {
  }

  function AppointmentsAt(prs: seq<Row>, idx: seq<nat>): (apps: seq<Appointment>)
    requires forall m :: 0 <= m < |idx| ==> idx[m] < |prs| && IntTruthy(prs[idx[m]].appointmentId)
    ensures |apps| == |idx| && forall m :: 0 <= m < |idx| ==> apps[m] == AppointmentOf(prs[idx[m]])
  {
    if idx == [] then [] else AppointmentsAt(prs, idx[..|idx| - 1]) + [AppointmentOf(prs[idx[|idx| - 1]])]
  }

  function MedicationsAt(prs: seq<Row>, idx: seq<nat>): (meds: seq<Medication>)
    requires forall m :: 0 <= m < |idx| ==> idx[m] < |prs| && IntTruthy(prs[idx[m]].medicationId)
    ensures |meds| == |idx| && forall m :: 0 <= m < |idx| ==> meds[m] == MedicationOf(prs[idx[m]])
  {
    if idx == [] then [] else MedicationsAt(prs, idx[..|idx| - 1]) + [MedicationOf(prs[idx[|idx| - 1]])]
  }

  /** The appointments of one patient's rows: the first sighting of each truthy id. */
  function AppointmentsOf(prs: seq<Row>): seq<Appointment>
  {
    AppointmentsAt(prs, FirstSeen(prs, AppointmentColumn))
  }

  /** The medications of one patient's rows: the first sighting of each truthy id. */
  function MedicationsOf(prs: seq<Row>): seq<Medication>
  {
    MedicationsAt(prs, FirstSeen(prs, MedicationColumn))
  }

  /** The record of a patient whose rows, in input order, are `prs`. */
  function Record(prs: seq<Row>): Patient
    requires |prs| > 0
  {
    ShellOf(prs[0]).(appointments := AppointmentsOf(prs), medications := MedicationsOf(prs))
  }

  function PatientKeys(rows: seq<Row>): (ks: seq<int>)
    ensures |ks| == |rows| && forall j :: 0 <= j < |rows| ==> ks[j] == rows[j].patientId
  {
    seq(|rows|, j requires 0 <= j < |rows| => rows[j].patientId)
  }

  /** The distinct elements of `xs` in order of first appearance. */
  function Distinct(xs: seq<int>): (d: seq<int>)
    ensures forall x :: x in d <==> x in xs
  {
    if xs == [] then []
    else
      var prev := xs[..|xs| - 1];
      Distinct(prev) + (if xs[|xs| - 1] in prev then [] else [xs[|xs| - 1]])
  }

  /** The rows of patient `pid`, in input order. */
  function RowsOf(rows: seq<Row>, pid: int): (prs: seq<Row>)
    ensures forall k :: 0 <= k < |prs| ==> prs[k].patientId == pid
  {
    if rows == [] then []
    else
      var prev := rows[..|rows| - 1];
      RowsOf(prev, pid) + (if rows[|rows| - 1].patientId == pid then [rows[|rows| - 1]] else [])
  }

  /** A patient has rows iff its id occurs in the patient-id column. */
  lemma {:induction false} RowsOfPresent(rows: seq<Row>, pid: int)
    ensures |RowsOf(rows, pid)| > 0 <==> pid in PatientKeys(rows)
  {
    if rows != [] {
      var prev := rows[..|rows| - 1];
      RowsOfPresent(prev, pid);
      assert PatientKeys(rows) == PatientKeys(prev) + [rows[|rows| - 1].patientId];
    }
  }

  /** What `fetch_patient_data` returns for the rows of the query. */
  function Group(rows: seq<Row>): seq<Patient>
  {
    var ids := Distinct(PatientKeys(rows));
    seq(|ids|, i requires 0 <= i < |ids| => RowsOfPresent(rows, ids[i]); Record(RowsOf(rows, ids[i])))
  }

  // ---------------------------------------------------------------------------
  // Properties of the regrouping

  /** Position of the first occurrence of `x` in `xs`. */
  function FirstPos(xs: seq<int>, x: int): (p: nat)
    requires x in xs
    ensures p < |xs| && xs[p] == x
    ensures forall q :: 0 <= q < p ==> xs[q] != x
  {
    if xs[0] == x then 0 else 1 + FirstPos(xs[1..], x)
  }

  lemma FirstPosUnique(xs: seq<int>, x: int, p: nat)
    requires p < |xs| && xs[p] == x
    requires forall q :: 0 <= q < p ==> xs[q] != x
    ensures FirstPos(xs, x) == p
  {
  }

  /** `Distinct` lists no value twice, and lists values in order of first appearance. */
  lemma {:induction false} DistinctOrdered(xs: seq<int>)
    ensures forall i, j :: 0 <= i < j < |Distinct(xs)| ==>
              FirstPos(xs, Distinct(xs)[i]) < FirstPos(xs, Distinct(xs)[j])
  {
    if xs != [] {
      var prev := xs[..|xs| - 1];
      var d, d' := Distinct(xs), Distinct(prev);
      DistinctOrdered(prev);
      forall x | x in prev
        ensures FirstPos(xs, x) == FirstPos(prev, x)
      {
        FirstPosUnique(xs, x, FirstPos(prev, x));
      }
      if xs[|xs| - 1] !in prev {
        FirstPosUnique(xs, xs[|xs| - 1], |xs| - 1);
      }
      forall i, j | 0 <= i < j < |d|
        ensures FirstPos(xs, d[i]) < FirstPos(xs, d[j])
      {
        assert d[i] == d'[i];
        if j < |d'| {
          assert d[j] == d'[j];
        }
      }
    }
  }

  /** The record built for patient `pid` carries that id. */
  lemma RecordId(rows: seq<Row>, pid: int)
    requires |RowsOf(rows, pid)| > 0
    ensures Record(RowsOf(rows, pid)).patientId == pid
  {
  }

  /** The patient ids of a list of records. */
  function Ids(ps: seq<Patient>): (ids: seq<int>)
    ensures |ids| == |ps| && forall k :: 0 <= k < |ps| ==> ids[k] == ps[k].patientId
  {
    seq(|ps|, k requires 0 <= k < |ps| => ps[k].patientId)
  }

  /** The k-th record belongs to the k-th distinct patient id of the rows. */
  lemma GroupIds(rows: seq<Row>)
    ensures Ids(Group(rows)) == Distinct(PatientKeys(rows))
  {
    var ids := Distinct(PatientKeys(rows));
    forall k | 0 <= k < |ids|
      ensures Group(rows)[k].patientId == ids[k]
    {
      RowsOfPresent(rows, ids[k]);
      RecordId(rows, ids[k]);
    }
  }

  /**
   * One record per distinct patient id of the rows, in order of first
   * appearance in the rows.
   */
  lemma GroupOnePerPatient(rows: seq<Row>)
    ensures forall pid :: pid in Ids(Group(rows)) <==> pid in PatientKeys(rows)
    ensures forall i, j :: 0 <= i < j < |Group(rows)| ==>
              FirstPos(PatientKeys(rows), Group(rows)[i].patientId) < FirstPos(PatientKeys(rows), Group(rows)[j].patientId)
  {
    GroupIds(rows);
    DistinctOrdered(PatientKeys(rows));
    var g := Group(rows);
    forall i, j | 0 <= i < j < |g|
      ensures FirstPos(PatientKeys(rows), g[i].patientId) < FirstPos(PatientKeys(rows), g[j].patientId)
    {
      assert g[i].patientId == Ids(g)[i] && g[j].patientId == Ids(g)[j];
    }
  }

  /** No two records share a patient id. */
  lemma GroupDistinctIds(rows: seq<Row>)
    ensures forall i, j :: 0 <= i < j < |Group(rows)| ==> Group(rows)[i].patientId != Group(rows)[j].patientId
  {
    GroupOnePerPatient(rows);
    var g := Group(rows);
    forall i, j | 0 <= i < j < |g|
      ensures g[i].patientId != g[j].patientId
    {
      assert g[i].patientId == Ids(g)[i] && g[j].patientId == Ids(g)[j];
    }
  }

  /** With the rows ordered by patient id (the query's ORDER BY), the records come in ascending id order. */
  lemma GroupAscending(rows: seq<Row>)
    requires forall i, j :: 0 <= i < j < |rows| ==> rows[i].patientId <= rows[j].patientId
    ensures forall i, j :: 0 <= i < j < |Group(rows)| ==> Group(rows)[i].patientId < Group(rows)[j].patientId
  {
    GroupOnePerPatient(rows);
    var keys := PatientKeys(rows);
    forall i, j | 0 <= i < j < |Group(rows)|
      ensures Group(rows)[i].patientId < Group(rows)[j].patientId
    {
      var a, b := Group(rows)[i].patientId, Group(rows)[j].patientId;
      assert a == Ids(Group(rows))[i] && b == Ids(Group(rows))[j];
      assert rows[FirstPos(keys, a)].patientId <= rows[FirstPos(keys, b)].patientId;
    }
  }

  /** A patient's first row, as found by the regrouping, is its first row in the input. */
  lemma {:induction false} RowsOfFirst(rows: seq<Row>, pid: int)
    requires pid in PatientKeys(rows)
    ensures |RowsOf(rows, pid)| > 0 && RowsOf(rows, pid)[0] == rows[FirstPos(PatientKeys(rows), pid)]
  {
    var prev := rows[..|rows| - 1];
    KeysSnocWhole(rows);
    RowsOfPresent(rows, pid);
    RowsOfPresent(prev, pid);
    if pid in PatientKeys(prev) {
      RowsOfFirst(prev, pid);
      FirstPosUnique(PatientKeys(rows), pid, FirstPos(PatientKeys(prev), pid));
    } else {
      FirstPosUnique(PatientKeys(rows), pid, |rows| - 1);
    }
  }

  lemma KeysSnocWhole(rows: seq<Row>)
    requires |rows| > 0
    ensures PatientKeys(rows) == PatientKeys(rows[..|rows| - 1]) + [rows[|rows| - 1].patientId]
  {
  }

  /**
   * The names, `doctor_id`, doctor and card of a record come from the
   * patient's first row; later rows never change them.  The doctor is
   * present iff that row's doctor surname is truthy, the card iff its
   * complaints are.
   */
  lemma GroupRecordShell(rows: seq<Row>, k: nat)
    requires k < |Group(rows)|
    ensures Group(rows)[k].patientId in PatientKeys(rows)
    ensures var p := Group(rows)[k];
            var first := rows[FirstPos(PatientKeys(rows), p.patientId)];
            && p == ShellOf(first).(appointments := p.appointments, medications := p.medications)
            && (p.doctor.Some? <==> StrTruthy(first.doctorSurname))
            && (p.medicalCard.Some? <==> StrTruthy(first.healthComplaints))
  {
    var ids := Distinct(PatientKeys(rows));
    GroupIds(rows);
    assert Group(rows)[k].patientId == ids[k] == Ids(Group(rows))[k];
    RowsOfFirst(rows, ids[k]);
  }

  /** The children of the k-th record are those of that patient's rows. */
  lemma GroupChildren(rows: seq<Row>, k: nat)
    requires k < |Group(rows)|
    ensures |RowsOf(rows, Group(rows)[k].patientId)| > 0
    ensures Group(rows)[k].appointments == AppointmentsOf(RowsOf(rows, Group(rows)[k].patientId))
    ensures Group(rows)[k].medications == MedicationsOf(RowsOf(rows, Group(rows)[k].patientId))
  {
    var ids := Distinct(PatientKeys(rows));
    GroupIds(rows);
    assert Group(rows)[k].patientId == ids[k] == Ids(Group(rows))[k];
    RowsOfPresent(rows, ids[k]);
  }

  /** Two listed children never share a key. */
  lemma ListedKeysDistinct(prs: seq<Row>, c: Column, a: nat, b: nat)
    requires a < b < |FirstSeen(prs, c)|
    ensures KeyOf(prs[FirstSeen(prs, c)[a]], c) != KeyOf(prs[FirstSeen(prs, c)[b]], c)
  {
    FirstSeenOrdered(prs, c);
  }

  /** No appointment id is listed twice. */
  lemma AppointmentIdsDistinct(prs: seq<Row>)
    ensures forall a, b :: 0 <= a < b < |AppointmentsOf(prs)| ==>
              AppointmentsOf(prs)[a].appointmentId != AppointmentsOf(prs)[b].appointmentId
  {
    forall a, b | 0 <= a < b < |AppointmentsOf(prs)|
      ensures AppointmentsOf(prs)[a].appointmentId != AppointmentsOf(prs)[b].appointmentId
    {
      ListedKeysDistinct(prs, AppointmentColumn, a, b);
    }
  }

  /** No medication id is listed twice. */
  lemma MedicationIdsDistinct(prs: seq<Row>)
    ensures forall a, b :: 0 <= a < b < |MedicationsOf(prs)| ==>
              MedicationsOf(prs)[a].medicationId != MedicationsOf(prs)[b].medicationId
  {
    forall a, b | 0 <= a < b < |MedicationsOf(prs)|
      ensures MedicationsOf(prs)[a].medicationId != MedicationsOf(prs)[b].medicationId
    {
      ListedKeysDistinct(prs, MedicationColumn, a, b);
    }
  }

  /** An appointment id is listed iff it is truthy and some row of the patient carries it. */
  lemma AppointmentsComplete(prs: seq<Row>)
    ensures forall id :: HasAppointmentId(AppointmentsOf(prs), id) <==> id != 0 && Seen(prs, AppointmentColumn, Some(id))
  {
    forall id
      ensures HasAppointmentId(AppointmentsOf(prs), id) <==> id != 0 && Seen(prs, AppointmentColumn, Some(id))
    {
      if id != 0 {
        AppointmentSeenIffListed(prs, id);
      }
    }
  }

  /** A medication id is listed iff it is truthy and some row of the patient carries it. */
  lemma MedicationsComplete(prs: seq<Row>)
    ensures forall id :: HasMedicationId(MedicationsOf(prs), id) <==> id != 0 && Seen(prs, MedicationColumn, Some(id))
  {
    forall id
      ensures HasMedicationId(MedicationsOf(prs), id) <==> id != 0 && Seen(prs, MedicationColumn, Some(id))
    {
      if id != 0 {
        MedicationSeenIffListed(prs, id);
      }
    }
  }

  /**
   * Each listed appointment is taken from the first row carrying its id,
   * and the list follows the order of those first rows.
   */
  lemma AppointmentsFirstSeen(prs: seq<Row>)
    ensures var idx := FirstSeen(prs, AppointmentColumn);
            && |AppointmentsOf(prs)| == |idx|
            && (forall m :: 0 <= m < |idx| ==> AppointmentsOf(prs)[m] == AppointmentOf(prs[idx[m]]))
            && (forall m, j :: 0 <= m < |idx| && 0 <= j < idx[m] ==> prs[j].appointmentId != prs[idx[m]].appointmentId)
            && (forall a, b :: 0 <= a < b < |idx| ==> idx[a] < idx[b])
  {
    FirstSeenOrdered(prs, AppointmentColumn);
  }

  /**
   * Each listed medication is taken from the first row carrying its id,
   * and the list follows the order of those first rows.
   */
  lemma MedicationsFirstSeen(prs: seq<Row>)
    ensures var idx := FirstSeen(prs, MedicationColumn);
            && |MedicationsOf(prs)| == |idx|
            && (forall m :: 0 <= m < |idx| ==> MedicationsOf(prs)[m] == MedicationOf(prs[idx[m]]))
            && (forall m, j :: 0 <= m < |idx| && 0 <= j < idx[m] ==> prs[j].medicationId != prs[idx[m]].medicationId)
            && (forall a, b :: 0 <= a < b < |idx| ==> idx[a] < idx[b])
  {
    FirstSeenOrdered(prs, MedicationColumn);
  }

  /** A later row whose appointment and medication ids are `None` or 0 leaves the record as it was. */
  lemma FalsyRowAddsNothing(prs: seq<Row>, row: Row)
    requires |prs| > 0 && !IntTruthy(row.appointmentId) && !IntTruthy(row.medicationId)
    ensures Record(prs + [row]) == Record(prs)
  {
    RecordSnoc(prs, row);
  }

  // ---------------------------------------------------------------------------
  // The loop of fetch_patient_data

  predicate HasAppointmentId(apps: seq<Appointment>, id: int)
  {
    exists k :: 0 <= k < |apps| && apps[k].appointmentId == id
  }

  predicate HasMedicationId(meds: seq<Medication>, id: int)
  {
    exists k :: 0 <= k < |meds| && meds[k].medicationId == id
  }

  /** The duplicate scan `any(a['appointment_id'] == id for a in appointments)`. */
  method ContainsAppointment(apps: seq<Appointment>, id: int) returns (found: bool)
    ensures found <==> HasAppointmentId(apps, id)
  {
    found := false;
    var k := 0;
    while k < |apps| && !found
      invariant 0 <= k <= |apps|
      invariant found <==> exists q :: 0 <= q < k && apps[q].appointmentId == id
    {
      found := apps[k].appointmentId == id;
      k := k + 1;
    }
  }

  /** The duplicate scan `any(m['medication_id'] == id for m in medications)`. */
  method ContainsMedication(meds: seq<Medication>, id: int) returns (found: bool)
    ensures found <==> HasMedicationId(meds, id)
  {
    found := false;
    var k := 0;
    while k < |meds| && !found
      invariant 0 <= k <= |meds|
      invariant found <==> exists q :: 0 <= q < k && meds[q].medicationId == id
    {
      found := meds[k].medicationId == id;
      k := k + 1;
    }
  }

  /** A truthy key was seen before iff one of the listed first sightings carries it. */
  lemma SeenIffListed(prs: seq<Row>, c: Column, k: Option<int>)
    requires IntTruthy(k)
    ensures Seen(prs, c, k) <==> exists m :: 0 <= m < |FirstSeen(prs, c)| && KeyOf(prs[FirstSeen(prs, c)[m]], c) == k
  {
    if Seen(prs, c, k) {
      var j :| 0 <= j < |prs| && KeyOf(prs[j], c) == k;
      var m := FirstSeenComplete(prs, c, j);
    }
  }

  lemma FirstSeenSnoc(prs: seq<Row>, row: Row, c: Column)
    ensures FirstSeen(prs + [row], c) ==
      FirstSeen(prs, c) + (if IntTruthy(KeyOf(row, c)) && !Seen(prs, c, KeyOf(row, c)) then [|prs|] else [])
  {
    assert (prs + [row])[..|prs|] == prs;
  }

  /** An appointment id is already in the list iff an earlier row of the patient carried it. */
  lemma AppointmentSeenIffListed(prs: seq<Row>, id: int)
    requires id != 0
    ensures Seen(prs, AppointmentColumn, Some(id)) <==> HasAppointmentId(AppointmentsOf(prs), id)
  {
    var c := AppointmentColumn;
    var idx := FirstSeen(prs, c);
    SeenIffListed(prs, c, Some(id));
    if Seen(prs, c, Some(id)) {
      var m :| 0 <= m < |idx| && KeyOf(prs[idx[m]], c) == Some(id);
      assert AppointmentsOf(prs)[m].appointmentId == id;
    }
  }

  lemma MedicationSeenIffListed(prs: seq<Row>, id: int)
    requires id != 0
    ensures Seen(prs, MedicationColumn, Some(id)) <==> HasMedicationId(MedicationsOf(prs), id)
  {
    var c := MedicationColumn;
    var idx := FirstSeen(prs, c);
    SeenIffListed(prs, c, Some(id));
    if Seen(prs, c, Some(id)) {
      var m :| 0 <= m < |idx| && KeyOf(prs[idx[m]], c) == Some(id);
      assert MedicationsOf(prs)[m].medicationId == id;
    }
  }

  /** Positions into `prs` pick the same children out of a longer list of rows. */
  lemma AppointmentsAtExtended(prs: seq<Row>, row: Row, idx: seq<nat>)
    requires forall m :: 0 <= m < |idx| ==> idx[m] < |prs| && IntTruthy(prs[idx[m]].appointmentId)
    ensures AppointmentsAt(prs + [row], idx) == AppointmentsAt(prs, idx)
  {
    assert forall m :: 0 <= m < |idx| ==> (prs + [row])[idx[m]] == prs[idx[m]];
  }

  lemma MedicationsAtExtended(prs: seq<Row>, row: Row, idx: seq<nat>)
    requires forall m :: 0 <= m < |idx| ==> idx[m] < |prs| && IntTruthy(prs[idx[m]].medicationId)
    ensures MedicationsAt(prs + [row], idx) == MedicationsAt(prs, idx)
  {
    assert forall m :: 0 <= m < |idx| ==> (prs + [row])[idx[m]] == prs[idx[m]];
  }

  lemma AppointmentsSnoc(prs: seq<Row>, row: Row)
    ensures AppointmentsOf(prs + [row]) ==
      AppointmentsOf(prs) + (if IntTruthy(row.appointmentId) && !HasAppointmentId(AppointmentsOf(prs), row.appointmentId.value)
                             then [AppointmentOf(row)] else [])
  {
    var c := AppointmentColumn;
    var idx := FirstSeen(prs, c);
    FirstSeenSnoc(prs, row, c);
    if IntTruthy(row.appointmentId) {
      AppointmentSeenIffListed(prs, row.appointmentId.value);
    }
    AppointmentsAtExtended(prs, row, idx);
    var extended := FirstSeen(prs + [row], c);
    if |extended| > |idx| {
      assert extended[..|idx|] == idx;
    }
  }

  lemma MedicationsSnoc(prs: seq<Row>, row: Row)
    ensures MedicationsOf(prs + [row]) ==
      MedicationsOf(prs) + (if IntTruthy(row.medicationId) && !HasMedicationId(MedicationsOf(prs), row.medicationId.value)
                            then [MedicationOf(row)] else [])
  {
    var c := MedicationColumn;
    var idx := FirstSeen(prs, c);
    FirstSeenSnoc(prs, row, c);
    if IntTruthy(row.medicationId) {
      MedicationSeenIffListed(prs, row.medicationId.value);
    }
    MedicationsAtExtended(prs, row, idx);
    var extended := FirstSeen(prs + [row], c);
    if |extended| > |idx| {
      assert extended[..|idx|] == idx;
    }
  }

  lemma RowsSnoc(rows: seq<Row>, i: nat, pid: int)
    requires i < |rows|
    ensures RowsOf(rows[..i + 1], pid) == RowsOf(rows[..i], pid) + (if rows[i].patientId == pid then [rows[i]] else [])
  {
    assert rows[..i + 1][..i] == rows[..i];
  }

  lemma KeysSnoc(rows: seq<Row>, i: nat)
    requires i < |rows|
    ensures PatientKeys(rows[..i + 1]) == PatientKeys(rows[..i]) + [rows[i].patientId]
    ensures Distinct(PatientKeys(rows[..i + 1])) ==
      Distinct(PatientKeys(rows[..i])) + (if rows[i].patientId in PatientKeys(rows[..i]) then [] else [rows[i].patientId])
  {
    assert rows[..i + 1][..i] == rows[..i];
    assert PatientKeys(rows[..i + 1])[..i] == PatientKeys(rows[..i]);
  }

  /** One more row leaves the rows of every other patient as they were. */
  lemma RowsSnocOthers(rows: seq<Row>, i: nat)
    requires i < |rows|
    ensures forall q :: q != rows[i].patientId ==> RowsOf(rows[..i + 1], q) == RowsOf(rows[..i], q)
  {
    forall q | q != rows[i].patientId
      ensures RowsOf(rows[..i + 1], q) == RowsOf(rows[..i], q)
    {
      RowsSnoc(rows, i, q);
    }
  }

  /** The record before a row's appointment and medication are considered. */
  function Before(prs: seq<Row>, row: Row): Patient
  {
    if prs == [] then ShellOf(row) else Record(prs)
  }

  /** The record after one more row of the same patient: its new appointment and medication, if any. */
  function Absorb(p: Patient, row: Row): Patient
  {
    p.(appointments := p.appointments + (if IntTruthy(row.appointmentId) && !HasAppointmentId(p.appointments, row.appointmentId.value)
                                         then [AppointmentOf(row)] else []),
       medications := p.medications + (if IntTruthy(row.medicationId) && !HasMedicationId(p.medications, row.medicationId.value)
                                       then [MedicationOf(row)] else []))
  }

  lemma RecordSnoc(prs: seq<Row>, row: Row)
    ensures Record(prs + [row]) == Absorb(Before(prs, row), row)
  {
    AppointmentsSnoc(prs, row);
    MedicationsSnoc(prs, row);
    if prs == [] {
      assert FirstSeen(prs, AppointmentColumn) == [];
      assert FirstSeen(prs, MedicationColumn) == [];
    }
  }

  /** The body of the row loop for a patient whose record so far is `p`. */
  method AbsorbRow(p: Patient, row: Row) returns (q: Patient)
    ensures q == Absorb(p, row)
  {
    q := p;
    if IntTruthy(row.appointmentId) {
      var appointment := AppointmentOf(row);
      var seen := ContainsAppointment(q.appointments, appointment.appointmentId);
      if !seen {
        q := q.(appointments := q.appointments + [appointment]);
      }
    }
    if IntTruthy(row.medicationId) {
      var medication := MedicationOf(row);
      var seen := ContainsMedication(q.medications, medication.medicationId);
      if !seen {
        q := q.(medications := q.medications + [medication]);
      }
    }
  }

  /** After the rows `rows[..i]`, `order` lists the patient ids in order of first appearance and keys the dict. */
  ghost predicate OrderKept(rows: seq<Row>, i: nat, order: seq<int>, patients: map<int, Patient>)
    requires i <= |rows|
  {
    && order == Distinct(PatientKeys(rows[..i]))
    && (forall q :: q in patients <==> q in order)
  }

  /** After the rows `rows[..i]`, the dict holds the record of each patient's rows so far. */
  ghost predicate RecordsKept(rows: seq<Row>, i: nat, patients: map<int, Patient>)
    requires i <= |rows|
  {
    forall q :: q in patients ==> |RowsOf(rows[..i], q)| > 0 && patients[q] == Record(RowsOf(rows[..i], q))
  }

  /** The first row of a patient appends its id to `order` and adds its key. */
  lemma OrderStep(rows: seq<Row>, i: nat, order: seq<int>, patients: map<int, Patient>, p: Patient)
    requires i < |rows| && OrderKept(rows, i, order, patients)
    ensures OrderKept(rows, i + 1, if rows[i].patientId in patients then order else order + [rows[i].patientId],
                      patients[rows[i].patientId := p])
  {
    KeysSnoc(rows, i);
  }

  /** A row rebuilds its own patient's record and leaves the others alone. */
  lemma RecordsStep(rows: seq<Row>, i: nat, order: seq<int>, patients: map<int, Patient>, p: Patient)
    requires i < |rows| && OrderKept(rows, i, order, patients) && RecordsKept(rows, i, patients)
    requires p == Absorb(if rows[i].patientId in patients then patients[rows[i].patientId] else ShellOf(rows[i]), rows[i])
    ensures RecordsKept(rows, i + 1, patients[rows[i].patientId := p])
  {
    var pid := rows[i].patientId;
    var patients' := patients[pid := p];
    FetchedOwnRecord(rows, i, order, patients);
    FetchedOtherRecords(rows, i, patients);
    forall q | q in patients'
      ensures |RowsOf(rows[..i + 1], q)| > 0 && patients'[q] == Record(RowsOf(rows[..i + 1], q))
    {
      if q != pid {
        assert patients'[q] == patients[q];
      }
    }
  }

  /** A row leaves the records of the other patients unchanged. */
  lemma FetchedOtherRecords(rows: seq<Row>, i: nat, patients: map<int, Patient>)
    requires i < |rows| && RecordsKept(rows, i, patients)
    ensures forall q :: q in patients && q != rows[i].patientId ==>
              |RowsOf(rows[..i + 1], q)| > 0 && patients[q] == Record(RowsOf(rows[..i + 1], q))
  {
    RowsSnocOthers(rows, i);
  }

  /** The record of the row's own patient after the row. */
  lemma FetchedOwnRecord(rows: seq<Row>, i: nat, order: seq<int>, patients: map<int, Patient>)
    requires i < |rows| && OrderKept(rows, i, order, patients) && RecordsKept(rows, i, patients)
    ensures var pid := rows[i].patientId;
            var before := if pid in patients then patients[pid] else ShellOf(rows[i]);
            |RowsOf(rows[..i + 1], pid)| > 0 && Absorb(before, rows[i]) == Record(RowsOf(rows[..i + 1], pid))
  {
    var pid := rows[i].patientId;
    var prs := RowsOf(rows[..i], pid);
    KeysSnoc(rows, i);
    RowsOfPresent(rows[..i], pid);
    RowsSnoc(rows, i, pid);
    RecordSnoc(prs, rows[i]);
  }

  lemma FetchedDone(rows: seq<Row>, order: seq<int>, patients: map<int, Patient>)
    requires OrderKept(rows, |rows|, order, patients) && RecordsKept(rows, |rows|, patients)
    ensures forall k :: 0 <= k < |order| ==> order[k] in patients
    ensures seq(|order|, k requires 0 <= k < |order| => patients[order[k]]) == Group(rows)
  {
    assert rows[..|rows|] == rows;
    var g := Group(rows);
    forall k | 0 <= k < |order|
      ensures patients[order[k]] == g[k]
    {
      RowsOfPresent(rows, order[k]);
    }
  }

  /**
   * `fetch_patient_data` after the query: one pass over the rows fills a
   * dict keyed by patient id (insertion order kept in `order`), creating a
   * record on a patient's first row and appending each appointment and
   * medication whose id is truthy and not yet in the record's list.
   */
  method FetchPatientData(rows: seq<Row>) returns (result: seq<Patient>)
    ensures result == Group(rows)
  {
    var patients: map<int, Patient> := map[];
    var order: seq<int> := [];
    for i := 0 to |rows|
      invariant OrderKept(rows, i, order, patients)
      invariant RecordsKept(rows, i, patients)
    {
      var row := rows[i];
      var pid := row.patientId;
      var p;
      if pid in patients {
        p := patients[pid];
      } else {
        p := ShellOf(row);
        order := order + [pid];
      }
      p := AbsorbRow(p, row);
      OrderStep(rows, i, if pid in patients then order else order[..|order| - 1], patients, p);
      RecordsStep(rows, i, if pid in patients then order else order[..|order| - 1], patients, p);
      patients := patients[pid := p];
    }
    FetchedDone(rows, order, patients);
    result := seq(|order|, k requires 0 <= k < |order| => patients[order[k]]);
  }
}
