/**
 * The console front end of src/main/python/init.py: the `HospitalSystem`
 * object holding the logged-in doctor and patient, and the three tables it
 * reads and rewrites (`doctors`, `patients`, `medical_cards`), each modelled
 * as a map from its primary key to the rest of its row.
 */
module HospitalSession {
  import opened Wrappers
  import opened PyText

  datatype DoctorRow = DoctorRow(surname: string, name: string, patronymic: string, password: string)

  datatype PatientRow = PatientRow(surname: string, name: string, patronymic: string, doctorId: Option<int>)

  datatype CardRow = CardRow(healthComplaints: Option<string>, medicalHistory: Option<string>)

  // ---------------------------------------------------------------------------
  // create_doctors_if_not_exist

  /** The two doctors the system guarantees, with their ids and passwords. */
  const SeedList: seq<(int, DoctorRow)> := [
    (111, DoctorRow("Антибиотиков", "Андрей", "Андреевич", "doctor111")),
    (222, DoctorRow("Вируснов", "Виталий", "Витальевич", "doctor222"))]

  /** One `SELECT` then `INSERT` when the id is missing: an existing row is left as it is. */
  function InsertMissing(ds: map<int, DoctorRow>, e: (int, DoctorRow)): map<int, DoctorRow>
  {
    if e.0 in ds then ds else ds[e.0 := e.1]
  }

  /** The insert-if-absent loop over a list of doctors. */
  function InsertAllMissing(ds: map<int, DoctorRow>, es: seq<(int, DoctorRow)>): map<int, DoctorRow>
  {
    if es == [] then ds else InsertMissing(InsertAllMissing(ds, es[..|es| - 1]), es[|es| - 1])
  }

  /** The doctors table after `create_doctors_if_not_exist`: 5 and 6 deleted, 111 and 222 added if absent. */
  function SeedDoctors(ds: map<int, DoctorRow>): map<int, DoctorRow>
  {
    InsertAllMissing(ds - {5, 6}, SeedList)
  }

  /** Row by row, what seeding does to the doctors table. */
  lemma SeedDoctorsAt(ds: map<int, DoctorRow>, id: int)
    ensures id in SeedDoctors(ds) <==> id == 111 || id == 222 || (id in ds && id != 5 && id != 6)
    ensures id in SeedDoctors(ds) ==>
      SeedDoctors(ds)[id] == if id in ds && id != 5 && id != 6 then ds[id] else if id == 111 then SeedList[0].1 else SeedList[1].1
  {
    var base := ds - {5, 6};
    assert SeedList[..1] == [SeedList[0]] && [SeedList[0]][..0] == [];
    assert InsertAllMissing(base, SeedList[..1]) == InsertMissing(base, SeedList[0]);
  }

  /** Afterwards doctors 5 and 6 are gone and doctors 111 and 222 exist. */
  lemma SeedGuarantees(ds: map<int, DoctorRow>)
    ensures 5 !in SeedDoctors(ds) && 6 !in SeedDoctors(ds)
    ensures 111 in SeedDoctors(ds) && 222 in SeedDoctors(ds)
  {
    SeedDoctorsAt(ds, 5);
    SeedDoctorsAt(ds, 6);
    SeedDoctorsAt(ds, 111);
    SeedDoctorsAt(ds, 222);
  }

  /** An existing 111 or 222 is not overwritten; a missing one gets its fixed row. */
  lemma SeedKeepsExisting(ds: map<int, DoctorRow>, id: int)
    requires id == 111 || id == 222
    ensures id in SeedDoctors(ds)
    ensures id in ds ==> SeedDoctors(ds)[id] == ds[id]
    ensures id !in ds ==> SeedDoctors(ds)[id] == (if id == 111 then SeedList[0].1 else SeedList[1].1)
  {
    SeedDoctorsAt(ds, id);
  }

  /** Every other doctor is untouched. */
  lemma SeedOthersUntouched(ds: map<int, DoctorRow>, id: int)
    requires id != 5 && id != 6 && id != 111 && id != 222
    ensures id in SeedDoctors(ds) <==> id in ds
    ensures id in ds ==> SeedDoctors(ds)[id] == ds[id]
  {
    SeedDoctorsAt(ds, id);
  }

  /** Seeding twice is seeding once. */
  lemma SeedIdempotent(ds: map<int, DoctorRow>)
    ensures SeedDoctors(SeedDoctors(ds)) == SeedDoctors(ds)
  {
    var once := SeedDoctors(ds);
    forall id | true
      ensures id in SeedDoctors(once) <==> id in once
      ensures id in once ==> SeedDoctors(once)[id] == once[id]
    {
      SeedDoctorsAt(ds, id);
      SeedDoctorsAt(once, id);
      SeedDoctorsAt(ds, 111);
      SeedDoctorsAt(ds, 222);
    }
  }

  lemma InsertAllMissingSnoc(ds: map<int, DoctorRow>, es: seq<(int, DoctorRow)>, e: (int, DoctorRow))
    ensures InsertAllMissing(ds, es + [e]) == InsertMissing(InsertAllMissing(ds, es), e)
  {
    assert (es + [e])[..|es + [e]| - 1] == es;
  }

  // ---------------------------------------------------------------------------
  // fix_all_doctors_patients

  /** The seven patients, in the order they are inserted: 1, 2, 3 and 7 go to doctor 111, 4, 5 and 6 to doctor 222. */
  const PatientSeed: seq<(int, PatientRow)> := [
    (1, PatientRow("Белкин", "Дмитрий", "Дмитриевич", Some(111))),
    (2, PatientRow("Волков", "Андрей", "Владимирович", Some(111))),
    (3, PatientRow("Котов", "Владислав", "Владиславович", Some(111))),
    (7, PatientRow("Соколов", "Олег", "Олегович", Some(111))),
    (4, PatientRow("Медведев", "Михаил", "Михайлович", Some(222))),
    (5, PatientRow("Стрелкин", "Николай", "Николаевич", Some(222))),
    (6, PatientRow("Петров", "Антон", "Антонович", Some(222)))]

  /** The seven medical cards, one per patient. */
  const CardSeed: seq<(int, CardRow)> := [
    (1, CardRow(Some("Головная боль, кашель, температура"), Some("Ранее болел ОРВИ и простой простудой"))),
    (2, CardRow(Some("Кашель, высокая температура"), Some("Ранее болел простой простудой"))),
    (3, CardRow(Some("Озноб, головная боль, головокружение"), Some("Ранее болел ОРВИ"))),
    (4, CardRow(Some("Насморк, красное горло, кашель"), Some("Ранее болел ангиной"))),
    (5, CardRow(Some("Насморк, головная боль, головокружение"), Some("Ранее ничем не болел"))),
    (6, CardRow(Some("Кашель, озноб"), Some("Ранее болел простой простудой"))),
    (7, CardRow(Some("Кашель, насморк, головная боль, красное горло"), Some("Ранее болел ОРВИ и простой простудой")))]

  /** The table `executemany` leaves behind when it inserts `rows` into an empty table. */
  function TableOf<R>(rows: seq<(int, R)>): map<int, R>
  {
    if rows == [] then map[] else TableOf(rows[..|rows| - 1])[rows[|rows| - 1].0 := rows[|rows| - 1].1]
  }

  /** The ids of a list of rows. */
  function IdsOf<R>(rows: seq<(int, R)>): set<int>
  {
    set k | 0 <= k < |rows| :: rows[k].0
  }

  /** The table holds exactly the ids inserted, each with its row when the ids are distinct. */
  lemma {:induction false} TableOfRows<R>(rows: seq<(int, R)>)
    requires forall i, j :: 0 <= i < j < |rows| ==> rows[i].0 != rows[j].0
    ensures TableOf(rows).Keys == IdsOf(rows)
    ensures forall k :: 0 <= k < |rows| ==> TableOf(rows)[rows[k].0] == rows[k].1
  {
    if rows != [] {
      var init := rows[..|rows| - 1];
      TableOfRows(init);
      assert IdsOf(rows) == IdsOf(init) + {rows[|rows| - 1].0} by {
        forall id | id in IdsOf(rows) ensures id in IdsOf(init) + {rows[|rows| - 1].0} {
          var k :| 0 <= k < |rows| && rows[k].0 == id;
          if k < |rows| - 1 {
            assert init[k].0 == id;
          }
        }
        forall id | id in IdsOf(init) ensures id in IdsOf(rows) {
          var k :| 0 <= k < |init| && init[k].0 == id;
          assert rows[k].0 == id;
        }
      }
      forall k | 0 <= k < |rows|
        ensures TableOf(rows)[rows[k].0] == rows[k].1
      {
        if k < |rows| - 1 {
          assert init[k] == rows[k];
        }
      }
    }
  }

  /** After the reassignment the patients are exactly 1 to 7. */
  lemma FixedPatientIds()
    ensures TableOf(PatientSeed).Keys == {1, 2, 3, 4, 5, 6, 7}
  {
    TableOfRows(PatientSeed);
    assert PatientSeed[0].0 == 1 && PatientSeed[1].0 == 2 && PatientSeed[2].0 == 3 && PatientSeed[3].0 == 7;
    assert PatientSeed[4].0 == 4 && PatientSeed[5].0 == 5 && PatientSeed[6].0 == 6;
  }

  /** Every one of them has a card, and there is no other card. */
  lemma FixedCardIds()
    ensures TableOf(CardSeed).Keys == TableOf(PatientSeed).Keys
  {
    FixedPatientIds();
    CardIds();
  }

  lemma CardIds()
    ensures TableOf(CardSeed).Keys == {1, 2, 3, 4, 5, 6, 7}
  {
    TableOfRows(CardSeed);
    assert CardSeed[0].0 == 1 && CardSeed[1].0 == 2 && CardSeed[2].0 == 3 && CardSeed[3].0 == 4;
    assert CardSeed[4].0 == 5 && CardSeed[5].0 == 6 && CardSeed[6].0 == 7;
  }

  /** Patients 1, 2, 3 and 7 are under doctor 111, patients 4, 5 and 6 under doctor 222. */
  lemma FixedAssignment(id: int)
    requires id in TableOf(PatientSeed)
    ensures TableOf(PatientSeed)[id].doctorId == Some(if 4 <= id <= 6 then 222 else 111)
  {
    TableOfRows(PatientSeed);
    var k :| 0 <= k < |PatientSeed| && PatientSeed[k].0 == id;
  }

  lemma TableOfSnoc<R>(rows: seq<(int, R)>, row: (int, R))
    ensures TableOf(rows + [row]) == TableOf(rows)[row.0 := row.1]
  {
    assert (rows + [row])[..|rows + [row]| - 1] == rows;
  }

  // ---------------------------------------------------------------------------
  // Reading the tables

  /** Why `doctor_login` refused, or whom it logged in. */
  datatype LoginResult = UnknownDoctor | WrongPassword | LoggedIn(doctorId: int)

  /** `doctor_login` looks the id up, then compares the password with the stored one. */
  function DoctorLoginResult(ds: map<int, DoctorRow>, id: int, password: string): (r: LoginResult)
    ensures r == UnknownDoctor <==> id !in ds
    ensures r.LoggedIn? <==> id in ds && password == ds[id].password
    ensures r == WrongPassword <==> id in ds && password != ds[id].password
    ensures r.LoggedIn? ==> r.doctorId == id
  {
    if id !in ds then UnknownDoctor
    else if password == ds[id].password then LoggedIn(id)
    else WrongPassword
  }

  /** The card as `get_patient_medical_info_by_id` fetches it; a patient without a card has `None` fields. */
  datatype MedicalInfo = MedicalInfo(surname: string, name: string, patronymic: string,
                                     healthComplaints: Option<string>, medicalHistory: Option<string>)

  datatype Access = PatientNotFound | NotYourPatient | CardShown(info: MedicalInfo)

  /**
   * `get_patient_medical_info_by_id`: the patient must exist, and `str()` of
   * its doctor id must equal `str()` of the logged-in doctor's id.
   */
  function MedicalInfoAccess(ps: map<int, PatientRow>, cards: map<int, CardRow>, currentDoctorId: Option<int>,
                             patientId: int): Access
  {
    if patientId !in ps then PatientNotFound
    else if OptIntText(ps[patientId].doctorId) != OptIntText(currentDoctorId) then NotYourPatient
    else
      var p := ps[patientId];
      var card := if patientId in cards then cards[patientId] else CardRow(None, None);
      CardShown(MedicalInfo(p.surname, p.name, p.patronymic, card.healthComplaints, card.medicalHistory))
  }

  /**
   * The card is shown exactly when the patient exists and belongs to the
   * logged-in doctor; a missing and a foreign patient are refused differently.
   */
  lemma AccessOnlyOwnPatients(ps: map<int, PatientRow>, cards: map<int, CardRow>, current: Option<int>, pid: int)
    ensures MedicalInfoAccess(ps, cards, current, pid).CardShown? <==> pid in ps && ps[pid].doctorId == current
    ensures MedicalInfoAccess(ps, cards, current, pid) == PatientNotFound <==> pid !in ps
    ensures MedicalInfoAccess(ps, cards, current, pid) == NotYourPatient <==> pid in ps && ps[pid].doctorId != current
  {
    if pid in ps {
      OptIntTextInjective(ps[pid].doctorId, current);
    }
  }

  /** The card shown is the patient's own, with `None` fields when there is no card. */
  lemma AccessShowsOwnCard(ps: map<int, PatientRow>, cards: map<int, CardRow>, current: Option<int>, pid: int)
    requires MedicalInfoAccess(ps, cards, current, pid).CardShown?
    ensures var info := MedicalInfoAccess(ps, cards, current, pid).info;
      info.surname == ps[pid].surname &&
      (pid in cards ==> info.healthComplaints == cards[pid].healthComplaints && info.medicalHistory == cards[pid].medicalHistory) &&
      (pid !in cards ==> info.healthComplaints.None? && info.medicalHistory.None?)
  {
  }

  /** Doctors 5 and 6 can never log in after seeding, whatever the password. */
  lemma RemovedDoctorsCannotLogIn(ds: map<int, DoctorRow>, password: string)
    ensures DoctorLoginResult(SeedDoctors(ds), 5, password) == UnknownDoctor
    ensures DoctorLoginResult(SeedDoctors(ds), 6, password) == UnknownDoctor
  {
    SeedGuarantees(ds);
  }

  /** A freshly seeded doctor 111 logs in with `doctor111`, and with no other password. */
  lemma SeededDoctorLogsIn(ds: map<int, DoctorRow>, password: string)
    requires 111 !in ds
    ensures DoctorLoginResult(SeedDoctors(ds), 111, password).LoggedIn? <==> password == "doctor111"
  {
    SeedKeepsExisting(ds, 111);
  }

  /** After the reassignment, doctor 111 sees the cards of patients 1, 2, 3 and 7 and no other. */
  lemma Doctor111SeesOwnCards(pid: int)
    ensures MedicalInfoAccess(TableOf(PatientSeed), TableOf(CardSeed), Some(111), pid).CardShown? <==>
              pid == 1 || pid == 2 || pid == 3 || pid == 7
  {
    FixedPatientIds();
    if pid in TableOf(PatientSeed) {
      FixedAssignment(pid);
    }
    AccessOnlyOwnPatients(TableOf(PatientSeed), TableOf(CardSeed), Some(111), pid);
  }

  // ---------------------------------------------------------------------------
  // The menu gate of main

  datatype Action = DoctorLogin | PatientLogin | ViewCard | DoctorsOnly | Reassign | Quit | InvalidChoice

  /** The branch `main` takes for a menu choice, given who is logged in. */
  function MenuAction(choice: string, currentDoctorId: Option<int>): Action
  {
    if choice == "1" then DoctorLogin
    else if choice == "2" then PatientLogin
    else if choice == "3" then (if currentDoctorId.Some? && currentDoctorId.value != 0 then ViewCard else DoctorsOnly)
    else if choice == "4" then Reassign
    else if choice == "5" then Quit
    else InvalidChoice
  }

  /** Viewing a card is reached only through option 3 and only with a truthy doctor id. */
  lemma ViewCardNeedsDoctor(choice: string, current: Option<int>)
    ensures MenuAction(choice, current) == ViewCard <==> choice == "3" && current.Some? && current.value != 0
  {
  }

  /**
   * Through the menu, an unassigned patient's card is never shown: the gate
   * requires a logged-in doctor, and `str(None)` only equals `str(None)`.
   */
  lemma MenuNeverShowsUnassigned(ps: map<int, PatientRow>, cards: map<int, CardRow>, current: Option<int>, pid: int)
    requires MenuAction("3", current) == ViewCard
    requires pid in ps && ps[pid].doctorId.None?
    ensures MedicalInfoAccess(ps, cards, current, pid) == NotYourPatient
  {
    AccessOnlyOwnPatients(ps, cards, current, pid);
  }

  // ---------------------------------------------------------------------------
  // The object

  class HospitalSystem {
    var doctors: map<int, DoctorRow>
    var patients: map<int, PatientRow>
    var medicalCards: map<int, CardRow>
    var currentDoctorId: Option<int>
    var currentPatientId: Option<int>

    /** `__init__`: nobody is logged in, and the two doctors are seeded into the existing tables. */
    constructor (ds: map<int, DoctorRow>, ps: map<int, PatientRow>, cards: map<int, CardRow>)
      ensures doctors == SeedDoctors(ds) && patients == ps && medicalCards == cards
      ensures currentDoctorId.None? && currentPatientId.None?
    {
      doctors := ds;
      patients := ps;
      medicalCards := cards;
      currentDoctorId := None;
      currentPatientId := None;
      new;
      CreateDoctorsIfNotExist();
    }

    /** `create_doctors_if_not_exist`: delete 5 and 6, then insert 111 and 222 where absent. */
    method CreateDoctorsIfNotExist()
      modifies this
      ensures doctors == SeedDoctors(old(doctors))
      ensures patients == old(patients) && medicalCards == old(medicalCards)
      ensures currentDoctorId == old(currentDoctorId) && currentPatientId == old(currentPatientId)
    {
      doctors := doctors - {5, 6};
      ghost var base := doctors;
      for k := 0 to |SeedList|
        invariant doctors == InsertAllMissing(base, SeedList[..k])
        invariant patients == old(patients) && medicalCards == old(medicalCards)
        invariant currentDoctorId == old(currentDoctorId) && currentPatientId == old(currentPatientId)
      {
        var (id, row) := SeedList[k];
        if id !in doctors {
          doctors := doctors[id := row];
        }
        InsertAllMissingSnoc(base, SeedList[..k], SeedList[k]);
        assert SeedList[..k + 1] == SeedList[..k] + [SeedList[k]];
      }
      assert SeedList[..|SeedList|] == SeedList;
    }

    /** `fix_all_doctors_patients`: both tables emptied, then refilled with the seven fixed rows. */
    method FixAllDoctorsPatients()
      modifies this
      ensures patients == TableOf(PatientSeed) && medicalCards == TableOf(CardSeed)
      ensures doctors == old(doctors)
      ensures currentDoctorId == old(currentDoctorId) && currentPatientId == old(currentPatientId)
    {
      patients := map[];
      medicalCards := map[];
      for k := 0 to |PatientSeed|
        invariant patients == TableOf(PatientSeed[..k])
        invariant medicalCards == map[]
        invariant doctors == old(doctors)
        invariant currentDoctorId == old(currentDoctorId) && currentPatientId == old(currentPatientId)
      {
        TableOfSnoc(PatientSeed[..k], PatientSeed[k]);
        assert PatientSeed[..k + 1] == PatientSeed[..k] + [PatientSeed[k]];
        patients := patients[PatientSeed[k].0 := PatientSeed[k].1];
      }
      for k := 0 to |CardSeed|
        invariant medicalCards == TableOf(CardSeed[..k])
        invariant patients == TableOf(PatientSeed[..|PatientSeed|])
        invariant doctors == old(doctors)
        invariant currentDoctorId == old(currentDoctorId) && currentPatientId == old(currentPatientId)
      {
        TableOfSnoc(CardSeed[..k], CardSeed[k]);
        assert CardSeed[..k + 1] == CardSeed[..k] + [CardSeed[k]];
        medicalCards := medicalCards[CardSeed[k].0 := CardSeed[k].1];
      }
      assert PatientSeed[..|PatientSeed|] == PatientSeed;
      assert CardSeed[..|CardSeed|] == CardSeed;
    }

    /**
     * `doctor_login`: an unknown id or a wrong password returns false and
     * changes nothing; the right password logs the doctor in, leaving the
     * logged-in patient as it was.
     */
    method DoctorLogin(id: int, password: string) returns (ok: bool)
      modifies this
      ensures ok <==> DoctorLoginResult(old(doctors), id, password).LoggedIn?
      ensures currentDoctorId == if ok then Some(id) else old(currentDoctorId)
      ensures currentPatientId == old(currentPatientId)
      ensures doctors == old(doctors) && patients == old(patients) && medicalCards == old(medicalCards)
    {
      if id !in doctors {
        return false;
      }
      if password == doctors[id].password {
        currentDoctorId := Some(id);
        return true;
      }
      return false;
    }

    /** `patient_login`: no password; an existing id logs the patient in, an unknown one changes nothing. */
    method PatientLogin(id: int) returns (ok: bool)
      modifies this
      ensures ok <==> id in old(patients)
      ensures currentPatientId == if ok then Some(id) else old(currentPatientId)
      ensures currentDoctorId == old(currentDoctorId)
      ensures doctors == old(doctors) && patients == old(patients) && medicalCards == old(medicalCards)
    {
      if id !in patients {
        return false;
      }
      currentPatientId := Some(id);
      return true;
    }

    /** `get_patient_medical_info_by_id` on the current tables and the logged-in doctor. */
    function MedicalInfoById(patientId: int): (r: Access)
      reads this
      ensures r.CardShown? <==> patientId in patients && patients[patientId].doctorId == currentDoctorId
    {
      AccessOnlyOwnPatients(patients, medicalCards, currentDoctorId, patientId);
      MedicalInfoAccess(patients, medicalCards, currentDoctorId, patientId)
    }
  }
}
