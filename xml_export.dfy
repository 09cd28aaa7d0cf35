/**
 * The element tree of the XML export (export_tool/data_exporter.py,
 * `export_to_xml`): a `patients` root with one `patient` element per record.
 * The tree is modelled as built; how ElementTree escapes and writes it is
 * not part of this model.
 */
module XmlExport {
  import opened Wrappers
  import opened PyText
  import opened PatientGraph

  /** An element: its tag, its `.text` (`None` for an element without text) and its children in order. */
  datatype Element = Element(tag: string, text: Option<string>, children: seq<Element>)

  /** A `SubElement` whose `.text` is set and that has no children. */
  function Leaf(tag: string, text: Option<string>): Element
  {
    Element(tag, text, [])
  }

  /** `str(b)` for a bool. */
  function BoolText(b: bool): string
  {
    if b then "True" else "False"
  }

  /** `x or ''`: a missing or empty text becomes the empty text. */
  function OrEmpty(o: Option<string>): Option<string>
  {
    match o
    case None => Some("")
    case Some(s) => Some(s)
  }

  function DoctorElement(d: Doctor): Element
  {
    Element("doctor", None, [Leaf("surname", Some(d.surname)), Leaf("name", d.name), Leaf("patronymic", d.patronymic)])
  }

  function CardElement(c: MedicalCard): Element
  {
    Element("medical_card", None, [
      Leaf("health_complaints", OrEmpty(Some(c.healthComplaints))),
      Leaf("medical_history", OrEmpty(c.medicalHistory)),
      Leaf("treatment_plan", OrEmpty(c.treatmentPlan))])
  }

  function AppointmentElement(a: Appointment): Element
  {
    Element("appointment", None, [
      Leaf("appointment_id", Some(IntToString(a.appointmentId))),
      Leaf("appointment_date", a.appointmentDate),
      Leaf("appointment_time", a.appointmentTime),
      Leaf("confirmed", Some(BoolText(a.confirmed)))])
  }

  function MedicationElement(m: Medication): Element
  {
    Element("medication", None, [
      Leaf("medication_id", Some(IntToString(m.medicationId))),
      Leaf("medication_name", m.medicationName),
      Leaf("usage_description", m.usageDescription),
      Leaf("is_taken", Some(BoolText(m.isTaken)))])
  }

  function AppointmentElements(apps: seq<Appointment>): (es: seq<Element>)
    ensures |es| == |apps| && forall k :: 0 <= k < |apps| ==> es[k] == AppointmentElement(apps[k])
  {
    seq(|apps|, k requires 0 <= k < |apps| => AppointmentElement(apps[k]))
  }

  function MedicationElements(meds: seq<Medication>): (es: seq<Element>)
    ensures |es| == |meds| && forall k :: 0 <= k < |meds| ==> es[k] == MedicationElement(meds[k])
  {
    seq(|meds|, k requires 0 <= k < |meds| => MedicationElement(meds[k]))
  }

  /** The five leaves every `patient` element starts with. */
  function FieldElements(p: Patient): seq<Element>
  {
    [Leaf("patient_id", Some(IntToString(p.patientId))), Leaf("surname", Some(p.surname)),
     Leaf("name", Some(p.name)), Leaf("patronymic", Some(p.patronymic)),
     Leaf("doctor_id", Some(OptIntText(p.doctorId)))]
  }

  /** `doctor`, written only when the record has one. */
  function DoctorPart(p: Patient): seq<Element>
  {
    match p.doctor
    case None => []
    case Some(d) => [DoctorElement(d)]
  }

  /** `medical_card`, written only when the record has one. */
  function CardPart(p: Patient): seq<Element>
  {
    match p.medicalCard
    case None => []
    case Some(c) => [CardElement(c)]
  }

  /** The `appointments` and `medications` containers, written always. */
  function Containers(p: Patient): seq<Element>
  {
    [Element("appointments", None, AppointmentElements(p.appointments)),
     Element("medications", None, MedicationElements(p.medications))]
  }

  /** The `patient` element of one record. */
  function PatientElement(p: Patient): Element
  {
    Element("patient", None, FieldElements(p) + DoctorPart(p) + CardPart(p) + Containers(p))
  }

  function PatientElements(data: seq<Patient>): (es: seq<Element>)
    ensures |es| == |data| && forall k :: 0 <= k < |data| ==> es[k] == PatientElement(data[k])
  {
    seq(|data|, k requires 0 <= k < |data| => PatientElement(data[k]))
  }

  /** The whole tree handed to ElementTree. */
  function XmlTree(data: seq<Patient>): Element
  {
    Element("patients", None, PatientElements(data))
  }

  // ---------------------------------------------------------------------------
  // The loops of export_to_xml

  /** The `appointments` container, filled one `SubElement` at a time. */
  method BuildAppointments(apps: seq<Appointment>) returns (e: Element)
    ensures e == Element("appointments", None, AppointmentElements(apps))
  {
    var children: seq<Element> := [];
    for k := 0 to |apps|
      invariant children == AppointmentElements(apps[..k])
    {
      children := children + [AppointmentElement(apps[k])];
    }
    assert apps[..|apps|] == apps;
    e := Element("appointments", None, children);
  }

  /** The `medications` container, filled one `SubElement` at a time. */
  method BuildMedications(meds: seq<Medication>) returns (e: Element)
    ensures e == Element("medications", None, MedicationElements(meds))
  {
    var children: seq<Element> := [];
    for k := 0 to |meds|
      invariant children == MedicationElements(meds[..k])
    {
      children := children + [MedicationElement(meds[k])];
    }
    assert meds[..|meds|] == meds;
    e := Element("medications", None, children);
  }

  /** The body of the patient loop: the `patient` element, child by child. */
  method BuildPatient(p: Patient) returns (e: Element)
    ensures e == PatientElement(p)
  {
    var children := [Leaf("patient_id", Some(IntToString(p.patientId))), Leaf("surname", Some(p.surname)),
                     Leaf("name", Some(p.name)), Leaf("patronymic", Some(p.patronymic)),
                     Leaf("doctor_id", Some(OptIntText(p.doctorId)))];
    if p.doctor.Some? {
      children := children + [DoctorElement(p.doctor.value)];
    }
    if p.medicalCard.Some? {
      children := children + [CardElement(p.medicalCard.value)];
    }
    var appointments := BuildAppointments(p.appointments);
    var medications := BuildMedications(p.medications);
    children := children + [appointments, medications];
    e := Element("patient", None, children);
  }

  /** `export_to_xml`: the `patients` root with one `patient` element per record, in order. */
  method ExportXml(data: seq<Patient>) returns (root: Element)
    ensures root == XmlTree(data)
  {
    var children: seq<Element> := [];
    for k := 0 to |data|
      invariant children == PatientElements(data[..k])
    {
      var e := BuildPatient(data[k]);
      children := children + [e];
    }
    assert data[..|data|] == data;
    root := Element("patients", None, children);
  }

  // ---------------------------------------------------------------------------
  // Properties of the tree

  /** The tags of a list of elements. */
  function Tags(es: seq<Element>): (ts: seq<string>)
    ensures |ts| == |es| && forall k :: 0 <= k < |es| ==> ts[k] == es[k].tag
  {
    seq(|es|, k requires 0 <= k < |es| => es[k].tag)
  }

  /** The first child with tag `tag`, if any. */
  function FindChild(es: seq<Element>, tag: string): (r: Option<Element>)
    ensures r.Some? ==> r.value in es && r.value.tag == tag
    ensures r.None? <==> forall k :: 0 <= k < |es| ==> es[k].tag != tag
  {
    if es == [] then None
    else if es[0].tag == tag then Some(es[0])
    else FindChild(es[1..], tag)
  }

  /**
   * The children of a `patient` element: the five id and name fields, then
   * `doctor` and `medical_card` only when present, then the `appointments`
   * and `medications` containers, always.
   */
  lemma PatientTags(p: Patient)
    ensures Tags(PatientElement(p).children) ==
      ["patient_id", "surname", "name", "patronymic", "doctor_id"]
      + (if p.doctor.Some? then ["doctor"] else [])
      + (if p.medicalCard.Some? then ["medical_card"] else [])
      + ["appointments", "medications"]
  {
    assert Tags(FieldElements(p)) == ["patient_id", "surname", "name", "patronymic", "doctor_id"];
    assert Tags(DoctorPart(p)) == if p.doctor.Some? then ["doctor"] else [];
    assert Tags(CardPart(p)) == if p.medicalCard.Some? then ["medical_card"] else [];
    assert Tags(Containers(p)) == ["appointments", "medications"];
    TagsAppend(FieldElements(p), DoctorPart(p));
    TagsAppend(FieldElements(p) + DoctorPart(p), CardPart(p));
    TagsAppend(FieldElements(p) + DoctorPart(p) + CardPart(p), Containers(p));
  }

  lemma TagsAppend(xs: seq<Element>, ys: seq<Element>)
    ensures Tags(xs + ys) == Tags(xs) + Tags(ys)
  {
  }

  /** `doctor` is a child exactly when the record has a doctor, and it is that doctor's element. */
  lemma DoctorChildIffPresent(p: Patient)
    ensures FindChild(PatientElement(p).children, "doctor") ==
              if p.doctor.Some? then Some(DoctorElement(p.doctor.value)) else None
  {
    var fields := FieldElements(p);
    var rest := DoctorPart(p) + CardPart(p) + Containers(p);
    assert PatientElement(p).children == fields + rest;
    FieldTagLengths(p);
    FindChildSkip(fields, rest, "doctor");
    if p.doctor.None? {
      assert rest == CardPart(p) + Containers(p);
      assert forall k :: 0 <= k < |rest| ==> |rest[k].tag| != 6;
    } else {
      assert rest[0] == DoctorElement(p.doctor.value);
    }
  }

  /** `medical_card` is a child exactly when the record has a card, and it is that card's element. */
  lemma CardChildIffPresent(p: Patient)
    ensures FindChild(PatientElement(p).children, "medical_card") ==
              if p.medicalCard.Some? then Some(CardElement(p.medicalCard.value)) else None
  {
    var head := FieldElements(p) + DoctorPart(p);
    var rest := CardPart(p) + Containers(p);
    assert PatientElement(p).children == head + rest;
    FieldTagLengths(p);
    assert forall k :: 0 <= k < |head| ==> |head[k].tag| != 12;
    FindChildSkip(head, rest, "medical_card");
    if p.medicalCard.None? {
      assert rest == Containers(p);
      assert rest[0].tag[0] == 'a' && |rest[1].tag| == 11;
    } else {
      assert rest[0] == CardElement(p.medicalCard.value);
    }
  }

  /** The five leading tags are 4 to 10 characters long. */
  lemma FieldTagLengths(p: Patient)
    ensures forall k :: 0 <= k < |FieldElements(p)| ==> 4 <= |FieldElements(p)[k].tag| <= 10 && |FieldElements(p)[k].tag| != 6
  {
  }

  /** The two containers are always there, one child per appointment or medication. */
  lemma ContainersPresent(p: Patient)
    ensures FindChild(PatientElement(p).children, "appointments") ==
              Some(Element("appointments", None, AppointmentElements(p.appointments)))
    ensures FindChild(PatientElement(p).children, "medications") ==
              Some(Element("medications", None, MedicationElements(p.medications)))
  {
    var head := FieldElements(p) + DoctorPart(p) + CardPart(p);
    assert forall k :: 0 <= k < |head| ==> (|head[k].tag| != 12 || head[k].tag[0] == 'm') && |head[k].tag| != 11;
    FindChildSkip(head, Containers(p), "appointments");
    FindChildSkip(head, Containers(p), "medications");
  }

  /** Children before the first one carrying the tag do not affect the search. */
  lemma {:induction false} FindChildSkip(head: seq<Element>, tail: seq<Element>, tag: string)
    requires forall k :: 0 <= k < |head| ==> head[k].tag != tag
    ensures FindChild(head + tail, tag) == FindChild(tail, tag)
  {
    if head != [] {
      var es := head + tail;
      assert es != [] && es[0] == head[0] && head[0].tag != tag;
      assert es[1..] == head[1..] + tail;
      FindChildSkip(head[1..], tail, tag);
    } else {
      assert head + tail == tail;
    }
  }

  /** A card field that is `None` is written as the empty text, never omitted. */
  lemma CardFieldsNeverMissing(c: MedicalCard)
    ensures forall k :: 0 <= k < 3 ==> CardElement(c).children[k].text.Some?
    ensures CardElement(c).children[1].text == Some(if c.medicalHistory.None? then "" else c.medicalHistory.value)
    ensures CardElement(c).children[2].text == Some(if c.treatmentPlan.None? then "" else c.treatmentPlan.value)
  {
  }

  /** Reads the id (first child) and the flag (fourth child) back from an appointment or medication element. */
  function ReadIdAndFlag(e: Element): Option<(int, bool)>
  {
    if |e.children| != 4 || e.children[0].text.None? || e.children[3].text.None? then None
    else
      match ParseInt(e.children[0].text.value)
      case None => None
      case Some(id) =>
        var flag := e.children[3].text.value;
        if flag == "True" then Some((id, true))
        else if flag == "False" then Some((id, false))
        else None
  }

  /** The id and the `True`/`False` flag of an appointment element read back as written. */
  lemma ReadAppointmentRoundTrip(a: Appointment)
    ensures ReadIdAndFlag(AppointmentElement(a)) == Some((a.appointmentId, a.confirmed))
  {
    ParseIntOfIntToString(a.appointmentId);
  }

  /** The id and the `True`/`False` flag of a medication element read back as written. */
  lemma ReadMedicationRoundTrip(m: Medication)
    ensures ReadIdAndFlag(MedicationElement(m)) == Some((m.medicationId, m.isTaken))
  {
    ParseIntOfIntToString(m.medicationId);
  }

  /** The root holds one `patient` element per record, in the order given. */
  lemma TreeShape(data: seq<Patient>)
    ensures XmlTree(data).tag == "patients" && |XmlTree(data).children| == |data|
    ensures forall k :: 0 <= k < |data| ==> XmlTree(data).children[k].tag == "patient"
  {
  }
}
