/**
 * The hand-written YAML export (export_tool/data_exporter.py, `_write_yaml`
 * and `_yaml_value`): the list of patient records is written as a block
 * sequence of mappings, two spaces per level, without any YAML library.
 */
module YamlExport {
  import opened Wrappers
  import opened PyText
  import opened PatientGraph

  /** The values `_yaml_value` formats. Floats never reach it from the exporter. */
  datatype Scalar = Null | Bool(b: bool) | Int(i: int) | Str(s: string)

  /** A value handed to `_write_yaml`: a scalar, a list, or a dict with its keys in insertion order. */
  datatype Value = Leaf(scalar: Scalar) | List(items: seq<Value>) | Dict(entries: seq<Entry>)

  datatype Entry = Entry(key: string, value: Value)

  // ---------------------------------------------------------------------------
  // _yaml_value

  /** The characters whose presence makes `_yaml_value` wrap a string in double quotes. */
  predicate IsSpecial(c: char)
  {
    c == ':' || c == '[' || c == ']' || c == '{' || c == '}' || c == '#' || c == '&' || c == '*' ||
    c == '!' || c == '|' || c == '>' || c == '"' || c == '\'' || c == '%' || c == '@' || c == '`'

  }

  predicate HasSpecial(s: string)
  {
    exists k :: 0 <= k < |s| && IsSpecial(s[k])
  }

  /** `_yaml_value`: the text of one scalar. */
  function YamlScalar(v: Scalar): string
  {
    match v
    case Null => "null"
    case Bool(b) => if b then "true" else "false"
    case Int(i) => IntToString(i)
    case Str(s) => if HasSpecial(s) then "\"" + s + "\"" else s
  }

  /** A text wrapped in double quotes around a body that needed them. */
  predicate Quoted(t: string)
  {
    |t| >= 2 && t[0] == '"' && t[|t| - 1] == '"' && HasSpecial(t[1..|t| - 1])
  }

  /** Reads a string scalar back: a quoted text loses its quotes, any other text is itself. */
  function ReadString(t: string): string
  {
    if Quoted(t) then t[1..|t| - 1] else t
  }

  /** A string is quoted exactly when it holds one of the special characters. */
  lemma QuotedIffSpecial(s: string)
    ensures Quoted(YamlScalar(Str(s))) <==> HasSpecial(s)
  {
    var t := YamlScalar(Str(s));
    if HasSpecial(s) {
      assert t[1..|t| - 1] == s;
    } else if |t| >= 2 && t[0] == '"' {
      assert IsSpecial(s[0]);
    }
  }

  /** Every string the writer produces reads back as itself. */
  lemma StringRoundTrip(s: string)
    ensures ReadString(YamlScalar(Str(s))) == s
  {
    QuotedIffSpecial(s);
    var t := YamlScalar(Str(s));
    if HasSpecial(s) {
      assert t[1..|t| - 1] == s;
    }
  }

  /** Two different strings are never written the same way. */
  lemma StringsDistinct(s: string, u: string)
    requires s != u
    ensures YamlScalar(Str(s)) != YamlScalar(Str(u))
  {
    StringRoundTrip(s);
    StringRoundTrip(u);
  }

  /** Integers are written as `str()` writes them, and read back by `int()`. */
  lemma IntRoundTrip(i: int)
    ensures ParseInt(YamlScalar(Int(i))) == Some(i)
  {
    ParseIntOfIntToString(i);
  }

  /**
   * The string `null` is written unquoted, the same text as `None`: the
   * writer does not keep the two apart.
   */
  lemma NullStringLooksLikeNull()
    ensures YamlScalar(Str("null")) == YamlScalar(Null)
  {
    assert !IsSpecial('n') && !IsSpecial('u') && !IsSpecial('l');
    assert !HasSpecial("null");
  }

  /**
   * The strings `true` and `false` are written unquoted, the same text as
   * the booleans: the writer does not keep them apart either.
   */
  lemma BoolStringsLookLikeBools()
    ensures YamlScalar(Str("true")) == YamlScalar(Bool(true))
    ensures YamlScalar(Str("false")) == YamlScalar(Bool(false))
  {
    assert !IsSpecial('t') && !IsSpecial('r') && !IsSpecial('u') && !IsSpecial('e');
    assert !HasSpecial("true");
    assert !IsSpecial('f') && !IsSpecial('a') && !IsSpecial('l') && !IsSpecial('s');
    assert !HasSpecial("false");
  }

  /**
   * A boolean is written in lower case, never as `True`/`False`, the text
   * `str()` in the int branch would give it; nor as the text of any int.
   */
  lemma BoolsNotWrittenByStr(b: bool, i: int)
    ensures YamlScalar(Bool(b)) != (if b then "True" else "False")
    ensures YamlScalar(Bool(b)) != YamlScalar(Int(i))
  {
    var t := YamlScalar(Int(i));
    assert t[0] == '-' || IsDigit(t[0]);
  }

  /** Any text with a colon, such as an `HH:MM` time, is written between double quotes. */
  lemma ColonTextsAreQuoted(s: string, k: nat)
    requires k < |s| && s[k] == ':'
    ensures YamlScalar(Str(s)) == "\"" + s + "\""
  {
    assert IsSpecial(s[k]);
  }

  /** Any text of digits and dashes, such as an ISO date, is written as it is. */
  lemma DigitDashTextsArePlain(s: string)
    requires forall k :: 0 <= k < |s| ==> IsDigit(s[k]) || s[k] == '-'
    ensures YamlScalar(Str(s)) == s
  {
  }

  // ---------------------------------------------------------------------------
  // _write_yaml, as the text it produces

  /** `'  ' * indent`. */
  function Indent(d: nat): (r: string)
    ensures |r| == 2 * d && forall k :: 0 <= k < |r| ==> r[k] == ' '
  {
    seq(2 * d, _ => ' ')
  }

  /** The text `_write_yaml(v, f, d)` writes. */
  function YamlText(v: Value, d: nat): string
    decreases v, 0
  {
    match v
    case Leaf(s) => Indent(d) + YamlScalar(s) + "\n"
    case List(items) => ItemsText(items, d)
    case Dict(entries) => EntriesText(entries, d, true)
  }

  /** The list items, each on its own `- ` line. */
  function ItemsText(items: seq<Value>, d: nat): string
    decreases items, 1
  {
    if items == [] then "" else ItemText(items[0], d) + ItemsText(items[1..], d)
  }

  /** One item: a scalar on the dash line, a container on the lines after it, one level deeper. */
  function ItemText(item: Value, d: nat): string
    decreases item, 1
  {
    Indent(d) + "- " + (if item.Leaf? then YamlScalar(item.scalar) + "\n" else "\n" + YamlText(item, d + 1))
  }

  /** The entries of a dict; `first` says whether an entry has been written yet. */
  function EntriesText(entries: seq<Entry>, d: nat, first: bool): string
    decreases entries, 1
  {
    if entries == [] then "" else EntryText(entries[0], d, first) + EntriesText(entries[1..], d, false)
  }

  /** One entry: `key: value`, or a container under `key:` preceded by a blank line unless it comes first. */
  function EntryText(e: Entry, d: nat, first: bool): string
    decreases e, 1
  {
    if e.value.Leaf? then Indent(d) + e.key + ": " + YamlScalar(e.value.scalar) + "\n"
    else (if first then "" else "\n") + Indent(d) + e.key + ":\n" + YamlText(e.value, d + 1)
  }

  lemma {:induction false} ItemsTextSnoc(items: seq<Value>, item: Value, d: nat)
    ensures ItemsText(items + [item], d) == ItemsText(items, d) + ItemText(item, d)
  {
    if items == [] {
      assert items + [item] == [item];
    } else {
      assert (items + [item])[1..] == items[1..] + [item];
      ItemsTextSnoc(items[1..], item, d);
    }
  }

  lemma {:induction false} EntriesTextSnoc(entries: seq<Entry>, e: Entry, d: nat, first: bool)
    ensures EntriesText(entries + [e], d, first) == EntriesText(entries, d, first) + EntryText(e, d, first && entries == [])
  {
    if entries == [] {
      assert entries + [e] == [e];
    } else {
      assert (entries + [e])[1..] == entries[1..] + [e];
      EntriesTextSnoc(entries[1..], e, d, false);
    }
  }

  // ---------------------------------------------------------------------------
  // _write_yaml, step by step

  /** `_write_yaml(v, f, d)`: the writes to `f`, in order, collected into `out`. */
  method WriteYaml(v: Value, d: nat) returns (out: string)
    ensures out == YamlText(v, d)
    decreases v, 0
  {
    match v
    case Leaf(s) =>
      out := Indent(d) + YamlScalar(s) + "\n";
    case List(items) =>
      out := WriteItems(items, d);
    case Dict(entries) =>
      out := WriteEntries(entries, d);
  }

  /** The list branch of `_write_yaml`: one `- ` line per item. */
  method WriteItems(items: seq<Value>, d: nat) returns (out: string)
    ensures out == ItemsText(items, d)
    decreases items, 1
  {
    out := "";
    for k := 0 to |items|
      invariant out == ItemsText(items[..k], d)
    {
      var item := items[k];
      var piece := Indent(d) + "- ";
      if item.Leaf? {
        piece := piece + YamlScalar(item.scalar) + "\n";
      } else {
        piece := piece + "\n";
        var nested := WriteYaml(item, d + 1);
        piece := piece + nested;
      }
      assert piece == ItemText(item, d);
      ItemsTextSnoc(items[..k], item, d);
      assert items[..k + 1] == items[..k] + [item];
      out := out + piece;
    }
    assert items[..|items|] == items;
  }

  /** The dict branch of `_write_yaml`: the `first` flag keeps the blank line off the first container. */
  method WriteEntries(entries: seq<Entry>, d: nat) returns (out: string)
    ensures out == EntriesText(entries, d, true)
    decreases entries, 1
  {
    out := "";
    var first := true;
    for k := 0 to |entries|
      invariant first <==> k == 0
      invariant out == EntriesText(entries[..k], d, true)
    {
      var e := entries[k];
      var piece := "";
      if e.value.Leaf? {
        piece := Indent(d) + e.key + ": " + YamlScalar(e.value.scalar) + "\n";
      } else {
        if !first {
          piece := "\n";
        }
        piece := piece + Indent(d) + e.key + ":\n";
        var nested := WriteYaml(e.value, d + 1);
        piece := piece + nested;
      }
      assert piece == EntryText(e, d, first);
      EntriesTextSnoc(entries[..k], e, d, true);
      assert entries[..k + 1] == entries[..k] + [e];
      assert first == (entries[..k] == []);
      out := out + piece;
      first := false;
    }
    assert entries[..|entries|] == entries;
  }

  // ---------------------------------------------------------------------------
  // Shape of the text

  /** Whatever `_write_yaml` writes at depth `d` starts at that depth's indentation and ends a line. */
  lemma {:induction false} TextIndentedAndTerminated(v: Value, d: nat)
    ensures var t := YamlText(v, d); t == "" || (Indent(d) <= t && t[|t| - 1] == '\n')
    decreases v, 0
  {
    match v
    case Leaf(s) =>
    case List(items) =>
      ItemsIndentedAndTerminated(items, d);
    case Dict(entries) =>
      EntriesIndentedAndTerminated(entries, d, true);
  }

  /** The last character of a concatenation comes from its second part unless that is empty. */
  lemma LastOfConcat(a: string, b: string)
    requires a != [] && a[|a| - 1] == '\n'
    requires b == [] || b[|b| - 1] == '\n'
    ensures (a + b)[|a + b| - 1] == '\n'
  {
    if b != [] {
      assert (a + b)[|a + b| - 1] == b[|b| - 1];
    } else {
      assert a + b == a;
    }
  }

  lemma {:induction false} ItemIndentedAndTerminated(item: Value, d: nat)
    ensures var t := ItemText(item, d); Indent(d) <= t && t[|t| - 1] == '\n'
    decreases item, 1
  {
    var t := ItemText(item, d);
    if item.Leaf? {
      assert t[|t| - 1] == '\n';
    } else {
      var nested := YamlText(item, d + 1);
      TextIndentedAndTerminated(item, d + 1);
      LastOfConcat(Indent(d) + "- " + "\n", nested);
      assert t == Indent(d) + "- " + "\n" + nested;
    }
  }

  lemma {:induction false} EntryIndentedAndTerminated(e: Entry, d: nat, first: bool)
    ensures var t := EntryText(e, d, first); |t| > 0 && t[|t| - 1] == '\n' && (first ==> Indent(d) <= t)
    decreases e, 1
  {
    var t := EntryText(e, d, first);
    if e.value.Leaf? {
      assert t[|t| - 1] == '\n';
    } else {
      var opening := (if first then "" else "\n") + Indent(d) + e.key + ":\n";
      var nested := YamlText(e.value, d + 1);
      TextIndentedAndTerminated(e.value, d + 1);
      LastOfConcat(opening, nested);
      assert t == opening + nested;
    }
  }

  lemma {:induction false} ItemsIndentedAndTerminated(items: seq<Value>, d: nat)
    ensures var t := ItemsText(items, d); t == "" || (Indent(d) <= t && t[|t| - 1] == '\n')
    decreases items, 1
  {
    if items != [] {
      var head := ItemText(items[0], d);
      var rest := ItemsText(items[1..], d);
      ItemIndentedAndTerminated(items[0], d);
      ItemsIndentedAndTerminated(items[1..], d);
      LastOfConcat(head, rest);
      assert ItemsText(items, d) == head + rest;
    }
  }

  lemma {:induction false} EntriesIndentedAndTerminated(entries: seq<Entry>, d: nat, first: bool)
    ensures var t := EntriesText(entries, d, first); t == "" || ((first ==> Indent(d) <= t) && t[|t| - 1] == '\n')
    decreases entries, 1
  {
    if entries != [] {
      var head := EntryText(entries[0], d, first);
      var rest := EntriesText(entries[1..], d, false);
      EntryIndentedAndTerminated(entries[0], d, first);
      EntriesIndentedAndTerminated(entries[1..], d, false);
      LastOfConcat(head, rest);
      assert EntriesText(entries, d, first) == head + rest;
    }
  }

  /**
   * A list item opens with `- ` at its depth; a container item continues on
   * the next line, one level deeper.
   */
  lemma ItemLayout(item: Value, d: nat)
    ensures Indent(d) + "- " <= ItemText(item, d)
    ensures !item.Leaf? ==> ItemText(item, d) == Indent(d) + "- \n" + YamlText(item, d + 1)
  {
  }

  /**
   * In a mapping, a container under a key that is not the first is preceded
   * by one blank line; a scalar entry is written the same wherever it comes.
   */
  lemma LaterContainerGetsBlankLine(e: Entry, d: nat)
    ensures !e.value.Leaf? ==> EntryText(e, d, false) == "\n" + EntryText(e, d, true)
    ensures e.value.Leaf? ==> EntryText(e, d, false) == EntryText(e, d, true)
  {
  }

  /** Empty containers write nothing at all, not even their brackets. */
  lemma EmptyContainersWriteNothing(d: nat)
    ensures YamlText(List([]), d) == "" && YamlText(Dict([]), d) == ""
  {
  }

  // ---------------------------------------------------------------------------
  // The patient records as YAML values

  function OptText(o: Option<string>): Scalar
  {
    match o
    case None => Null
    case Some(s) => Str(s)
  }

  function OptInt(o: Option<int>): Scalar
  {
    match o
    case None => Null
    case Some(i) => Int(i)
  }

  function DoctorValue(o: Option<Doctor>): Value
  {
    match o
    case None => Leaf(Null)
    case Some(d) => Dict([Entry("surname", Leaf(Str(d.surname))), Entry("name", Leaf(OptText(d.name))),
                          Entry("patronymic", Leaf(OptText(d.patronymic)))])
  }

  function CardValue(o: Option<MedicalCard>): Value
  {
    match o
    case None => Leaf(Null)
    case Some(c) => Dict([Entry("health_complaints", Leaf(Str(c.healthComplaints))),
                          Entry("medical_history", Leaf(OptText(c.medicalHistory))),
                          Entry("treatment_plan", Leaf(OptText(c.treatmentPlan)))])
  }

  function AppointmentValue(a: Appointment): Value
  {
    Dict([Entry("appointment_id", Leaf(Int(a.appointmentId))), Entry("appointment_date", Leaf(OptText(a.appointmentDate))),
          Entry("appointment_time", Leaf(OptText(a.appointmentTime))), Entry("confirmed", Leaf(Bool(a.confirmed)))])
  }

  function MedicationValue(m: Medication): Value
  {
    Dict([Entry("medication_id", Leaf(Int(m.medicationId))), Entry("medication_name", Leaf(OptText(m.medicationName))),
          Entry("usage_description", Leaf(OptText(m.usageDescription))), Entry("is_taken", Leaf(Bool(m.isTaken)))])
  }

  function AppointmentValues(apps: seq<Appointment>): seq<Value>
  {
    seq(|apps|, k requires 0 <= k < |apps| => AppointmentValue(apps[k]))
  }

  function MedicationValues(meds: seq<Medication>): seq<Value>
  {
    seq(|meds|, k requires 0 <= k < |meds| => MedicationValue(meds[k]))
  }

  /** The keys after `patient_id`, in the order the exporter creates them. */
  function OtherEntries(p: Patient): seq<Entry>
  {
    [Entry("surname", Leaf(Str(p.surname))), Entry("name", Leaf(Str(p.name))),
     Entry("patronymic", Leaf(Str(p.patronymic))), Entry("doctor_id", Leaf(OptInt(p.doctorId))),
     Entry("doctor", DoctorValue(p.doctor)), Entry("medical_card", CardValue(p.medicalCard)),
     Entry("appointments", List(AppointmentValues(p.appointments))),
     Entry("medications", List(MedicationValues(p.medications)))]
  }

  /** The dict of one patient record. */
  function PatientValue(p: Patient): Value
  {
    Dict([IdEntry(p.patientId)] + OtherEntries(p))
  }

  function IdEntry(i: int): Entry
  {
    Entry("patient_id", Leaf(Int(i)))
  }

  function PatientValues(data: seq<Patient>): (vs: seq<Value>)
    ensures |vs| == |data| && forall k :: 0 <= k < |data| ==> vs[k] == PatientValue(data[k])
  {
    seq(|data|, k requires 0 <= k < |data| => PatientValue(data[k]))
  }

  /** `export_to_yaml`: the text of `out/data.yaml`. */
  function YamlDocument(data: seq<Patient>): string
  {
    YamlText(List(PatientValues(data)), 0)
  }

  /** `export_to_yaml`, written step by step. */
  method ExportYaml(data: seq<Patient>) returns (out: string)
    ensures out == YamlDocument(data)
  {
    out := WriteYaml(List(PatientValues(data)), 0);
  }

  /** `t` ends with `line`. */
  predicate EndsWith(t: string, line: string)
  {
    |line| <= |t| && t[|t| - |line|..] == line
  }

  lemma EndsWithConcat(a: string, b: string, line: string)
    requires EndsWith(b, line)
    ensures EndsWith(a + b, line)
  {
    assert (a + b)[|a + b| - |line|..] == b[|b| - |line|..];
  }

  /** A mapping listed at depth `d` ends with the line of its last scalar entry, one level deeper. */
  lemma {:induction false} ItemEndsWithLastEntry(init: seq<Entry>, key: string, s: Scalar, d: nat)
    ensures EndsWith(ItemText(Dict(init + [Entry(key, Leaf(s))]), d), Indent(d + 1) + key + ": " + YamlScalar(s) + "\n")
  {
    var last := Entry(key, Leaf(s));
    var line := Indent(d + 1) + key + ": " + YamlScalar(s) + "\n";
    EntriesTextSnoc(init, last, d + 1, true);
    assert EntryText(last, d + 1, init == []) == line;
    var body := EntriesText(init + [last], d + 1, true);
    assert body == EntriesText(init, d + 1, true) + line;
    EndsWithConcat(EntriesText(init, d + 1, true), line, line) by {
      assert line[|line| - |line|..] == line;
    }
    assert ItemText(Dict(init + [last]), d) == Indent(d) + "- " + "\n" + body;
    EndsWithConcat(Indent(d) + "- " + "\n", body, line);
  }

  /**
   * An appointment in a record's list ends with its `confirmed:` line, one
   * level in, written `true` or `false` in lower case.
   */
  lemma AppointmentConfirmedLine(a: Appointment, d: nat)
    ensures EndsWith(ItemText(AppointmentValue(a), d),
                     Indent(d + 1) + "confirmed: " + (if a.confirmed then "true" else "false") + "\n")
  {
    var init := [Entry("appointment_id", Leaf(Int(a.appointmentId))), Entry("appointment_date", Leaf(OptText(a.appointmentDate))),
                 Entry("appointment_time", Leaf(OptText(a.appointmentTime)))];
    assert AppointmentValue(a) == Dict(init + [Entry("confirmed", Leaf(Bool(a.confirmed)))]);
    ItemEndsWithLastEntry(init, "confirmed", Bool(a.confirmed), d);
    assert Indent(d + 1) + "confirmed" + ": " == Indent(d + 1) + "confirmed: ";
  }

  /**
   * A medication in a record's list ends with its `is_taken:` line, one
   * level in, written `true` or `false` in lower case.
   */
  lemma MedicationTakenLine(m: Medication, d: nat)
    ensures EndsWith(ItemText(MedicationValue(m), d),
                     Indent(d + 1) + "is_taken: " + (if m.isTaken then "true" else "false") + "\n")
  {
    var init := [Entry("medication_id", Leaf(Int(m.medicationId))), Entry("medication_name", Leaf(OptText(m.medicationName))),
                 Entry("usage_description", Leaf(OptText(m.usageDescription)))];
    assert MedicationValue(m) == Dict(init + [Entry("is_taken", Leaf(Bool(m.isTaken)))]);
    ItemEndsWithLastEntry(init, "is_taken", Bool(m.isTaken), d);
    assert Indent(d + 1) + "is_taken" + ": " == Indent(d + 1) + "is_taken: ";
  }

  /** Each record is a `- ` line followed by its mapping one level in. */
  lemma {:induction false} DocumentPerPatient(data: seq<Patient>, p: Patient)
    ensures YamlDocument(data + [p]) == YamlDocument(data) + "- \n" + YamlText(PatientValue(p), 1)
  {
    assert PatientValues(data + [p]) == PatientValues(data) + [PatientValue(p)];
    ItemsTextSnoc(PatientValues(data), PatientValue(p), 0);
  }

  /** A mapping opens with its first entry; only that entry is spared the blank line. */
  lemma DictOpensWithFirstEntry(head: Entry, rest: seq<Entry>, d: nat)
    ensures YamlText(Dict([head] + rest), d) == EntryText(head, d, true) + EntriesText(rest, d, false)
  {
    var entries := [head] + rest;
    assert entries[0] == head && entries[1..] == rest;
  }

  /** A record's mapping opens with its id line, and the other keys follow. */
  lemma PatientOpensWithId(p: Patient)
    ensures YamlText(PatientValue(p), 1) == "  patient_id: " + IntToString(p.patientId) + "\n" + EntriesText(OtherEntries(p), 1, false)
  {
    DictOpensWithFirstEntry(IdEntry(p.patientId), OtherEntries(p), 1);
    IdLine(p.patientId);
  }

  lemma IdLine(i: int)
    ensures EntryText(IdEntry(i), 1, true) == "  patient_id: " + IntToString(i) + "\n"
  {
    assert Indent(1) + "patient_id" + ": " == "  patient_id: ";
  }
}
