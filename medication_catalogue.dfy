/**
 * Choosing a medication from the fixed catalogue
 * (src/main/python/hospital_system.py, `medications_list`,
 * `show_medications_menu` and `add_medication`): a 1-based menu choice is
 * parsed with `int()`, bounds-checked, and the chosen entry is split on
 * `" - "` into the drug's name and its default usage.
 */
module MedicationCatalogue {
  import opened Wrappers
  import opened PyText

  /** The catalogue as (name, default usage) pairs, in menu order. */
  const Catalogue: seq<(string, string)> := [
    ("Парацетамол", "Обезболивающее, жаропонижающее"),
    ("Ибупрофен", "Противовоспалительное"),
    ("Аспирин", "Антибиотик"),
    ("Анальгин", "Обезболивающий"),
    ("Снупп", "Капли в нос"),
    ("Отривин", "Капли в нос"),
    ("Терафлю", "Жаропонижающее"),
    ("Стрепсилс", "Таблетки от кашля")]

  const Separator := " - "

  /** `medications_list`: each entry is the name, `" - "`, and the usage. */
  const MedicationsList: seq<string> :=
    seq(|Catalogue|, k requires 0 <= k < |Catalogue| => Catalogue[k].0 + Separator + Catalogue[k].1)

  /** The usage written when the entry has no `" - "` part and the user types nothing. */
  const DefaultUsage := "Стандартное применение"

  /** What `add_medication` does with a choice: insert a row, or refuse in one of two ways. */
  datatype Selection = Inserted(name: string, usage: string) | InvalidNumber | NotANumber

  /**
   * The selection logic of `add_medication`: `int(choice) - 1` must index the
   * list; the entry's first `" - "` piece is the name, the second (if any)
   * the default usage; an empty usage input takes the default.
   */
  function SelectMedication(catalogue: seq<string>, choice: string, usageInput: string): Selection
  {
    match ParseInt(choice)
    case None => NotANumber
    case Some(n) =>
      var index := n - 1;
      if 0 <= index < |catalogue| then
        var parts := Split(catalogue[index], Separator);
        var defaultUsage := if |parts| > 1 then parts[1] else DefaultUsage;
        Inserted(parts[0], if usageInput == "" then defaultUsage else usageInput)
      else InvalidNumber
  }

  /** A choice is accepted exactly when it parses to a number between 1 and the length of the list. */
  lemma AcceptedIffInRange(catalogue: seq<string>, choice: string, usageInput: string)
    ensures SelectMedication(catalogue, choice, usageInput).Inserted? <==>
              ParseInt(choice).Some? && 1 <= ParseInt(choice).value <= |catalogue|
    ensures SelectMedication(catalogue, choice, usageInput) == NotANumber <==> ParseInt(choice).None?
  {
  }

  /** The name is what comes before the first `" - "`; a non-empty usage input is kept verbatim. */
  lemma InsertedNameAndUsage(catalogue: seq<string>, n: int, usageInput: string)
    requires 1 <= n <= |catalogue|
    ensures var sel := SelectMedication(catalogue, IntToString(n), usageInput);
      sel.Inserted? && sel.name == Split(catalogue[n - 1], Separator)[0] &&
      (usageInput != "" ==> sel.usage == usageInput) &&
      (usageInput == "" && |Split(catalogue[n - 1], Separator)| == 1 ==> sel.usage == DefaultUsage)
  {
    ParseIntOfIntToString(n);
  }

  /** No occurrence of `sep` in a text that lacks one of its characters. */
  lemma {:induction false} FindFromMissingChar(s: string, sep: string, from: nat, m: nat)
    requires m < |sep| && from <= |s|
    requires forall j :: 0 <= j < |s| ==> s[j] != sep[m]
    ensures FindFrom(s, sep, from) == None
    decreases |s| - from
  {
    if from + |sep| <= |s| {
      assert s[from..from + |sep|][m] == s[from + m];
      FindFromMissingChar(s, sep, from + 1, m);
    }
  }

  /** `(name + " - " + usage).split(" - ")` is `[name, usage]` when the name has no space and the usage no dash. */
  lemma SplitEntry(name: string, usage: string)
    requires forall j :: 0 <= j < |name| ==> name[j] != ' '
    requires forall j :: 0 <= j < |usage| ==> usage[j] != '-'
    ensures Split(name + Separator + usage, Separator) == [name, usage]
  {
    var s := name + Separator + usage;
    assert s[|name|..|name| + 3] == Separator;
    FindFromFirstChar(s, Separator, 0, |name|);
    assert s[|name| + 3..] == usage;
    assert s[..|name|] == name;
    FindFromMissingChar(usage, Separator, 0, 1);
  }

  /** Every catalogue name is one word. */
  lemma NamesOneWord(k: nat)
    requires k < |Catalogue|
    ensures forall j :: 0 <= j < |Catalogue[k].0| ==> Catalogue[k].0[j] != ' '
  {
  }

  /** No default usage contains a dash. */
  lemma UsagesWithoutDash(k: nat)
    requires k < |Catalogue|
    ensures forall j :: 0 <= j < |Catalogue[k].1| ==> Catalogue[k].1[j] != '-'
  {
  }

  /**
   * Menu number `k + 1` inserts entry `k`'s name with its default usage, or
   * the usage typed.
   */
  lemma CatalogueSelection(k: nat, usageInput: string)
    requires k < |MedicationsList|
    ensures SelectMedication(MedicationsList, IntToString(k + 1), usageInput) ==
              Inserted(Catalogue[k].0, if usageInput == "" then Catalogue[k].1 else usageInput)
  {
    NamesOneWord(k);
    UsagesWithoutDash(k);
    SelectEntry(MedicationsList, k, usageInput, Catalogue[k].0, Catalogue[k].1);
  }

  /** Selecting an entry written as a one-word name, `" - "`, and a usage without a dash. */
  lemma SelectEntry(catalogue: seq<string>, k: nat, usageInput: string, name: string, usage: string)
    requires k < |catalogue| && catalogue[k] == name + Separator + usage
    requires forall j :: 0 <= j < |name| ==> name[j] != ' '
    requires forall j :: 0 <= j < |usage| ==> usage[j] != '-'
    ensures SelectMedication(catalogue, IntToString(k + 1), usageInput) ==
              Inserted(name, if usageInput == "" then usage else usageInput)
  {
    ParseIntOfIntToString(k + 1);
    SplitEntry(name, usage);
  }

  /** Any number outside 1..len, typed as `str()` writes it, is refused as out of range. */
  lemma OutOfRangeRefused(catalogue: seq<string>, n: int, usageInput: string)
    requires n < 1 || n > |catalogue|
    ensures SelectMedication(catalogue, IntToString(n), usageInput) == InvalidNumber
  {
    ParseIntOfIntToString(n);
  }

  /** Any choice without a digit is refused as not a number. */
  lemma DigitlessChoiceRefused(catalogue: seq<string>, choice: string, usageInput: string)
    requires forall k :: 0 <= k < |choice| ==> !IsDigit(choice[k])
    ensures SelectMedication(catalogue, choice, usageInput) == NotANumber
  {
    ParseIntNeedsDigit(choice);
  }

  /** One line of `show_medications_menu`: the 1-based number, a dot, and the entry. */
  function MenuLine(k: nat, entry: string): string
  {
    IntToString(k + 1) + ". " + entry
  }

  function MenuLines(catalogue: seq<string>): (lines: seq<string>)
    ensures |lines| == |catalogue|
    ensures forall k :: 0 <= k < |catalogue| ==> lines[k] == MenuLine(k, catalogue[k])
  {
    seq(|catalogue|, k requires 0 <= k < |catalogue| => MenuLine(k, catalogue[k]))
  }

  /** The number printed on line `k` of the menu, typed back, selects entry `k`. */
  lemma MenuNumberSelectsLine(catalogue: seq<string>, k: nat, usageInput: string)
    requires k < |catalogue|
    ensures MenuLines(catalogue)[k] == IntToString(k + 1) + ". " + catalogue[k]
    ensures SelectMedication(catalogue, IntToString(k + 1), usageInput).Inserted?
    ensures SelectMedication(catalogue, IntToString(k + 1), usageInput).name == Split(catalogue[k], Separator)[0]
  {
    InsertedNameAndUsage(catalogue, k + 1, usageInput);
  }

  /** A row of the `Medication` table as `add_medication` inserts it. */
  datatype MedicationRow = MedicationRow(name: string, usage: string)

  /** The object of hospital_system.py, reduced to the catalogue and the table `add_medication` writes. */
  class HospitalSystem {
    const medicationsList: seq<string>
    var medications: seq<MedicationRow>

    constructor (rows: seq<MedicationRow>)
      ensures medicationsList == MedicationsList && medications == rows
    {
      medicationsList := MedicationsList;
      medications := rows;
    }

    /** `show_medications_menu`: the numbered lines between two rules of 50 `=`. */
    method ShowMedicationsMenu() returns (lines: seq<string>)
      ensures |lines| == |medicationsList| + 2
      ensures lines[1..|lines| - 1] == MenuLines(medicationsList)
      ensures lines[0] == lines[|lines| - 1] == seq(50, _ => '=')
    {
      var rule := seq(50, _ => '=');
      lines := [rule];
      for k := 0 to |medicationsList|
        invariant lines == [rule] + MenuLines(medicationsList[..k])
      {
        assert MenuLines(medicationsList[..k + 1]) == MenuLines(medicationsList[..k]) + [MenuLine(k, medicationsList[k])];
        lines := lines + [MenuLine(k, medicationsList[k])];
      }
      assert medicationsList[..|medicationsList|] == medicationsList;
      lines := lines + [rule];
    }

    /**
     * `add_medication`: a valid choice inserts exactly one `(name, usage)`
     * row; an out-of-range or non-numeric choice inserts nothing.
     */
    method AddMedication(choice: string, usageInput: string) returns (sel: Selection)
      modifies this
      ensures sel == SelectMedication(medicationsList, choice, usageInput)
      ensures medications == old(medications) + (if sel.Inserted? then [MedicationRow(sel.name, sel.usage)] else [])
    {
      var parsed := ParseInt(choice);
      if parsed.None? {
        return NotANumber;
      }
      var index := parsed.value - 1;
      if 0 <= index < |medicationsList| {
        var medInfo := Split(medicationsList[index], Separator);
        var name := medInfo[0];
        var defaultUsage := if |medInfo| > 1 then medInfo[1] else DefaultUsage;
        var usage := usageInput;
        if usage == "" {
          usage := defaultUsage;
        }
        medications := medications + [MedicationRow(name, usage)];
        sel := Inserted(name, usage);
      } else {
        sel := InvalidNumber;
      }
    }
  }
}
