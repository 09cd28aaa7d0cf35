/**
 * The few pieces of Python's text handling that the hospital code relies on:
 * `str()` of an int, `int()` of a string, `sep.join(items)` and `s.split(sep)`.
 */
module PyText {
  import opened Wrappers

  predicate IsDigit(c: char) { '0' <= c <= '9' }

  predicate AllDigits(s: string) { forall i :: 0 <= i < |s| ==> IsDigit(s[i]) }

  /** The whitespace `int()` strips from both ends (ASCII part): space, tab, LF, VT, FF, CR. */
  predicate IsSpace(c: char) { c == ' ' || '\t' <= c <= '\r' }

  function DigitChar(d: nat): (c: char)
    requires d < 10
    ensures IsDigit(c) && (c as int) - ('0' as int) == d
  {
    (('0' as int) + d) as char
  }

  /** Decimal value of a string of digits. */
  function DigitsValue(s: string): int
  {
    if s == [] then 0 else DigitsValue(s[..|s| - 1]) * 10 + ((s[|s| - 1] as int) - ('0' as int))
  }

  /** `str(n)` for n >= 0: the shortest decimal numeral, no leading zero. */
  function NatToString(n: nat): (s: string)
    ensures |s| > 0 && AllDigits(s)
    ensures |s| > 1 ==> s[0] != '0'
  {
    if n < 10 then [DigitChar(n)] else NatToString(n / 10) + [DigitChar(n % 10)]
  }

  lemma {:induction false} NatToStringValue(n: nat)
    ensures DigitsValue(NatToString(n)) == n
  {
    if n >= 10 {
      NatToStringValue(n / 10);
      var s := NatToString(n);
      assert s[..|s| - 1] == NatToString(n / 10);
    }
  }

  /** `str(i)` for any int. */
  function IntToString(i: int): (s: string)
    ensures |s| > 0
    ensures s[0] == '-' <==> i < 0
  {
    if i < 0 then "-" + NatToString(-i) else NatToString(i)
  }

  /** Index of the first non-blank character at or after `i` (or `|s|`). */
  function BlankRunEnd(s: string, i: nat): (k: nat)
    requires i <= |s|
    ensures i <= k <= |s| && (k == |s| || !IsSpace(s[k]))
    decreases |s| - i
  {
    if i < |s| && IsSpace(s[i]) then BlankRunEnd(s, i + 1) else i
  }

  /** End of `s[a..j]` once its trailing blanks are dropped. */
  function BlankRunStart(s: string, a: nat, j: nat): (k: nat)
    requires a <= j <= |s|
    ensures a <= k <= j && (k == a || !IsSpace(s[k - 1]))
    decreases j
  {
    if j > a && IsSpace(s[j - 1]) then BlankRunStart(s, a, j - 1) else j
  }

  /** `s.strip()`: the text between the leading and the trailing blanks. */
  function Strip(s: string): (r: string)
    ensures r == [] || (!IsSpace(r[0]) && !IsSpace(r[|r| - 1]))
  {
    var a := BlankRunEnd(s, 0);
    s[a..BlankRunStart(s, a, |s|)]
  }

  /** The digits of an int literal: digits with single underscores between them. */
  predicate IsDigitBody(b: string) {
    && |b| > 0 && IsDigit(b[0]) && IsDigit(b[|b| - 1])
    && (forall i :: 0 <= i < |b| ==> IsDigit(b[i]) || b[i] == '_')
    && (forall i, j :: 0 <= i < |b| && 0 <= j < |b| && j == i + 1 ==> b[i] != '_' || b[j] != '_')
  }

  /** The digits of a literal with its grouping underscores taken out. */
  function RemoveUnderscores(b: string): string
  {
    if b == [] then []
    else if b[|b| - 1] == '_' then RemoveUnderscores(b[..|b| - 1])
    else RemoveUnderscores(b[..|b| - 1]) + [b[|b| - 1]]
  }

  /** The value of a literal body, `None` when it is malformed. */
  function ParseBody(b: string): Option<int>
  {
    if IsDigitBody(b) then Some(DigitsValue(RemoveUnderscores(b))) else None
  }

  /** An optional sign, then a literal body. */
  function ParseSigned(t: string): Option<int>
  {
    if |t| > 0 && t[0] == '-' then
      match ParseBody(t[1..])
      case Some(v) => Some(-v)
      case None => None
    else if |t| > 0 && t[0] == '+' then ParseBody(t[1..])
    else ParseBody(t)
  }

  /**
   * `int(s)` for a base-10 string: surrounding whitespace, an optional sign,
   * then digits that may be grouped by single underscores.  `None` stands
   * for the `ValueError` Python raises on a malformed text; the limit on the
   * number of digits Python converts is not part of this function.
   */
  function ParseInt(s: string): Option<int>
  {
    ParseSigned(Strip(s))
  }

  lemma {:induction false} RemoveUnderscoresOfDigits(b: string)
    requires '_' !in b
    ensures RemoveUnderscores(b) == b
  {
    if b != [] {
      assert '_' !in b[..|b| - 1];
      RemoveUnderscoresOfDigits(b[..|b| - 1]);
      assert b == b[..|b| - 1] + [b[|b| - 1]];
    }
  }

  /** A plain numeral is a valid literal body, and `int()` reads its value. */
  lemma DigitsAreBody(d: string)
    requires |d| > 0 && AllDigits(d)
    ensures IsDigitBody(d) && RemoveUnderscores(d) == d
  {
    assert '_' !in d by {
      forall k | 0 <= k < |d| ensures d[k] != '_' { assert IsDigit(d[k]); }
    }
    RemoveUnderscoresOfDigits(d);
  }

  /** A numeral has no blanks for `int()` to strip, with or without a minus sign. */
  lemma NumeralUnstripped(s: string, d: string)
    requires |d| > 0 && AllDigits(d)
    requires s == d || s == "-" + d
    ensures Strip(s) == s
  {
    assert IsDigit(d[0]);
    assert IsDigit(d[|d| - 1]) && s[|s| - 1] == d[|d| - 1];
    assert BlankRunEnd(s, 0) == 0;
    assert BlankRunStart(s, 0, |s|) == |s|;
  }

  lemma ParseBodyOfDigits(d: string)
    requires |d| > 0 && AllDigits(d)
    ensures ParseBody(d) == Some(DigitsValue(d))
  {
    DigitsAreBody(d);
  }

  /** A numeral starts with a digit, so it is read as unsigned. */
  lemma ParseSignedOfDigits(d: string)
    requires |d| > 0 && AllDigits(d)
    ensures ParseSigned(d) == ParseBody(d)
  {
    assert IsDigit(d[0]);
  }

  lemma ParseSignedOfNegative(d: string)
    requires |d| > 0 && AllDigits(d)
    ensures ParseSigned("-" + d) == match ParseBody(d) case Some(v) => Some(-v) case None => None
  {
    assert ("-" + d)[1..] == d;
  }

  /** `int()` of a bare numeral. */
  lemma ParseIntOfNatural(d: string)
    requires |d| > 0 && AllDigits(d)
    ensures ParseInt(d) == Some(DigitsValue(d))
  {
    NumeralUnstripped(d, d);
    ParseSignedOfDigits(d);
    ParseBodyOfDigits(d);
  }

  /** Chains the three stages of `int()` for a negative numeral. */
  lemma ParseIntOfNegativeStages(d: string, s: string)
    requires s == "-" + d
    requires Strip(s) == s
    requires ParseSigned(s) == match ParseBody(d) case Some(v) => Some(-v) case None => None
    requires ParseBody(d) == Some(DigitsValue(d))
    ensures ParseInt(s) == Some(-DigitsValue(d))
  {
  }

  /** `int()` of a minus sign followed by a numeral. */
  lemma ParseIntOfNegative(d: string)
    requires |d| > 0 && AllDigits(d)
    ensures ParseInt("-" + d) == Some(-DigitsValue(d))
  {
    NumeralUnstripped("-" + d, d);
    ParseSignedOfNegative(d);
    ParseBodyOfDigits(d);
    ParseIntOfNegativeStages(d, "-" + d);
  }

  /** A text without any digit is never a number. */
  lemma ParseIntNeedsDigit(s: string)
    requires forall k :: 0 <= k < |s| ==> !IsDigit(s[k])
    ensures ParseInt(s) == None
  {
    var a := BlankRunEnd(s, 0);
    var t := Strip(s);
    assert t == s[a..BlankRunStart(s, a, |s|)];
    assert forall k :: 0 <= k < |t| ==> !IsDigit(t[k]);
    if |t| > 0 && (t[0] == '-' || t[0] == '+') {
      var b := t[1..];
      assert forall k :: 0 <= k < |b| ==> !IsDigit(b[k]) by {
        forall k | 0 <= k < |b| ensures !IsDigit(b[k]) { assert b[k] == t[k + 1]; }
      }
      assert !IsDigitBody(b);
    } else {
      assert !IsDigitBody(t);
    }
  }

  /** `int(str(i)) == i`: reading back what `str` wrote gives the same int. */
  lemma ParseIntOfIntToString(i: int)
    ensures ParseInt(IntToString(i)) == Some(i)
  {
    if i < 0 {
      var d := NatToString(-i);
      ParseIntOfNegative(d);
      NatToStringValue(-i);
      assert IntToString(i) == "-" + d;
    } else {
      ParseIntOfNatural(NatToString(i));
      NatToStringValue(i);
    }
  }

  /** Distinct ints print differently. */
  lemma IntToStringInjective(a: int, b: int)
    ensures IntToString(a) == IntToString(b) <==> a == b
  {
    ParseIntOfIntToString(a);
    ParseIntOfIntToString(b);
  }

  /** `str(x)` for an optional int: `None` prints as `None`. */
  function OptIntText(o: Option<int>): string
  {
    match o
    case None => "None"
    case Some(i) => IntToString(i)
  }

  /** `int()` reads `str()` of an optional int back: a missing id prints as `None`, which does not parse. */
  lemma ParseIntOfOptIntText(o: Option<int>)
    ensures ParseInt(OptIntText(o)) == o
  {
    match o
    case None =>
      assert !IsSpace('N') && !IsSpace('e');
      assert Strip("None") == "None";
      assert !IsDigitBody("None");
    case Some(i) =>
      ParseIntOfIntToString(i);
  }

  /** Comparing two optional ids through `str()` is comparing the ids. */
  lemma OptIntTextInjective(a: Option<int>, b: Option<int>)
    ensures OptIntText(a) == OptIntText(b) <==> a == b
  {
    ParseIntOfOptIntText(a);
    ParseIntOfOptIntText(b);
  }

  /** `sep.join(items)`. */
  function Join(items: seq<string>, sep: string): string
  {
    if items == [] then ""
    else if |items| == 1 then items[0]
    else Join(items[..|items| - 1], sep) + sep + items[|items| - 1]
  }

  function TotalLength(items: seq<string>): nat
  {
    if items == [] then 0 else TotalLength(items[..|items| - 1]) + |items[|items| - 1]|
  }

  /** Joining k items puts exactly k - 1 separators between them. */
  lemma {:induction false} JoinLength(items: seq<string>, sep: string)
    requires |items| > 0
    ensures |Join(items, sep)| == TotalLength(items) + (|items| - 1) * |sep|
  {
    if |items| > 1 {
      var init := items[..|items| - 1];
      JoinLength(init, sep);
      assert init[..|init| - 1] == items[..|items| - 2] || |init| == 1;
      assert TotalLength(items) == TotalLength(init) + |items[|items| - 1]|;
      calc {
        |Join(items, sep)|;
        |Join(init, sep)| + |sep| + |items[|items| - 1]|;
        TotalLength(init) + (|init| - 1) * |sep| + |sep| + |items[|items| - 1]|;
        { assert (|init| - 1) * |sep| + |sep| == |init| * |sep|; }
        TotalLength(items) + (|items| - 1) * |sep|;
      }
    } else {
      assert items[..0] == [];
    }
  }

  lemma {:induction false} JoinCons(head: string, rest: seq<string>, sep: string)
    requires |rest| > 0
    ensures Join([head] + rest, sep) == head + sep + Join(rest, sep)
  {
    if |rest| > 1 {
      var init := rest[..|rest| - 1];
      JoinCons(head, init, sep);
      assert ([head] + rest)[..|rest|] == [head] + init;
    } else {
      assert ([head] + rest)[..1] == [head];
    }
  }

  predicate OccursAt(s: string, sep: string, i: nat) {
    i + |sep| <= |s| && s[i..i + |sep|] == sep
  }

  /** Position of the first occurrence of `sep` in `s` at or after `from`. */
  function FindFrom(s: string, sep: string, from: nat): (r: Option<nat>)
    requires from <= |s|
    ensures r.Some? ==> from <= r.value && OccursAt(s, sep, r.value)
    ensures forall j :: from <= j && (r.None? || j < r.value) ==> !OccursAt(s, sep, j)
    decreases |s| - from
  {
    if from + |sep| > |s| then None
    else if s[from..from + |sep|] == sep then Some(from)
    else FindFrom(s, sep, from + 1)
  }

  /**
   * `s.split(sep)`: the pieces between the non-overlapping occurrences of
   * `sep`, found left to right.  There is always at least one piece.
   */
  function Split(s: string, sep: string): (r: seq<string>)
    requires |sep| > 0
    ensures |r| > 0
    decreases |s|
  {
    match FindFrom(s, sep, 0)
    case None => [s]
    case Some(i) => [s[..i]] + Split(s[i + |sep|..], sep)
  }

  /** A string is the text before an occurrence, the occurrence, and the rest. */
  lemma AroundOccurrence(s: string, sep: string, i: nat)
    requires OccursAt(s, sep, i)
    ensures s == s[..i] + sep + s[i + |sep|..]
  {
    assert s == s[..i] + s[i..i + |sep|] + s[i + |sep|..];
  }

  /** `sep.join(s.split(sep)) == s`. */
  lemma {:induction false} JoinOfSplit(s: string, sep: string)
    requires |sep| > 0
    ensures Join(Split(s, sep), sep) == s
    decreases |s|
  {
    match FindFrom(s, sep, 0)
    case None =>
    case Some(i) =>
      var head := s[..i];
      var rest := s[i + |sep|..];
      assert Split(s, sep) == [head] + Split(rest, sep);
      AroundOccurrence(s, sep, i);
      JoinOfSplit(rest, sep);
      JoinCons(head, Split(rest, sep), sep);
  }

  lemma {:induction false} FindFromFirstChar(s: string, sep: string, from: nat, k: nat)
    requires |sep| > 0 && from <= k && OccursAt(s, sep, k)
    requires forall j :: from <= j < k ==> s[j] != sep[0]
    ensures FindFrom(s, sep, from) == Some(k)
    decreases k - from
  {
    if from < k {
      assert s[from..from + |sep|][0] == s[from];
      FindFromFirstChar(s, sep, from + 1, k);
    }
  }

  lemma {:induction false} FindFromNoFirstChar(s: string, sep: string, from: nat)
    requires |sep| > 0 && from <= |s|
    requires forall j :: from <= j < |s| ==> s[j] != sep[0]
    ensures FindFrom(s, sep, from) == None
    decreases |s| - from
  {
    if from + |sep| <= |s| {
      assert s[from..from + |sep|][0] == s[from];
      FindFromNoFirstChar(s, sep, from + 1);
    }
  }

  /**
   * `sep.join(items).split(sep) == items` when no item contains the first
   * character of `sep`: the separators are then the only places to cut.
   */
  lemma {:induction false} SplitOfJoin(items: seq<string>, sep: string)
    requires |sep| > 0 && |items| > 0
    requires forall k, j :: 0 <= k < |items| && 0 <= j < |items[k]| ==> items[k][j] != sep[0]
    ensures Split(Join(items, sep), sep) == items
    decreases |items|
  {
    var head := items[0];
    if |items| == 1 {
      FindFromNoFirstChar(head, sep, 0);
    } else {
      var rest := items[1..];
      assert items == [head] + rest;
      JoinCons(head, rest, sep);
      var s := head + sep + Join(rest, sep);
      assert s[|head|..|head| + |sep|] == sep;
      FindFromFirstChar(s, sep, 0, |head|);
      assert s[|head| + |sep|..] == Join(rest, sep);
      assert s[..|head|] == head;
      SplitOfJoin(rest, sep);
    }
  }
}
