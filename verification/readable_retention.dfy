/**
 * The display heuristic that turns a bucket lifecycle's expiration day count
 * into a `(measure, value)` label: years if the count is a multiple of 365,
 * else months if a multiple of 31, else weeks if a multiple of 7, else days.
 * A count of zero skips every branch because the guard tests truthiness;
 * negative exact multiples are classified like positive ones.
 */
module ReadableRetention {
  datatype Measure = Years | Months | Weeks | Days

  /** The `{expiration_measure, expiration_value}` dictionary. */
  datatype Label = Label(measure: Measure, value: int)

  /** Fixed number of days one unit of a measure stands for in the heuristic. */
  function Unit(m: Measure): (n: nat)
    ensures n >= 1
  {
    match m
    case Years => 365
    case Months => 31
    case Weeks => 7
    case Days => 1
  }

  /** The string written into `expiration_measure`. */
  function MeasureName(m: Measure): string
  {
    match m
    case Years => "years"
    case Months => "months"
    case Weeks => "weeks"
    case Days => "days"
  }

  /**
   * Distinct measures are written as distinct strings, and the day and week
   * labels use the `relativedelta` keywords a retention request accepts.
   */
  lemma MeasureNameKeywords(m1: Measure, m2: Measure)
    ensures MeasureName(m1) == MeasureName(m2) ==> m1 == m2
    ensures MeasureName(Days) == "days" && MeasureName(Weeks) == "weeks"
  {
  }

  /** The number of days a label denotes under the fixed units. */
  function ToDays(l: Label): int
  {
    l.value * Unit(l.measure)
  }

  /**
   * A label is canonical when no earlier rule of the priority chain would have
   * claimed its day count. Stated on the label's own value, not on the count:
   * 7, 31 and 365 are pairwise coprime, so e.g. `7 * v` is a multiple of 365
   * exactly when `v` is.
   */
  predicate Canonical(l: Label)
  {
    match l.measure
    case Years => l.value != 0
    case Months => l.value != 0 && l.value % 365 != 0
    case Weeks => l.value != 0 && l.value % 31 != 0 && l.value % 365 != 0
    case Days => l.value == 0 || (l.value % 7 != 0 && l.value % 31 != 0 && l.value % 365 != 0)
  }

  /** `calculate_readable_retention_policy`: the priority chain, first match wins. */
  function Readable(days: int): (r: Label)
    ensures ToDays(r) == days
    ensures r.measure == Years <==> days != 0 && days % 365 == 0
    ensures r.measure == Months <==> days != 0 && days % 31 == 0 && days % 365 != 0
    ensures r.measure == Weeks <==> days != 0 && days % 7 == 0 && days % 31 != 0 && days % 365 != 0
    ensures days == 0 ==> r == Label(Days, 0)
  {
    if days != 0 && days % 365 == 0 then Label(Years, days / 365)
    else if days != 0 && days % 31 == 0 then Label(Months, days / 31)
    else if days != 0 && days % 7 == 0 then Label(Weeks, days / 7)
    else Label(Days, days)
  }

  // ----- coprimality facts the characterisation rests on -----

  lemma MultipleMod(n: int, k: int)
    requires n > 0
    ensures (n * k) % n == 0
  {
    var q, r := (n * k) / n, (n * k) % n;
    assert n * k == n * q + r && 0 <= r < n;
    assert n * (k - q) == r;
    MulSign(n, k - q);
  }

  lemma MulSign(n: int, d: int)
    requires n > 0
    ensures d >= 1 ==> n * d >= n
    ensures d <= -1 ==> n * d <= -n
  {
  }

  /** `7 * v` is a multiple of 365 exactly when `v` is (7 * 313 == 6 * 365 + 1). */
  lemma SevenCoprime365(v: int)
    ensures (7 * v) % 365 == 0 <==> v % 365 == 0
  {
    if (7 * v) % 365 == 0 {
      var q := (7 * v) / 365;
      assert 7 * v == 365 * q;
      assert v == 365 * (313 * q - 6 * v);
      MultipleMod(365, 313 * q - 6 * v);
    }
    if v % 365 == 0 {
      var q := v / 365;
      assert 7 * v == 365 * (7 * q);
      MultipleMod(365, 7 * q);
    }
  }

  /** `7 * v` is a multiple of 31 exactly when `v` is (7 * 9 == 2 * 31 + 1). */
  lemma SevenCoprime31(v: int)
    ensures (7 * v) % 31 == 0 <==> v % 31 == 0
  {
    if (7 * v) % 31 == 0 {
      var q := (7 * v) / 31;
      assert 7 * v == 31 * q;
      assert v == 31 * (9 * q - 2 * v);
      MultipleMod(31, 9 * q - 2 * v);
    }
    if v % 31 == 0 {
      var q := v / 31;
      assert 7 * v == 31 * (7 * q);
      MultipleMod(31, 7 * q);
    }
  }

  /** `31 * v` is a multiple of 365 exactly when `v` is (31 * 106 == 9 * 365 + 1). */
  lemma ThirtyOneCoprime365(v: int)
    ensures (31 * v) % 365 == 0 <==> v % 365 == 0
  {
    if (31 * v) % 365 == 0 {
      var q := (31 * v) / 365;
      assert 31 * v == 365 * q;
      assert v == 365 * (106 * q - 9 * v);
      MultipleMod(365, 106 * q - 9 * v);
    }
    if v % 365 == 0 {
      var q := v / 365;
      assert 31 * v == 365 * (31 * q);
      MultipleMod(365, 31 * q);
    }
  }

  /** A day count that is `u * v` is a multiple of `u`, and dividing gives `v` back. */
  lemma ExactDivision(u: int, v: int)
    requires u > 0
    ensures (u * v) % u == 0 && (u * v) / u == v
  {
    MultipleMod(u, v);
  }

  // ----- properties of the classifier -----

  /** Every label the classifier produces is canonical. */
  lemma ReadableIsCanonical(days: int)
    ensures Canonical(Readable(days))
  {
    var r := Readable(days);
    match r.measure
    case Years =>
    case Months =>
      ExactDivision(31, r.value);
      ThirtyOneCoprime365(r.value);
    case Weeks =>
      ExactDivision(7, r.value);
      SevenCoprime365(r.value);
      SevenCoprime31(r.value);
    case Days =>
  }

  /** A canonical label is exactly what the classifier returns for its day count. */
  lemma CanonicalIsReadable(l: Label)
    requires Canonical(l)
    ensures Readable(ToDays(l)) == l
  {
    var v := l.value;
    match l.measure
    case Years =>
      ExactDivision(365, v);
    case Months =>
      ExactDivision(31, v);
      ThirtyOneCoprime365(v);
    case Weeks =>
      ExactDivision(7, v);
      SevenCoprime365(v);
      SevenCoprime31(v);
    case Days =>
  }

  /**
   * Independent characterisation: the classifier's label for `days` is the one
   * and only canonical label that denotes `days`.
   */
  lemma ReadableCharacterisation(days: int, l: Label)
    ensures Readable(days) == l <==> ToDays(l) == days && Canonical(l)
  {
    if Readable(days) == l {
      ReadableIsCanonical(days);
    }
    if ToDays(l) == days && Canonical(l) {
      CanonicalIsReadable(l);
    }
  }

  /** Concrete cases of the priority order and of the unguarded sign. */
  lemma ReadableExamples()
    ensures Readable(2555) == Label(Years, 7)
    ensures Readable(217) == Label(Months, 7)
    ensures Readable(14) == Label(Weeks, 2)
    ensures Readable(30) == Label(Days, 30)
    ensures Readable(-365) == Label(Years, -1)
    ensures Readable(0) == Label(Days, 0)
  {
  }
}
