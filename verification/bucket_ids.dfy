/**
 * The public bucket id `p--<project_id>.<bucket>` returned by the bucket
 * listing and by the lifecycle update, with `project_id` rendered the way
 * Python's `str` renders a non-negative int. `ParseBucketId` is its inverse:
 * the project digits never contain '.', so the first '.' after the prefix
 * splits the id, and bucket names may themselves contain dots.
 */
module BucketIds {
  import opened Wrappers

  const Prefix: string := "p--"

  predicate IsDigit(c: char)
  {
    '0' <= c <= '9'
  }

  function DigitChar(d: nat): (c: char)
    requires d < 10
    ensures IsDigit(c)
  {
    "0123456789"[d]
  }

  function DigitValue(c: char): (d: nat)
    requires IsDigit(c)
    ensures d < 10 && DigitChar(d) == c
  {
    (c as int - '0' as int) as nat
  }

  /** Decimal digits without a superfluous leading zero. */
  predicate CanonicalDecimal(s: string)
  {
    |s| >= 1 && (forall i :: 0 <= i < |s| ==> IsDigit(s[i])) && (s[0] == '0' ==> |s| == 1)
  }

  /** `str(n)` for a non-negative int. */
  function DecimalString(n: nat): (s: string)
    ensures CanonicalDecimal(s)
    ensures '.' !in s
    decreases n
  {
    if n < 10 then [DigitChar(n)] else DecimalString(n / 10) + [DigitChar(n % 10)]
  }

  /** Value of a string of digits, most significant first. */
  function DigitsValue(s: string): nat
    requires forall i :: 0 <= i < |s| ==> IsDigit(s[i])
  {
    if |s| == 0 then 0 else DigitsValue(s[..|s| - 1]) * 10 + DigitValue(s[|s| - 1])
  }

  lemma {:induction false} DecimalStringValue(n: nat)
    ensures DigitsValue(DecimalString(n)) == n
    decreases n
  {
    var s := DecimalString(n);
    if n >= 10 {
      assert s[..|s| - 1] == DecimalString(n / 10);
      DecimalStringValue(n / 10);
    }
  }

  /** A leading digit other than '0' makes the value at least 10^(|s|-1); used for the canonical direction. */
  lemma {:induction false} DigitsValueLowerBound(s: string)
    requires CanonicalDecimal(s) && |s| >= 2
    ensures DigitsValue(s) >= 10
    decreases |s|
  {
    var p := s[..|s| - 1];
    if |p| >= 2 {
      assert CanonicalDecimal(p);
      DigitsValueLowerBound(p);
    } else {
      assert p[0] == s[0];
      assert DigitValue(p[0]) >= 1;
      assert DigitsValue(p[..0]) == 0;
    }
  }

  lemma {:induction false} CanonicalDecimalValue(s: string)
    requires CanonicalDecimal(s)
    ensures DecimalString(DigitsValue(s)) == s
    decreases |s|
  {
    var n := DigitsValue(s);
    if |s| == 1 {
      assert s[..0] == [];
    } else {
      var p := s[..|s| - 1];
      assert p[0] == s[0];
      assert CanonicalDecimal(p);
      DigitsValueLowerBound(s);
      CanonicalDecimalValue(p);
      assert n / 10 == DigitsValue(p);
      assert n % 10 == DigitValue(s[|s| - 1]);
      assert s == p + [s[|s| - 1]];
    }
  }

  /** `f"p--{project_id}.{bucket}"`. */
  function BucketId(projectId: nat, bucket: string): (id: string)
    ensures |id| > |Prefix| + |bucket| && id[..|Prefix|] == Prefix && id[|id| - |bucket| - 1..] == "." + bucket
    ensures var digits := id[|Prefix|..|id| - |bucket| - 1];
            CanonicalDecimal(digits) && DigitsValue(digits) == projectId
  {
    var digits := DecimalString(projectId);
    DecimalStringValue(projectId);
    var id := Prefix + digits + "." + bucket;
    assert id[|Prefix|..|id| - |bucket| - 1] == digits;
    assert id[|id| - |bucket| - 1..] == "." + bucket;
    id
  }

  /** Index of the first '.' in `s`, if any. */
  function FirstDot(s: string): (r: Option<nat>)
    ensures r.Some? ==> r.value < |s| && s[r.value] == '.' && '.' !in s[..r.value]
    ensures r.None? ==> '.' !in s
  {
    if |s| == 0 then None
    else if s[0] == '.' then Some(0)
    else
      var t := FirstDot(s[1..]);
      if t.Some? then
        assert s[..t.value + 1] == [s[0]] + s[1..][..t.value];
        Some(t.value + 1)
      else None
  }

  /** Splits an id back into project id and bucket name; None when it is not of the id form. */
  function ParseBucketId(id: string): Option<(nat, string)>
  {
    if |id| < |Prefix| || id[..|Prefix|] != Prefix then None
    else
      var rest := id[|Prefix|..];
      match FirstDot(rest)
      case None => None
      case Some(i) =>
        if CanonicalDecimal(rest[..i]) then Some((DigitsValue(rest[..i]), rest[i + 1..])) else None
  }

  lemma FirstDotAfter(digits: string, tail: string)
    requires '.' !in digits
    ensures FirstDot(digits + "." + tail) == Some(|digits|)
  {
    var s := digits + "." + tail;
    assert s[|digits|] == '.';
    assert s[..|digits|] == digits;
  }

  /** Parsing an id gives back the project and bucket it was made from. */
  lemma BucketIdRoundTrip(projectId: nat, bucket: string)
    ensures ParseBucketId(BucketId(projectId, bucket)) == Some((projectId, bucket))
  {
    var digits := DecimalString(projectId);
    var id := BucketId(projectId, bucket);
    var rest := digits + "." + bucket;
    assert id == Prefix + rest;
    assert id[..|Prefix|] == Prefix && id[|Prefix|..] == rest;
    FirstDotAfter(digits, bucket);
    assert rest[..|digits|] == digits && rest[|digits| + 1..] == bucket;
    DecimalStringValue(projectId);
  }

  /** Every id the parser accepts is exactly the id of what it returns. */
  lemma ParseBucketIdSound(id: string, projectId: nat, bucket: string)
    requires ParseBucketId(id) == Some((projectId, bucket))
    ensures BucketId(projectId, bucket) == id
  {
    var rest := id[|Prefix|..];
    var i := FirstDot(rest).value;
    CanonicalDecimalValue(rest[..i]);
    assert rest == rest[..i] + "." + rest[i + 1..];
    assert id == Prefix + rest;
  }

  /** Different (project, bucket) pairs never share an id. */
  lemma BucketIdInjective(p1: nat, b1: string, p2: nat, b2: string)
    requires BucketId(p1, b1) == BucketId(p2, b2)
    ensures p1 == p2 && b1 == b2
  {
    BucketIdRoundTrip(p1, b1);
    BucketIdRoundTrip(p2, b2);
  }

  lemma BucketIdExample()
    ensures BucketId(42, "reports.daily") == "p--42.reports.daily"
  {
    assert DigitChar(4) == '4' && DigitChar(2) == '2';
    assert DecimalString(4) == "4";
    assert DecimalString(42) == "4" + "2";
    assert Prefix + "42" + "." + "reports.daily" == "p--42.reports.daily";
  }
}
