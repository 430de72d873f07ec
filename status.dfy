/**
 * The four-valued compliance status of `app/models.py` (`ComplianceStatus`): its string
 * values, the lenient `from_string` lookup and `__str__`.
 */
module Status {
  import opened Wrappers

  datatype Status = Compliant | NonCompliant | NonApplicable | NotReviewed

  /** The enum's `value` (and `__str__`). */
  function ToString(s: Status): (r: string)
    ensures r in {"Compliant", "Non Compliant", "Non Applicable", "Not Reviewed"}
  {
    match s
    case Compliant => "Compliant"
    case NonCompliant => "Non Compliant"
    case NonApplicable => "Non Applicable"
    case NotReviewed => "Not Reviewed"
  }

  /** True for exactly the four strings that are some member's value. */
  predicate IsStatusString(v: string) {
    v == "Compliant" || v == "Non Compliant" || v == "Non Applicable" || v == "Not Reviewed"
  }

  /**
   * `ComplianceStatus.from_string`: the member whose value equals `v` (exact, case-sensitive
   * comparison, in declaration order), and NOT_REVIEWED for every other string.
   */
  function FromString(v: string): (r: Status)
    ensures IsStatusString(v) ==> ToString(r) == v
    ensures !IsStatusString(v) ==> r == NotReviewed
  {
    if v == "Compliant" then Compliant
    else if v == "Non Compliant" then NonCompliant
    else if v == "Non Applicable" then NonApplicable
    else NotReviewed
  }

  /**
   * The validation the summary applies to a raw (possibly missing) status value: a value
   * outside the four statuses, or no value at all, counts as Not Reviewed.
   */
  function Normalize(raw: Option<string>): (r: Status)
    ensures raw.Some? && IsStatusString(raw.value) ==> ToString(r) == raw.value
    ensures (raw.None? || !IsStatusString(raw.value)) ==> r == NotReviewed
  {
    match raw
    case Some(v) => FromString(v)
    case None => NotReviewed
  }

  /** `from_string(str(s)) == s` for every member. */
  lemma FromStringToString(s: Status)
    ensures FromString(ToString(s)) == s
  {
  }

  /** `str` is injective: distinct members have distinct values. */
  lemma ToStringInjective(a: Status, b: Status)
    requires ToString(a) == ToString(b)
    ensures a == b
  {
  }

  /** Casing matters: the lower-case spelling of a value is not recognised. */
  lemma FromStringIsCaseSensitive()
    ensures FromString("compliant") == NotReviewed
    ensures FromString("non compliant") == NotReviewed
    ensures FromString("Invalid") == NotReviewed
  {
  }
}
