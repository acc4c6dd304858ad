/** `QueryRequest`: the bounds on the query's fields, the date-format check on each date,
    and the check that the range is not reversed. Field checks run in declaration order and
    all their errors are reported together; the range check runs only when every field
    passed. Whether a string is a calendar date in `%Y%m%d` form is a parameter. */
module Validation {
  import opened Wrappers
  import opened Text

  const MaxCodesLength: nat := 5000
  const MinYears: int := 1
  const MaxYears: int := 30
  const DefaultYears: int := 3

  const BadDateText: string := "日期格式应为 YYYYMMDD 且必须是合法日期"
  const ReversedText: string := "起始日期不能晚于结束日期"

  /** The request's fields, in declaration order. */
  datatype Field = Codes | StartDate | EndDate | Years

  /** One reported problem: a missing or over-long `codes`, a date that is not a date, a
      `years` out of range, or a reversed range. */
  datatype Problem =
    | Missing(field: Field)
    | TooLong(field: Field)
    | Invalid(field: Field, text: string)
    | BelowMin(field: Field)
    | AboveMax(field: Field)
    | Reversed(text: string)

  /** The body as sent: any field may be absent. */
  datatype Body = Body(codes: Option<string>, start: Option<string>, end: Option<string>, years: Option<int>)

  /** A request that passed validation. */
  datatype Query = Query(codes: string, start: Option<string>, end: Option<string>, years: int)

  /** `validate_date`: an absent date passes; a present one passes unchanged iff it parses. */
  function ValidateDate(v: Option<string>, parses: string -> bool): (r: Result<Option<string>, string>)
    ensures v.None? ==> r == Success(None)
    ensures v.Some? ==> (r.Success? <==> parses(v.value))
    ensures r.Success? ==> r.value == v
    ensures r.Failure? ==> r.error == BadDateText
  {
    match v
    case None => Success(None)
    case Some(s) => if parses(s) then Success(v) else Failure(BadDateText)
  }

  /** Python truthiness of an optional string: present and non-empty. */
  predicate Truthy(v: Option<string>) {
    v.Some? && v.value != ""
  }

  /** `validate_date_range`: refuse only when both dates are given and the start comes
      after the end in string order. */
  function ValidateDateRange(q: Query): (r: Result<Query, string>)
    ensures r.Success? ==> r.value == q
    ensures r.Failure? ==> r.error == ReversedText
    ensures r.Failure? <==> Truthy(q.start) && Truthy(q.end) && !LexLe(q.start.value, q.end.value)
  {
    if Truthy(q.start) && Truthy(q.end) && !LexLe(q.start.value, q.end.value) then Failure(ReversedText)
    else Success(q)
  }

  /** The problems with `codes`: required, at most 5000 characters. */
  function CodesProblems(codes: Option<string>): (ps: seq<Problem>)
    ensures ps == [] <==> codes.Some? && |codes.value| <= MaxCodesLength
    ensures |ps| <= 1
  {
    match codes
    case None => [Missing(Codes)]
    case Some(c) => if |c| > MaxCodesLength then [TooLong(Codes)] else []
  }

  function DateProblems(f: Field, v: Option<string>, parses: string -> bool): (ps: seq<Problem>)
    ensures ps == [] <==> ValidateDate(v, parses).Success?
    ensures |ps| <= 1
  {
    match ValidateDate(v, parses)
    case Success(_) => []
    case Failure(e) => [Invalid(f, e)]
  }

  /** The problems with `years`: defaults to 3, must lie in [1, 30]. */
  function YearsProblems(years: Option<int>): (ps: seq<Problem>)
    ensures ps == [] <==> MinYears <= years.GetOr(DefaultYears) <= MaxYears
    ensures |ps| <= 1
  {
    var y := years.GetOr(DefaultYears);
    if y < MinYears then [BelowMin(Years)]
    else if y > MaxYears then [AboveMax(Years)]
    else []
  }

  /** Building a `QueryRequest`: every field's problems in field order, or, when there are
      none, the range check on the accepted request. */
  function Validate(b: Body, parses: string -> bool): (r: Result<Query, seq<Problem>>)
    ensures r.Success? <==>
      b.codes.Some? && |b.codes.value| <= MaxCodesLength &&
      ValidateDate(b.start, parses).Success? && ValidateDate(b.end, parses).Success? &&
      MinYears <= b.years.GetOr(DefaultYears) <= MaxYears &&
      !(Truthy(b.start) && Truthy(b.end) && !LexLe(b.start.value, b.end.value))
    ensures r.Success? ==> r.value == Query(b.codes.value, b.start, b.end, b.years.GetOr(DefaultYears))
    ensures r.Failure? ==> 1 <= |r.error| <= 4
  {
    var ps := CodesProblems(b.codes) + DateProblems(StartDate, b.start, parses)
              + DateProblems(EndDate, b.end, parses) + YearsProblems(b.years);
    if ps != [] then Failure(ps)
    else
      var q := Query(b.codes.value, b.start, b.end, b.years.GetOr(DefaultYears));
      match ValidateDateRange(q)
      case Success(v) => Success(v)
      case Failure(e) => Failure([Reversed(e)])
  }

  /** The same date at both ends is accepted; of two different dates, exactly one order
      passes the range check. */
  lemma RangeOrder(q: Query, s: string, e: string)
    requires q.start == Some(s) && q.end == Some(e) && s != "" && e != ""
    ensures s == e ==> ValidateDateRange(q).Success?
    ensures s != e ==>
      ValidateDateRange(q).Success? != ValidateDateRange(q.(start := Some(e), end := Some(s))).Success?
  {
    LexLeTotal(s, e);
    if s == e {
      LexLeReflexive(s);
    } else if LexLe(s, e) && LexLe(e, s) {
      LexLeAntisymmetric(s, e);
    }
  }

  /** A body whose fields are all in bounds and whose dates both parse is refused only for a
      reversed range, and then with that one problem. */
  lemma OnlyRangeLeft(b: Body, parses: string -> bool)
    requires b.codes.Some? && |b.codes.value| <= MaxCodesLength
    requires b.start.Some? && parses(b.start.value) && b.end.Some? && parses(b.end.value)
    requires b.years.None?
    ensures Validate(b, parses).Failure? ==> Validate(b, parses).error == [Reversed(ReversedText)]
    ensures Validate(b, parses).Success? ==> Validate(b, parses).value.years == 3
  {
  }
}
