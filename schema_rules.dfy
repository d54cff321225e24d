/**
 * The rules the zod schemas of the API are built from, as predicates. A
 * field holds a value of the right type or is absent; every check chained
 * onto a field that the value fails adds one issue at the field's path, in
 * the order the checks are chained, and an object's issues come field by
 * field in the order its keys are declared.
 */
module SchemaRules {
  import opened Wrappers

  datatype PathPart = Key(name: string) | Index(index: nat)
  type Path = seq<PathPart>

  /** The kinds of issue the schemas raise. `Required` and `NotInteger` are
      both reported by zod as invalid_type. */
  datatype Code =
    | Required
    | InvalidDate
    | NotInteger
    | TooSmall
    | TooBig
    | NotMultipleOf
    | InvalidEnumValue
    | InvalidUuid
    | NotANumber

  datatype Issue = Issue(path: Path, code: Code)

  /** The refinements chained onto z.number(). */
  datatype NumberCheck = Int | Positive | Nonnegative | Min(bound: real) | Max(bound: real) | MultipleOf(step: real)

  /** The refinements chained onto z.string() and z.array(). */
  datatype LengthCheck = MinLength(min: nat) | MaxLength(max: nat)

  predicate IsInteger(x: real) {
    x.Floor as real == x
  }

  predicate PassesNumber(x: real, c: NumberCheck) {
    match c
    case Int => IsInteger(x)
    case Positive => x > 0.0
    case Nonnegative => x >= 0.0
    case Min(b) => x >= b
    case Max(b) => x <= b
    // A zero step leaves a NaN remainder, which is not 0.
    case MultipleOf(step) => step != 0.0 && IsInteger(x / step)
  }

  function NumberCode(c: NumberCheck): Code {
    match c
    case Int => NotInteger
    case Positive => TooSmall
    case Nonnegative => TooSmall
    case Min(_) => TooSmall
    case Max(_) => TooBig
    case MultipleOf(_) => NotMultipleOf
  }

  /** One issue for every check x fails, in the order of the checks. */
  function NumberIssues(path: Path, x: real, checks: seq<NumberCheck>): (issues: seq<Issue>)
    ensures |issues| <= |checks|
    ensures issues == [] <==> forall c :: c in checks ==> PassesNumber(x, c)
    ensures forall c :: c in checks && !PassesNumber(x, c) ==> Issue(path, NumberCode(c)) in issues
    ensures forall i :: i in issues ==> i.path == path && exists c :: c in checks && !PassesNumber(x, c) && i.code == NumberCode(c)
  {
    if checks == [] then []
    else
      var rest := NumberIssues(path, x, checks[1..]);
      assert forall c :: c in checks[1..] ==> c in checks;
      if PassesNumber(x, checks[0]) then rest else [Issue(path, NumberCode(checks[0]))] + rest
  }

  predicate PassesLength(n: nat, c: LengthCheck) {
    match c
    case MinLength(m) => n >= m
    case MaxLength(m) => n <= m
  }

  function LengthCode(c: LengthCheck): Code {
    match c
    case MinLength(_) => TooSmall
    case MaxLength(_) => TooBig
  }

  /** One issue for every length check a string or array of length n fails. */
  function LengthIssues(path: Path, n: nat, checks: seq<LengthCheck>): (issues: seq<Issue>)
    ensures |issues| <= |checks|
    ensures issues == [] <==> forall c :: c in checks ==> PassesLength(n, c)
    ensures forall i :: i in issues ==> i.path == path
  {
    if checks == [] then []
    else
      var rest := LengthIssues(path, n, checks[1..]);
      assert forall c :: c in checks[1..] ==> c in checks;
      if PassesLength(n, checks[0]) then rest else [Issue(path, LengthCode(checks[0]))] + rest
  }

  /** A number field: absent is `Required` unless the schema is partial. */
  function NumberField(path: Path, v: Option<real>, checks: seq<NumberCheck>, partial: bool): (issues: seq<Issue>)
    ensures issues == [] <==> if v.None? then partial else forall c :: c in checks ==> PassesNumber(v.value, c)
    ensures forall i :: i in issues ==> i.path == path
  {
    match v
    case None => if partial then [] else [Issue(path, Required)]
    case Some(x) => NumberIssues(path, x, checks)
  }

  /** A string field with length checks. */
  function StringField(path: Path, v: Option<string>, checks: seq<LengthCheck>, partial: bool): (issues: seq<Issue>)
    ensures issues == [] <==> if v.None? then partial else forall c :: c in checks ==> PassesLength(|v.value|, c)
    ensures forall i :: i in issues ==> i.path == path
  {
    match v
    case None => if partial then [] else [Issue(path, Required)]
    case Some(s) => LengthIssues(path, |s|, checks)
  }

  /** A `z.coerce.date()` field holds what `new Date(value)` made of the
      input: a day, or an Invalid Date. An absent value becomes
      `new Date(undefined)`, which is invalid too. */
  datatype DateInput = Day(day: int) | Invalid

  function DateField(path: Path, v: Option<DateInput>, partial: bool): (issues: seq<Issue>)
    ensures issues == [] <==> (v.None? && partial) || (v.Some? && v.value.Day?)
    ensures forall i :: i in issues ==> i.path == path
  {
    match v
    case None => if partial then [] else [Issue(path, InvalidDate)]
    case Some(Invalid) => [Issue(path, InvalidDate)]
    case Some(Day(_)) => []
  }

  /** The issues of the elements of an array from index k on, each at its
      own index. */
  function ElementIssues<T>(xs: seq<T>, k: nat, issuesOf: (nat, T) -> seq<Issue>): (issues: seq<Issue>)
    requires k <= |xs|
    ensures issues == [] <==> forall j :: k <= j < |xs| ==> issuesOf(j, xs[j]) == []
    decreases |xs| - k
  {
    if k == |xs| then [] else issuesOf(k, xs[k]) + ElementIssues(xs, k + 1, issuesOf)
  }

  // ------------------------------------------------------ partial schemas

  /** What `.partial()` does to a schema's issues: it reports none that the
      full schema does not, and none at all when the full schema accepts. */
  ghost predicate WeakerIssues(partial: seq<Issue>, full: seq<Issue>) {
    && (forall i :: i in partial ==> i in full)
    && (full == [] ==> partial == [])
  }

  lemma WeakerConcat(p1: seq<Issue>, f1: seq<Issue>, p2: seq<Issue>, f2: seq<Issue>)
    requires WeakerIssues(p1, f1) && WeakerIssues(p2, f2)
    ensures WeakerIssues(p1 + p2, f1 + f2)
  {
  }

  lemma NumberFieldWeaker(path: Path, v: Option<real>, checks: seq<NumberCheck>)
    ensures WeakerIssues(NumberField(path, v, checks, true), NumberField(path, v, checks, false))
  {
  }

  lemma StringFieldWeaker(path: Path, v: Option<string>, checks: seq<LengthCheck>)
    ensures WeakerIssues(StringField(path, v, checks, true), StringField(path, v, checks, false))
  {
  }

  // ---------------------------------------------------------------- uuid

  predicate IsHexDigit(c: char) {
    ('0' <= c <= '9') || ('a' <= c <= 'f') || ('A' <= c <= 'F')
  }

  /** Five groups of 8, 4, 4, 4 and 12 hex digits joined by hyphens, in
      either case. */
  predicate IsUuid(s: string) {
    && |s| == 36
    && forall k :: 0 <= k < 36 ==>
         if k == 8 || k == 13 || k == 18 || k == 23 then s[k] == '-' else IsHexDigit(s[k])
  }
}
