/** `RuleValidator`: the closed table of built-in predicates and the dispatch from
    a rule name to one of them. A predicate answers `Success(true)` or
    `Success(false)`; a thrown error is a `Failure`. */
module RuleValidator {
  import opened Wrappers
  import opened Text
  import opened Values

  /** The built-in predicates, one per `validate<Name>` method of the class. */
  datatype BuiltIn = Bail | Confirm | Email | Min | Max | Required

  /** The suffix of the method implementing a built-in: `validate` + suffix. */
  function MethodSuffix(b: BuiltIn): string {
    match b
    case Bail => "Bail"
    case Confirm => "Confirm"
    case Email => "Email"
    case Min => "Min"
    case Max => "Max"
    case Required => "Required"
  }

  /** `'validate' + suffix in this`: the built-in whose method has that name, if any. */
  function BuiltInOf(suffix: string): (b: Option<BuiltIn>)
    ensures b.Some? ==> MethodSuffix(b.value) == suffix
  {
    if suffix == "Bail" then Some(Bail)
    else if suffix == "Confirm" then Some(Confirm)
    else if suffix == "Email" then Some(Email)
    else if suffix == "Min" then Some(Min)
    else if suffix == "Max" then Some(Max)
    else if suffix == "Required" then Some(Required)
    else None
  }

  /** The table is closed and exact: every built-in is found under its own method
      suffix, and under no other. */
  lemma BuiltInTable(b: BuiltIn, suffix: string)
    ensures BuiltInOf(MethodSuffix(b)) == Some(b)
    ensures BuiltInOf(suffix) == Some(b) <==> suffix == MethodSuffix(b)
  {
  }

  /** What `getSize` returns: a `.length`, or `undefined` for values without one. */
  datatype Size = Length(n: nat) | Undefined

  /** Strings and arrays: the values whose `.length` is a number. */
  predicate HasLength(v: Value) {
    v.Str? || v.Arr?
  }

  /** `.length` of a string (UTF-16 code units) or an array (elements). */
  function LengthOf(v: Value): nat
    requires HasLength(v)
  {
    if v.Str? then Utf16Length(v.s) else |v.items|
  }

  /** `getSize(input)`: `input.length` on both of its branches. Reading it from
      `undefined` or `null` throws; numbers, booleans and plain objects have none. */
  function GetSize(v: Value): (r: Result<Size, Fault>)
    ensures r.Failure? <==> v.Absent? || v.Null?
    ensures r.Failure? ==> r.error == NoLength
    ensures r.Success? && r.value.Length? <==> HasLength(v)
    ensures HasLength(v) ==> r == Success(Length(LengthOf(v)))
  {
    match v
    case Absent => Failure(NoLength)
    case Null => Failure(NoLength)
    case Str(s) => Success(Length(Utf16Length(s)))
    case Arr(_, items) => Success(Length(|items|))
    case _ => Success(Undefined)
  }

  /** `meetsRequiredParameters(needs_count, rule, ...params)`. */
  function MeetsRequiredParameters(needed: nat, rule: string, params: seq<string>): (r: Result<(), Fault>)
    ensures r.Success? <==> |params| >= needed
    ensures r.Failure? ==> r.error == MissingParameters(rule, needed)
  {
    if |params| < needed then Failure(MissingParameters(rule, needed)) else Success(())
  }

  /** `numericParameter(rule, value)`: `parseInt(value)`, throwing on `NaN`. */
  function NumericParameter(rule: string, value: string): (r: Result<int, Fault>)
    ensures r.Success? <==> ParseInt(value).Some?
    ensures r.Success? ==> r.value == ParseInt(value).value
    ensures r.Failure? ==> r.error == NonNumericParameter(rule)
  {
    match ParseInt(value)
    case None => Failure(NonNumericParameter(rule))
    case Some(n) => Success(n)
  }

  /** `validateBail`: a marker for the orchestrator; it never fails. */
  function ValidateBail(data: Data, field: string): (r: bool)
    ensures r
  {
    true
  }

  /** `validateConfirm`: the field strictly equals `<field>_confirm`. */
  function ValidateConfirm(data: Data, field: string): (r: bool)
    ensures r <==> StrictEquals(Get(data, field), Get(data, field + "_confirm"))
    ensures field !in data && field + "_confirm" !in data ==> r
    ensures IsPrimitive(Get(data, field)) && IsPrimitive(Get(data, field + "_confirm")) ==>
      (r <==> Get(data, field) == Get(data, field + "_confirm"))
  {
    StrictEqualsMeaning(Get(data, field), Get(data, field + "_confirm"));
    StrictEquals(Get(data, field), Get(data, field + "_confirm"))
  }

  /** `validateEmail`: delegated to the external e-mail check on the raw value. */
  function ValidateEmail(support: Support, data: Data, field: string): (r: bool)
    ensures r == support.isValidEmail(Get(data, field))
  {
    support.isValidEmail(Get(data, field))
  }

  /** `validateRequired`: false exactly for `undefined`, `null` and `''`. */
  function ValidateRequired(data: Data, field: string): (r: bool)
    ensures !r <==> field !in data || data[field] in {Absent, Null, Str("")}
  {
    var v := Get(data, field);
    !v.Absent? && !v.Null? && v != Str("")
  }

  /** `validateMin`: at least one parameter, then the size, then the numeric bound;
      passes when the value has a `.length` of at least the bound. */
  function ValidateMin(data: Data, field: string, params: seq<string>): (r: Result<bool, Fault>)
    ensures |params| == 0 ==> r == Failure(MissingParameters("min", 1))
    ensures |params| > 0 && (Get(data, field).Absent? || Get(data, field).Null?) ==> r == Failure(NoLength)
    ensures |params| > 0 && !Get(data, field).Absent? && !Get(data, field).Null? && ParseInt(params[0]).None? ==>
      r == Failure(NonNumericParameter("min"))
    ensures |params| > 0 && ParseInt(params[0]).Some? && HasLength(Get(data, field)) ==>
      r == Success(LengthOf(Get(data, field)) >= ParseInt(params[0]).value)
    ensures |params| > 0 && ParseInt(params[0]).Some? && (Get(data, field).Int? || Get(data, field).Bool? || Get(data, field).Obj?) ==>
      r == Success(false)
  {
    var enough :- MeetsRequiredParameters(1, "min", params);
    var size :- GetSize(Get(data, field));
    var bound :- NumericParameter("min", params[0]);
    Success(size.Length? && size.n >= bound)
  }

  /** `validateMax`: as `validateMin`, passing when the `.length` is at most the bound. */
  function ValidateMax(data: Data, field: string, params: seq<string>): (r: Result<bool, Fault>)
    ensures |params| == 0 ==> r == Failure(MissingParameters("max", 1))
    ensures |params| > 0 && (Get(data, field).Absent? || Get(data, field).Null?) ==> r == Failure(NoLength)
    ensures |params| > 0 && !Get(data, field).Absent? && !Get(data, field).Null? && ParseInt(params[0]).None? ==>
      r == Failure(NonNumericParameter("max"))
    ensures |params| > 0 && ParseInt(params[0]).Some? && HasLength(Get(data, field)) ==>
      r == Success(LengthOf(Get(data, field)) <= ParseInt(params[0]).value)
    ensures |params| > 0 && ParseInt(params[0]).Some? && (Get(data, field).Int? || Get(data, field).Bool? || Get(data, field).Obj?) ==>
      r == Success(false)
  {
    var enough :- MeetsRequiredParameters(1, "max", params);
    var size :- GetSize(Get(data, field));
    var bound :- NumericParameter("max", params[0]);
    Success(size.Length? && size.n <= bound)
  }

  /** `passesRule(rule, field, ...params)`: looks up `validate` + studly(rule) and
      runs it; a name with no such method is a configuration error. */
  function PassesRule(support: Support, data: Data, rule: string, field: string, params: seq<string>): (r: Result<bool, Fault>)
    ensures BuiltInOf(support.studly(rule)).None? <==> r == Failure(UnknownRule(rule))
    ensures r.Failure? ==> r.error.IsConfiguration() || r.error == NoLength
    ensures BuiltInOf(support.studly(rule)) == Some(Bail) ==> r == Success(true)
  {
    match BuiltInOf(support.studly(rule))
    case None => Failure(UnknownRule(rule))
    case Some(b) =>
      match b
      case Bail => Success(ValidateBail(data, field))
      case Confirm => Success(ValidateConfirm(data, field))
      case Email => Success(ValidateEmail(support, data, field))
      case Min => ValidateMin(data, field, params)
      case Max => ValidateMax(data, field, params)
      case Required => Success(ValidateRequired(data, field))
  }

  /** `min`/`max` size semantics: only strings and arrays can pass; numbers and
      booleans are not compared by their own value. */
  lemma SizeRulesNeedLength(data: Data, field: string, params: seq<string>)
    requires ValidateMin(data, field, params) == Success(true) || ValidateMax(data, field, params) == Success(true)
    ensures HasLength(Get(data, field))
  {
  }

  /** `required` accepts `0`, `false` and the empty array. */
  lemma RequiredAcceptsFalsy(data: Data, field: string, id: nat)
    ensures ValidateRequired(data[field := Int(0)], field)
    ensures ValidateRequired(data[field := Bool(false)], field)
    ensures ValidateRequired(data[field := Arr(id, [])], field)
  {
  }
}
