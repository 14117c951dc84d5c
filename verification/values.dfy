/** The data a validation runs over, the user-defined rule objects, the external
    helpers the library calls, and the errors its operations can throw. */
module Values {

  /** A JavaScript value as the rules see it. `Absent` is `undefined` (a key that is
      not there); arrays and objects carry an identity, since `===` compares them by
      reference. Numbers are integers. */
  datatype Value =
    | Absent
    | Null
    | Str(s: string)
    | Int(i: int)
    | Bool(b: bool)
    | Arr(id: nat, items: seq<Value>)
    | Obj(id: nat)

  /** The validated input: field name to value. */
  type Data = map<string, Value>

  /** `data[field]`: a missing key reads as `undefined`. */
  function Get(data: Data, field: string): (v: Value)
    ensures field !in data ==> v == Absent
    ensures field in data ==> v == data[field]
  {
    if field in data then data[field] else Absent
  }

  /** JavaScript `a === b`: same type and same primitive value, or the same array or
      object reference. */
  predicate StrictEquals(a: Value, b: Value) {
    match (a, b)
    case (Absent, Absent) => true
    case (Null, Null) => true
    case (Str(x), Str(y)) => x == y
    case (Int(x), Int(y)) => x == y
    case (Bool(x), Bool(y)) => x == y
    case (Arr(x, _), Arr(y, _)) => x == y
    case (Obj(x), Obj(y)) => x == y
    case _ => false
  }

  /** Neither an array nor an object. */
  predicate IsPrimitive(v: Value) {
    !v.Arr? && !v.Obj?
  }

  /** On primitives `===` is plain value equality; on arrays and objects it is
      equality of identities. */
  lemma StrictEqualsMeaning(a: Value, b: Value)
    ensures IsPrimitive(a) && IsPrimitive(b) ==> (StrictEquals(a, b) <==> a == b)
    ensures a.Arr? && b.Arr? ==> (StrictEquals(a, b) <==> a.id == b.id)
    ensures a.Obj? && b.Obj? ==> (StrictEquals(a, b) <==> a.id == b.id)
    ensures a.Arr? != b.Arr? || a.Obj? != b.Obj? ==> !StrictEquals(a, b)
  {
  }

  /** A user-defined rule object: its name (used for message overrides), its fixed
      message template and its predicate over the whole data and the field name.
      `id` is the object's identity. */
  datatype CustomRule = CustomRule(
    id: nat,
    name: string,
    message: string,
    check: (Data, string) -> bool)

  /** The external string helpers the library calls: StudlyCase conversion, snake_case
      conversion and the e-mail address check. */
  datatype Support = Support(
    studly: string -> string,
    snake: string -> string,
    isValidEmail: Value -> bool)

  /** What the modelled code can throw. */
  datatype Fault =
      /** `passesRule`: no predicate for the rule name. */
    | UnknownRule(rule: string)
      /** `meetsRequiredParameters`: fewer parameters than the rule needs. */
    | MissingParameters(rule: string, needed: nat)
      /** `numericParameter`: the parameter does not start with a number. */
    | NonNumericParameter(rule: string)
      /** `getSize`: a TypeError from reading `.length` of `undefined` or `null`. */
    | NoLength
      /** `getErrorMessage`: a TypeError from calling `replace` on an `undefined`
          template (a rule name with neither a custom nor a default message). */
    | NoTemplate(rule: string)
  {
    /** The rule map itself is malformed (as opposed to a runtime TypeError). */
    predicate IsConfiguration() {
      UnknownRule? || MissingParameters? || NonNumericParameter?
    }
  }
}
