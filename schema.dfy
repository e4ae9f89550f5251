/** The Mongoose validators the three schemas use (`required`, `maxlength`,
    `min`, `max`, `enum`, and the cast of a Number path). Each check returns
    the validation error of one path, or none: Mongoose stops at the first
    validator of a path that fails, and `required` runs first. */
module Schema {
  import opened Common

  datatype SchemaError =
    | Required(path: string)
    | MaxLength(path: string, limit: nat)
    | Min(path: string, bound: real)
    | Max(path: string, bound: real)
    | NotInEnum(path: string)
    | CastToNumber(path: string)

  /** Mongoose's `required` on a String path: the value is present and is not
      the empty string. */
  predicate HasString(v: Option<string>)
  {
    v.Some? && v.value != ""
  }

  /** The condition a String path with `required` and `maxlength` places on
      its value. */
  predicate StringOk(v: Option<string>, required: bool, maxLen: nat)
  {
    (required ==> HasString(v)) && (v.Some? ==> |v.value| <= maxLen)
  }

  /** A String path with an optional `required` and a `maxlength`. */
  function CheckString(path: string, v: Option<string>, required: bool, maxLen: nat): (errs: seq<SchemaError>)
    ensures errs == [] <==> StringOk(v, required, maxLen)
    ensures errs != [] ==> errs == [Required(path)] || errs == [MaxLength(path, maxLen)]
  {
    if required && !HasString(v) then [Required(path)]
    else if v.Some? && |v.value| > maxLen then [MaxLength(path, maxLen)]
    else []
  }

  /** A String path with `required` and no other validator. */
  function CheckRequired(path: string, v: Option<string>): (errs: seq<SchemaError>)
    ensures errs == [] <==> HasString(v)
    ensures errs != [] ==> errs == [Required(path)]
  {
    if !HasString(v) then [Required(path)] else []
  }

  /** The condition a String path with an `enum` places on its value; an
      absent value passes `enum`, and the empty string does not. */
  predicate EnumOk(v: Option<string>, required: bool, values: seq<string>)
  {
    (required ==> HasString(v)) && (v.Some? ==> v.value in values)
  }

  function CheckEnum(path: string, v: Option<string>, required: bool, values: seq<string>): (errs: seq<SchemaError>)
    ensures errs == [] <==> EnumOk(v, required, values)
    ensures errs != [] ==> errs == [Required(path)] || errs == [NotInEnum(path)]
  {
    if required && !HasString(v) then [Required(path)]
    else if v.Some? && v.value !in values then [NotInEnum(path)]
    else []
  }

  /** The condition a Number path with `required`, `min` and `max` places on
      its value; `NaN` never passes, because the cast to Number fails. */
  predicate NumberOk(v: Option<JsNumber>, required: bool, min: Option<real>, max: Option<real>)
  {
    && (required ==> v.Some?)
    && (v.Some? ==> v.value.Num?)
    && (v.Some? && v.value.Num? && min.Some? ==> min.value <= v.value.value)
    && (v.Some? && v.value.Num? && max.Some? ==> v.value.value <= max.value)
  }

  function CheckNumber(path: string, v: Option<JsNumber>, required: bool, min: Option<real>, max: Option<real>): (errs: seq<SchemaError>)
    ensures errs == [] <==> NumberOk(v, required, min, max)
    ensures |errs| <= 1
  {
    match v
    case None => if required then [Required(path)] else []
    case Some(NaN) => [CastToNumber(path)]
    case Some(Num(x)) =>
      if min.Some? && x < min.value then [Min(path, min.value)]
      else if max.Some? && x > max.value then [Max(path, max.value)]
      else []
  }

  /** A required ObjectId reference. */
  function CheckRef(path: string, v: Option<Id>): (errs: seq<SchemaError>)
    ensures errs == [] <==> v.Some?
  {
    if v.None? then [Required(path)] else []
  }

  /** Every element of an array of Strings passes `maxlength`. */
  function CheckEach(path: string, vs: seq<string>, maxLen: nat): (errs: seq<SchemaError>)
    ensures errs == [] <==> forall i :: 0 <= i < |vs| ==> |vs[i]| <= maxLen
  {
    if vs == [] then []
    else CheckString(path, Some(vs[0]), false, maxLen) + CheckEach(path, vs[1..], maxLen)
  }
}
