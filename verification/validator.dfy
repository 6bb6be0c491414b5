/** Field validators: descriptors that check a value before an instance
    attribute is set. A string validator optionally preprocesses the value,
    then requires a string whose length lies within inclusive bounds; a
    number validator requires an int or a float that neither bound check
    rejects: within inclusive bounds, where NaN passes every check.
    A descriptor stores validated values either in the instance's own
    attribute dictionary or in a store of its own keyed by instance. */
module FieldValidator {
  import opened Wrappers

  /** A Python float: a real number, one of the two infinities, or NaN. */
  datatype Float = Finite(x: real) | PosInf | NegInf | NaN

  /** The Python values a validator can be handed. A bool is an int to
      `isinstance`, and counts as 0 or 1; `POther` stands for every other
      kind (tuples, lists, ranges, ...). */
  datatype PyValue = PStr(s: string) | PInt(i: int) | PFloat(f: Float) | PBool(b: bool) | POther

  /** `isinstance(value, (int, float))`. */
  predicate IsNumber(v: PyValue) {
    v.PInt? || v.PFloat? || v.PBool?
  }

  /** The number as the comparisons see it; ints and bools are exact. */
  function NumValue(v: PyValue): Float
    requires IsNumber(v)
  {
    match v
    case PInt(i) => Finite(i as real)
    case PFloat(f) => f
    case PBool(b) => Finite(if b then 1.0 else 0.0)
  }

  /** `value < bound` for a finite bound: every comparison with NaN is
      false. */
  predicate LessThan(f: Float, bound: real) {
    match f
    case Finite(x) => x < bound
    case NegInf => true
    case PosInf => false
    case NaN => false
  }

  /** `value > bound` for a finite bound. */
  predicate GreaterThan(f: Float, bound: real) {
    match f
    case Finite(x) => x > bound
    case PosInf => true
    case NegInf => false
    case NaN => false
  }

  datatype ErrorKind = TypeError | ValueError | AttributeError

  /** A preprocessor maps a value to a new value, or raises (`None`). */
  type Preprocessor = PyValue -> Option<PyValue>

  datatype Validator =
    | StringValidator(minLength: Option<int>, maxLength: Option<int>, preprocessor: Option<Preprocessor>)
    | NumberValidator(minValue: Option<real>, maxValue: Option<real>)

  /** The bounds of a string validator, each checked only when set. */
  predicate LengthOk(minLength: Option<int>, maxLength: Option<int>, s: string) {
    && (minLength.Some? ==> |s| >= minLength.value)
    && (maxLength.Some? ==> |s| <= maxLength.value)
  }

  /** Neither bound check of `NumberValidator.validate` fires. */
  predicate RangeOk(minValue: Option<real>, maxValue: Option<real>, f: Float) {
    && (minValue.Some? ==> !LessThan(f, minValue.value))
    && (maxValue.Some? ==> !GreaterThan(f, maxValue.value))
  }

  /** A finite value passes the checks exactly when it lies within the
      inclusive bounds; NaN passes every check; an infinity passes exactly
      when the bound on its side is not set. */
  lemma RangeOkMeaning(minValue: Option<real>, maxValue: Option<real>, f: Float)
    ensures f.Finite? ==>
      (RangeOk(minValue, maxValue, f) <==>
        (minValue.Some? ==> minValue.value <= f.x) && (maxValue.Some? ==> f.x <= maxValue.value))
    ensures f == NaN ==> RangeOk(minValue, maxValue, f)
    ensures f == PosInf ==> (RangeOk(minValue, maxValue, f) <==> maxValue.None?)
    ensures f == NegInf ==> (RangeOk(minValue, maxValue, f) <==> minValue.None?)
  {
  }

  /** The value the preprocessor produces, or `None` if it raised. */
  function Preprocessed(p: Option<Preprocessor>, value: PyValue): Option<PyValue> {
    if p.None? then Some(value) else p.value(value)
  }

  /** `StringValidator.validate`: preprocess (an exception becomes a
      TypeError), require a string (TypeError), then the minimum length and
      the maximum length (ValueError). */
  function ValidateString(minLength: Option<int>, maxLength: Option<int>, p: Option<Preprocessor>, value: PyValue): (r: Result<PyValue, ErrorKind>)
    ensures Preprocessed(p, value).None? ==> r == Err(TypeError)
    ensures Preprocessed(p, value).Some? && !Preprocessed(p, value).value.PStr? ==> r == Err(TypeError)
    ensures Preprocessed(p, value).Some? && Preprocessed(p, value).value.PStr? && !LengthOk(minLength, maxLength, Preprocessed(p, value).value.s) ==>
      r == Err(ValueError)
    ensures r.Ok? <==> Preprocessed(p, value).Some? && Preprocessed(p, value).value.PStr? && LengthOk(minLength, maxLength, Preprocessed(p, value).value.s)
    ensures r.Ok? ==> r.value == Preprocessed(p, value).value
  {
    var pre := if p.None? then Some(value) else p.value(value);
    if pre.None? then Err(TypeError)
    else
    var v := pre.value;
    if !v.PStr? then Err(TypeError)
    else if minLength.Some? && |v.s| < minLength.value then Err(ValueError)
    else if maxLength.Some? && |v.s| > maxLength.value then Err(ValueError)
    else Ok(v)
  }

  /** `NumberValidator.validate`: require an int or a float (TypeError),
      then the minimum and the maximum (ValueError); the value is kept. */
  function ValidateNumber(minValue: Option<real>, maxValue: Option<real>, value: PyValue): (r: Result<PyValue, ErrorKind>)
    ensures !IsNumber(value) ==> r == Err(TypeError)
    ensures IsNumber(value) && !RangeOk(minValue, maxValue, NumValue(value)) ==> r == Err(ValueError)
    ensures r.Ok? <==> IsNumber(value) && RangeOk(minValue, maxValue, NumValue(value))
    ensures r.Ok? ==> r.value == value
  {
    if !IsNumber(value) then Err(TypeError)
    else if minValue.Some? && LessThan(NumValue(value), minValue.value) then Err(ValueError)
    else if maxValue.Some? && GreaterThan(NumValue(value), maxValue.value) then Err(ValueError)
    else Ok(value)
  }

  function Validate(v: Validator, value: PyValue): Result<PyValue, ErrorKind> {
    match v
    case StringValidator(lo, hi, p) => ValidateString(lo, hi, p, value)
    case NumberValidator(lo, hi) => ValidateNumber(lo, hi, value)
  }

  /** What a validator lets through: a string within the length bounds, or
      a number within the range. */
  predicate Conforms(v: Validator, value: PyValue) {
    match v
    case StringValidator(lo, hi, _) => value.PStr? && LengthOk(lo, hi, value.s)
    case NumberValidator(lo, hi) => IsNumber(value) && RangeOk(lo, hi, NumValue(value))
  }

  /** Whatever passes validation conforms; without a preprocessor a value
      passes exactly when it conforms, and passes unchanged, so validating
      a validated value changes nothing. */
  lemma ValidateConforms(v: Validator, value: PyValue)
    ensures Validate(v, value).Ok? ==> Conforms(v, Validate(v, value).value)
    ensures (v.NumberValidator? || v.preprocessor.None?) ==>
      (Validate(v, value).Ok? <==> Conforms(v, value)) && (Conforms(v, value) ==> Validate(v, value) == Ok(value))
  {
  }

  /** The bounds are inclusive at both ends; NaN passes them and an
      infinity beyond a set bound does not. */
  lemma BoundsInclusive()
    ensures Validate(StringValidator(Some(5), Some(7), None), PStr("1234")) == Err(ValueError)
    ensures Validate(StringValidator(Some(5), Some(7), None), PStr("12345")) == Ok(PStr("12345"))
    ensures Validate(StringValidator(Some(5), Some(7), None), PStr("1234567")) == Ok(PStr("1234567"))
    ensures Validate(StringValidator(Some(5), Some(7), None), PStr("12345678")) == Err(ValueError)
    ensures Validate(NumberValidator(Some(50.0), Some(100.0)), PInt(0)) == Err(ValueError)
    ensures Validate(NumberValidator(Some(50.0), Some(100.0)), PFloat(Finite(100.1))) == Err(ValueError)
    ensures Validate(NumberValidator(Some(50.0), Some(100.0)), PInt(51)) == Ok(PInt(51))
    ensures Validate(NumberValidator(Some(50.0), Some(100.0)), PFloat(Finite(90.0))) == Ok(PFloat(Finite(90.0)))
    ensures Validate(NumberValidator(Some(50.0), Some(100.0)), PFloat(NaN)) == Ok(PFloat(NaN))
    ensures Validate(NumberValidator(Some(50.0), Some(100.0)), PFloat(PosInf)) == Err(ValueError)
    ensures Validate(NumberValidator(None, None), PStr("hi")) == Err(TypeError)
    ensures Validate(StringValidator(None, None, None), PInt(69)) == Err(TypeError)
  {
  }

  /** An instance of the owning class, with its attribute dictionary. */
  class Instance {
    var dict: map<string, PyValue>

    constructor ()
      ensures dict == map[]
    {
      dict := map[];
    }
  }

  /** What attribute access on the descriptor yields. */
  datatype Access = TheDescriptor | Value(v: PyValue) | Raised(kind: ErrorKind)

  class Descriptor {
    const validator: Validator
    /** `store_in_descriptor`. */
    const inDescriptor: bool
    /** The descriptor's own store, used when `inDescriptor`. */
    var store: map<Instance, PyValue>
    /** The attribute name, set when the owning class is created. */
    var attrname: Option<string>

    /** Every value in the descriptor's store passed the validator. */
    ghost predicate Valid() reads this {
      forall o :: o in store ==> Conforms(validator, store[o])
    }

    constructor (validator: Validator, inDescriptor: bool)
      ensures this.validator == validator && this.inDescriptor == inDescriptor
      ensures store == map[] && attrname.None? && Valid()
    {
      this.validator := validator;
      this.inDescriptor := inDescriptor;
      store := map[];
      attrname := None;
    }

    /** `__set_name__`: `ownerHasDict` is whether `'__dict__'` is a key of
        the owner class's own namespace (`vars(owner)`, so inherited
        entries do not count). Without it the owner is refused unless the
        descriptor stores the values itself. */
    method SetName(ownerHasDict: bool, name: string) returns (r: Result<(), ErrorKind>)
      modifies this
      ensures !inDescriptor && !ownerHasDict ==> r == Err(AttributeError) && attrname == old(attrname)
      ensures inDescriptor || ownerHasDict ==> r.Ok? && attrname == Some(name)
      ensures store == old(store)
    {
      if !inDescriptor && !ownerHasDict {
        return Err(AttributeError);
      }
      attrname := Some(name);
      return Ok(());
    }

    /** `__get__`: the descriptor itself on class access (`obj` null);
        otherwise the stored value, or AttributeError when nothing is
        stored for the instance. */
    function Get(obj: Instance?): (r: Access)
      requires attrname.Some?
      reads this, obj
      ensures obj == null ==> r == TheDescriptor
      ensures obj != null && inDescriptor ==> (r.Value? <==> obj in store) && (r.Value? ==> r.v == store[obj])
      ensures obj != null && !inDescriptor ==> (r.Value? <==> attrname.value in obj.dict) && (r.Value? ==> r.v == obj.dict[attrname.value])
      ensures !r.Value? && obj != null ==> r == Raised(AttributeError)
    {
      if obj == null then TheDescriptor
      else if inDescriptor then (if obj in store then Value(store[obj]) else Raised(AttributeError))
      else if attrname.value in obj.dict then Value(obj.dict[attrname.value])
      else Raised(AttributeError)
    }

    /** `__set__`: validate first; a rejected value changes nothing, an
        accepted one is stored in its validated form. */
    method Set(obj: Instance, value: PyValue) returns (r: Result<(), ErrorKind>)
      requires attrname.Some? && Valid()
      modifies this, obj
      ensures Valid() && attrname == old(attrname)
      ensures Validate(validator, value).Err? ==>
        r == Err(Validate(validator, value).error) && store == old(store) && obj.dict == old(obj.dict)
      ensures Validate(validator, value).Ok? && inDescriptor ==>
        r.Ok? && store == old(store)[obj := Validate(validator, value).value] && obj.dict == old(obj.dict)
      ensures Validate(validator, value).Ok? && !inDescriptor ==>
        r.Ok? && store == old(store) && obj.dict == old(obj.dict)[attrname.value := Validate(validator, value).value]
    {
      var v := Validate(validator, value);
      if v.Err? {
        return Err(v.error);
      }
      ValidateConforms(validator, value);
      if inDescriptor {
        store := store[obj := v.value];
      } else {
        obj.dict := obj.dict[attrname.value := v.value];
      }
      return Ok(());
    }
  }

  /** A set followed by a get reads back the validated value. */
  method SetThenGet(d: Descriptor, obj: Instance, value: PyValue) returns (got: Access)
    requires d.attrname.Some? && d.Valid()
    modifies d, obj
    ensures d.attrname == old(d.attrname)
    ensures Validate(d.validator, value).Ok? ==> got == Value(Validate(d.validator, value).value)
    ensures Validate(d.validator, value).Err? ==> got == d.Get(obj) && d.store == old(d.store) && obj.dict == old(obj.dict)
  {
    var _ := d.Set(obj, value);
    got := d.Get(obj);
  }
}
