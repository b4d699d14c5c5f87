/** `JSValue` and `JSMap` of the C++ port: a string-or-boolean value that may be absent, and
    the string-keyed map of such values that holds `s` and `c`. */
module CppValues {

  datatype Variant = JsStr(str: string) | JsBool(b: bool)

  /** A value and whether it exists (`exists` in the source); the default constructor gives an empty string that does
      not exist. */
  datatype JSValue = JSValue(value: Variant, present: bool)

  const Missing: JSValue := JSValue(JsStr(""), false)

  function FromString(s: string): JSValue { JSValue(JsStr(s), true) }

  function FromBool(b: bool): JSValue { JSValue(JsBool(b), true) }

  /** `operator=(int)`: the value becomes the boolean `val != 0`. */
  function FromInt(val: int): (r: JSValue)
    ensures r.present && IsBool(r)
    ensures Truthy(r) <==> val != 0
    ensures ToString(r) == if val == 0 then "false" else "true"
  {
    JSValue(JsBool(val != 0), true)
  }

  /** `operator bool`: a missing value is false, a boolean is itself, and a string is true
      unless it is empty, "false" or "0". */
  predicate Truthy(v: JSValue)
  {
    v.present && match v.value
      case JsBool(b) => b
      case JsStr(s) => s != "" && s != "false" && s != "0"
  }

  /** `toString`: "" for a missing value, "true"/"false" for a boolean. */
  function ToString(v: JSValue): string
  {
    if !v.present then ""
    else match v.value
      case JsStr(s) => s
      case JsBool(b) => if b then "true" else "false"
  }

  predicate IsString(v: JSValue) { v.present && v.value.JsStr? }

  predicate IsBool(v: JSValue) { v.present && v.value.JsBool? }

  /** Truthiness depends only on the text: a value is truthy exactly when its `toString` is
      not "", "false" or "0", for booleans and strings alike. */
  lemma TruthyIsText(v: JSValue)
    ensures Truthy(v) <==> ToString(v) != "" && ToString(v) != "false" && ToString(v) != "0"
  {
  }

  /** The const `operator[]`: the stored value, or a missing value. */
  function At(m: map<string, JSValue>, key: string): (v: JSValue)
    ensures key !in m ==> !v.present && !Truthy(v)
    ensures key in m ==> v == m[key]
  {
    if key in m then m[key] else Missing
  }

  /** The map behind `cli.s` and `cli.c`. */
  class JSMap {
    var data: map<string, JSValue>

    constructor ()
      ensures data == map[]
    {
      data := map[];
    }

    /** The non-const `operator[]`: a missing key is first inserted with a value that does
        not exist; the entry is returned. */
    method Subscript(key: string) returns (v: JSValue)
      modifies this
      ensures key in data && v == data[key]
      ensures data == if key in old(data) then old(data) else old(data)[key := Missing]
    {
      if key !in data {
        data := data[key := Missing];
      }
      v := data[key];
    }

    /** `m[key] = v`: the subscript followed by the value's assignment operator. */
    method Assign(key: string, v: JSValue)
      modifies this
      ensures data == old(data)[key := v]
    {
      var _ := Subscript(key);
      data := data[key := v];
    }

    /** The const `operator[]`. */
    function Get(key: string): (v: JSValue)
      reads this
      ensures v == At(data, key)
    {
      if key in data then data[key] else Missing
    }

    predicate Has(key: string)
      reads this
    {
      key in data
    }

    function Size(): nat
      reads this
    {
      |data|
    }

    predicate IsEmpty()
      reads this
      ensures IsEmpty() <==> Size() == 0
    {
      data == map[]
    }
  }
}
