/** The runtime value of value.h / value.cpp: a four-way variant of a number,
    a string, a boolean and a procedure.

    `long double` is modelled by `real`. Writing a number as text goes through
    a `std::stringstream`, whose formatting is platform-defined; it is a
    parameter `showNumber` of `Show` here. */
module Values {
  import opened Results
  import opened Syntax

  /** `std::variant<long double, std::string, bool, std::shared_ptr<Lambda>>`.
      A procedure is its parameter names and its body node; it captures no
      environment. */
  datatype Value =
    | Number(num: real)
    | String(text: string)
    | Bool(b: bool)
    | Lambda(params: seq<string>, body: Node)

  /** `Value()`: the default value, used as the initial result of a body
      loop and as COND's result when no clause matches. */
  const Default: Value := Number(0.0)

  /** `Value(const std::string&)`: one surrounding pair of `"` is removed
      from text of at least two characters that starts and ends with `"`;
      any other text is stored as it is. */
  function FromString(s: string): (v: Value)
    ensures v.String?
    ensures IsQuoted(s) ==> |v.text| == |s| - 2 && "\"" + v.text + "\"" == s
    ensures !IsQuoted(s) ==> v.text == s
  {
    if IsQuoted(s) then String(s[1..|s| - 1]) else String(s)
  }

  /** `Value(const char*)`: the text is stored as it is, quotes included. */
  function FromCString(s: string): (v: Value)
    ensures v.String? && v.text == s
  {
    String(s)
  }

  /** `asNumber`: the number; `std::get` fails on any other variant. */
  function AsNumber(v: Value): (r: Result<real>)
    ensures r.Ok? <==> v.Number?
    ensures r.Ok? ==> v == Number(r.value)
    ensures r.Err? ==> r.error == BadVariantAccess
  {
    if v.Number? then Ok(v.num) else Err(BadVariantAccess)
  }

  /** `asString`: the text; `std::get` fails on any other variant. */
  function AsString(v: Value): (r: Result<string>)
    ensures r.Ok? <==> v.String?
    ensures r.Ok? ==> v == String(r.value)
    ensures r.Err? ==> r.error == BadVariantAccess
  {
    if v.String? then Ok(v.text) else Err(BadVariantAccess)
  }

  /** `asBool`: the flag; `std::get` fails on any other variant. */
  function AsBool(v: Value): (r: Result<bool>)
    ensures r.Ok? <==> v.Bool?
    ensures r.Ok? ==> v == Bool(r.value)
    ensures r.Err? ==> r.error == BadVariantAccess
  {
    if v.Bool? then Ok(v.b) else Err(BadVariantAccess)
  }

  /** `asLambda`: the procedure; `std::get` fails on any other variant. */
  function AsLambda(v: Value): (r: Result<(seq<string>, Node)>)
    ensures r.Ok? <==> v.Lambda?
    ensures r.Ok? ==> v == Lambda(r.value.0, r.value.1)
    ensures r.Err? ==> r.error == BadVariantAccess
  {
    if v.Lambda? then Ok((v.params, v.body)) else Err(BadVariantAccess)
  }

  /** `str` (and the text `print` writes): numbers through `showNumber`,
      strings re-wrapped in `"`, booleans as `TRUE`/`FALSE`, every procedure
      as `<lambda>`. */
  function Show(v: Value, showNumber: real -> string): (r: string)
    ensures v.String? ==> IsQuoted(r) && r[1..|r| - 1] == v.text
    ensures v.Bool? ==> r == (if v.b then "TRUE" else "FALSE")
    ensures v.Lambda? ==> r == "<lambda>"
  {
    match v
    case Number(x) => showNumber(x)
    case String(t) => "\"" + t + "\""
    case Bool(b) => if b then "TRUE" else "FALSE"
    case Lambda(_, _) => "<lambda>"
  }

  /** A string literal survives construction and printing unchanged:
      `str(Value(q)) == q` for every quoted `q`. */
  lemma {:induction false} ShowFromQuoted(q: string, showNumber: real -> string)
    requires IsQuoted(q)
    ensures Show(FromString(q), showNumber) == q
  {
    var v := FromString(q);
    assert "\"" + v.text + "\"" == q;
  }

  /** Printing a string and constructing a value from the printed text gives
      back the same string, whatever it contains. */
  lemma {:induction false} FromStringShow(t: string, showNumber: real -> string)
    ensures FromString(Show(String(t), showNumber)) == String(t)
  {
    var q := Show(String(t), showNumber);
    assert q[1..|q| - 1] == t;
  }

  /** The printed forms of booleans and procedures never look like a string
      value's printed form, which always starts with `"`. */
  lemma {:induction false} ShowDistinguishesStrings(v: Value, w: Value, showNumber: real -> string)
    requires v.String? && (w.Bool? || w.Lambda?)
    ensures Show(v, showNumber) != Show(w, showNumber)
  {
    assert Show(v, showNumber)[0] == '"';
    if w.Bool? {
      assert Show(w, showNumber)[0] != '"';
    } else {
      assert Show(w, showNumber)[0] == '<';
    }
  }
}
