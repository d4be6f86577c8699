/** The part of serde_json's `Value` the metadata code reads: indexing by key
    and by position, `as_str`, and JSON Pointer lookup (RFC 6901). */
module Json {
  import opened Wrappers
  import Decimal

  /** A JSON document. Numbers are kept as reals; their text form is never read. */
  datatype Value =
    | Null
    | Bool(b: bool)
    | Number(n: real)
    | String(s: string)
    | Array(items: seq<Value>)
    | Object(fields: map<string, Value>)

  /** `value[key]`: the member of an object, `Null` for a missing key or a
      value that is not an object. */
  function Member(v: Value, key: string): (r: Value)
    ensures r != Null ==> v.Object? && key in v.fields && r == v.fields[key]
  {
    if v.Object? && key in v.fields then v.fields[key] else Null
  }

  /** `value[index]`: the element of an array, `Null` when out of bounds or
      when the value is not an array. */
  function Element(v: Value, index: nat): (r: Value)
    ensures r != Null ==> v.Array? && index < |v.items| && r == v.items[index]
  {
    if v.Array? && index < |v.items| then v.items[index] else Null
  }

  /** `Value::as_str`. */
  function AsStr(v: Value): (r: Option<string>)
    ensures r.Some? <==> v.String?
  {
    if v.String? then Some(v.s) else None
  }

  /** `json["VALUE"][0].as_str()`, where the avatar-change endpoint puts the
      avatar identifier. */
  function AvatarIdField(v: Value): (r: Option<string>)
    ensures r.Some? <==>
      && v.Object? && "VALUE" in v.fields
      && v.fields["VALUE"].Array? && |v.fields["VALUE"].items| > 0
      && v.fields["VALUE"].items[0].String?
    ensures r.Some? ==> r.value == v.fields["VALUE"].items[0].s
  {
    AsStr(Element(Member(v, "VALUE"), 0))
  }

  /** serde_json's array-index token rule: digits only, no '+', and no
      leading zero unless the token is "0". */
  function ArrayIndex(token: string): (r: Option<nat>)
    ensures r.Some? <==> |token| >= 1 && Decimal.AllDigits(token) && (token[0] == '0' ==> |token| == 1)
    ensures r.Some? ==> r.value == Decimal.DigitsValue(token)
  {
    if |token| == 0 || !Decimal.AllDigits(token) || (token[0] == '0' && |token| != 1) then None
    else Some(Decimal.DigitsValue(token))
  }

  /** The canonical decimal of every index is accepted as that index. */
  lemma ArrayIndexOfNat(n: nat)
    ensures ArrayIndex(Decimal.NatToString(n)) == Some(n)
  {
    Decimal.NatToStringRoundTrip(n);
  }

  /** `Value::pointer` on a pointer already split into its reference tokens. */
  function Pointer(v: Value, tokens: seq<string>): Option<Value>
    decreases |tokens|
  {
    if |tokens| == 0 then Some(v)
    else match v
      case Object(fields) =>
        if tokens[0] in fields then Pointer(fields[tokens[0]], tokens[1..]) else None
      case Array(items) =>
        var i := ArrayIndex(tokens[0]);
        if i.Some? && i.value < |items| then Pointer(items[i.value], tokens[1..]) else None
      case _ => None
  }

  /** The reference tokens of the pointer "/CONTENTS/PregnancySave". */
  const PregnancySavePath: seq<string> := ["CONTENTS", "PregnancySave"]

  /** `json_path_exists(data, "/CONTENTS/PregnancySave")`. */
  function HasPregnancySave(v: Value): bool {
    Pointer(v, PregnancySavePath).Some?
  }

  /** The avatar carries the parameter subtree exactly when the document is an
      object whose CONTENTS member is an object holding PregnancySave; arrays
      never match, since neither token is an index. */
  lemma HasPregnancySaveShape(v: Value)
    ensures HasPregnancySave(v) <==>
      v.Object? && "CONTENTS" in v.fields
      && v.fields["CONTENTS"].Object? && "PregnancySave" in v.fields["CONTENTS"].fields
  {
    assert !Decimal.IsDigit("CONTENTS"[0]);
    assert !Decimal.IsDigit("PregnancySave"[0]);
    assert PregnancySavePath[1..] == ["PregnancySave"];
    if v.Object? && "CONTENTS" in v.fields {
      var c := v.fields["CONTENTS"];
      assert Pointer(v, PregnancySavePath) == Pointer(c, ["PregnancySave"]);
      if c.Object? && "PregnancySave" in c.fields {
        assert ["PregnancySave"][1..] == [];
      }
    }
  }

  /** `Null`, which the cache returns on its soft failures, never carries it. */
  lemma NullLacksPregnancySave()
    ensures !HasPregnancySave(Null)
  {
  }
}
