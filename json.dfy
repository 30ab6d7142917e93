/** The values `JSON.parse` produces, viewed through JavaScript's property access,
    truthiness and `Object.keys`/`Object.entries`. */
module Json {
  import opened Wrappers
  import Text

  /** A parsed JSON value. An object's members are listed in `Object.keys` order
      with distinct keys, as `JSON.parse` delivers them; numbers are finite
      (JSON has no NaN or infinity). */
  datatype Json =
    | Null
    | Bool(b: bool)
    | Num(x: real)
    | Str(s: string)
    | Arr(items: seq<Json>)
    | Obj(members: seq<(string, Json)>)

  /** The result of reading a property: `undefined`, or a JSON value. */
  datatype Prop = Undefined | Defined(v: Json)

  /** JavaScript truthiness: `undefined`, `null`, `false`, `0` and `""` are falsy;
      everything else is truthy, including `[]` and `{}`. */
  predicate Truthy(p: Prop)
  {
    match p
    case Undefined => false
    case Defined(v) =>
      match v
      case Null => false
      case Bool(b) => b
      case Num(x) => x != 0.0
      case Str(s) => s != ""
      case Arr(_) => true
      case Obj(_) => true
  }

  /** The message V8 throws when a property of `null` is read. */
  function NullReadMessage(key: string): string
  {
    "Cannot read properties of null (reading '" + key + "')"
  }

  /** The value of a named member of an object, or `Undefined` when there is none. */
  function Member(members: seq<(string, Json)>, key: string): (p: Prop)
    ensures p.Defined? <==> exists i :: 0 <= i < |members| && members[i].0 == key
    ensures p.Defined? ==> exists i :: 0 <= i < |members| && members[i] == (key, p.v)
  {
    if |members| == 0 then Undefined
    else if members[0].0 == key then Defined(members[0].1)
    else
      var p := Member(members[1..], key);
      assert forall i :: 1 <= i < |members| ==> members[i] == members[1..][i - 1];
      p
  }

  /** `v[key]` for a name that is neither numeric nor an inherited property:
      it throws on `null`, finds a member of an object, and is `undefined`
      on every other value. */
  function Get(v: Json, key: string): (r: Result<Prop>)
    ensures r.Err? <==> v.Null?
    ensures r.Err? ==> r.error == NullReadMessage(key)
    ensures r.Ok? && r.value.Defined? ==> v.Obj?
  {
    match v
    case Null => Err(NullReadMessage(key))
    case Obj(members) => Ok(Member(members, key))
    case _ => Ok(Undefined)
  }

  /** `a || b` for a property `a` and a default value `b`. */
  function OrElse(p: Prop, default: Json): (r: Json)
    ensures Truthy(p) ==> Defined(r) == p
    ensures !Truthy(p) ==> r == default
  {
    if Truthy(p) then p.v else default
  }

  /** `Object.entries(v)` for a value that is not `null` or `undefined`:
      the members of an object, the indexed elements of an array or string,
      nothing for a number or a boolean. */
  function Entries(v: Json): (r: seq<(string, Json)>)
    ensures v.Obj? ==> r == v.members
    ensures v.Arr? ==> |r| == |v.items|
    ensures v.Str? ==> |r| == |v.s|
    ensures v.Num? || v.Bool? || v.Null? ==> r == []
  {
    match v
    case Obj(members) => members
    case Arr(items) => seq(|items|, i requires 0 <= i < |items| => (Text.DecimalString(i), items[i]))
    case Str(s) => seq(|s|, i requires 0 <= i < |s| => (Text.DecimalString(i), Str([s[i]])))
    case _ => []
  }

  /** `Object.keys(v)`: the keys of `Entries(v)`, in order. */
  function Keys(v: Json): (r: seq<string>)
    ensures |r| == |Entries(v)|
    ensures forall i :: 0 <= i < |r| ==> r[i] == Entries(v)[i].0
  {
    var e := Entries(v);
    seq(|e|, i requires 0 <= i < |e| => e[i].0)
  }
}
