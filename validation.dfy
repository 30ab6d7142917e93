/** The light validation two pages apply after `JSON.parse`: a list of
    required field names is filtered down to the ones whose value is falsy,
    and any failure, of the parse or of the check, is reported with one
    fixed message. */
module Validation {
  import opened Wrappers
  import opened Json

  /** `a` lists some of the elements of `b`, in the order they appear there. */
  predicate Subsequence<T(==)>(a: seq<T>, b: seq<T>)
    decreases |b|
  {
    if |a| == 0 then true
    else if |b| == 0 then false
    else if a[0] == b[0] then Subsequence(a[1..], b[1..])
    else Subsequence(a, b[1..])
  }

  lemma {:induction false} SubsequenceTail<T>(a: seq<T>, b: seq<T>)
    requires |a| > 0 && Subsequence(a, b)
    ensures Subsequence(a[1..], b)
    decreases |b|
  {
    if a[0] == b[0] {
      if |a| > 1 && a[1] == b[0] {
        SubsequenceTail(a[1..], b[1..]);
        assert a[1..][1..] == a[2..];
      }
    } else {
      SubsequenceTail(a, b[1..]);
      if a[1..] != [] && a[1] == b[0] {
        SubsequenceTail(a[1..], b[1..]);
        assert a[1..][1..] == a[2..];
      }
    }
  }

  lemma SubsequenceCons<T>(a: seq<T>, b: seq<T>, x: T)
    requires Subsequence(a, b)
    ensures Subsequence(a, [x] + b)
  {
    assert ([x] + b)[1..] == b;
    if |a| > 0 && a[0] == x {
      SubsequenceTail(a, b);
    }
  }

  /** `required.filter(field => !data[field])`: the required names whose
      value is falsy, in declared order. Reading a field of `null` throws,
      which happens at the first name when there is one. Nothing checks a
      field's type: only its truthiness counts. */
  function MissingFields(data: Json, required: seq<string>): (r: Result<seq<string>>)
    ensures r.Err? <==> data.Null? && |required| > 0
    ensures r.Err? ==> r.error == NullReadMessage(required[0])
    ensures r.Ok? ==> Subsequence(r.value, required)
    ensures r.Ok? ==> forall f :: f in r.value <==> f in required && !Truthy(Get(data, f).value)
  {
    if |required| == 0 then Ok([])
    else
      match Get(data, required[0])
      case Err(e) => Err(e)
      case Ok(p) =>
        var rest := MissingFields(data, required[1..]);
        assert required == [required[0]] + required[1..];
        SubsequenceCons(rest.value, required[1..], required[0]);
        if Truthy(p) then rest else Ok([required[0]] + rest.value)
  }

  /** What a page keeps from a model response: the parsed value, or the one
      message every failure is reported with. */
  datatype Outcome = Accepted(value: Json) | Rejected(message: string)

  /** The parse-and-validate block: `parsed` is the result of `JSON.parse`
      (`Err` with the message of the `SyntaxError` when it throws). A throw
      from the parse, from reading a field of `null`, or from the
      missing-field check all end in `message`. */
  function Validate(parsed: Result<Json>, required: seq<string>, message: string): (r: Outcome)
    ensures r.Accepted? ==> parsed == Ok(r.value)
    ensures r.Rejected? ==> r.message == message
  {
    if parsed.Err? then Rejected(message)
    else
      match MissingFields(parsed.value, required)
      case Ok(missing) => if missing == [] then Accepted(parsed.value) else Rejected(message)
      case Err(_) => Rejected(message)
  }

  /** A response is accepted exactly when it parses, is not `null` (unless
      nothing is required) and every required field is truthy. */
  lemma ValidateAccepts(parsed: Result<Json>, required: seq<string>, message: string)
    ensures Validate(parsed, required, message).Accepted? <==>
      parsed.Ok? && (parsed.value.Null? ==> required == []) &&
      forall f :: f in required ==> Truthy(Get(parsed.value, f).value)
  {
    if parsed.Ok? {
      var m := MissingFields(parsed.value, required);
      if m.Ok? && m.value != [] {
        assert m.value[0] in m.value;
      }
    }
  }

  /** An empty array counts as present; `0` and an absent member count as missing. */
  lemma TruthinessOfFields()
    ensures MissingFields(Obj([("a", Arr([])), ("b", Num(0.0))]), ["a", "b", "c"]) == Ok(["b", "c"])
  {
    var data := Obj([("a", Arr([])), ("b", Num(0.0))]);
    assert Get(data, "a") == Ok(Defined(Arr([])));
    assert Get(data, "b") == Ok(Defined(Num(0.0)));
    assert Get(data, "c") == Ok(Undefined);
    assert MissingFields(data, ["c"]) == Ok(["c"]) by {
      assert ["c"][1..] == [];
      assert MissingFields(data, []) == Ok([]);
      assert ["c"] + [] == ["c"];
    }
    assert MissingFields(data, ["b", "c"]) == Ok(["b", "c"]) by {
      assert ["b", "c"][1..] == ["c"];
      assert !Truthy(Defined(Num(0.0)));
      assert ["b"] + ["c"] == ["b", "c"];
    }
    assert ["a", "b", "c"][1..] == ["b", "c"];
  }

  /** A value that is not an object has no required field at all. */
  lemma NonObjectMissesAll(data: Json, required: seq<string>)
    requires !data.Obj? && !data.Null?
    ensures MissingFields(data, required) == Ok(required)
    decreases |required|
  {
    if |required| > 0 {
      NonObjectMissesAll(data, required[1..]);
      assert required == [required[0]] + required[1..];
    }
  }
}
