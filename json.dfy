/** The JSON documents exchanged with the renderer, as values. Numbers are
    integers only: every number on this wire is a Go `int`. */
module Json {
  import opened Wrappers

  datatype Value =
    | Null
    | Bool(b: bool)
    | Int(i: int)
    | Str(s: string)
    | Arr(items: seq<Value>)
    | Obj(members: map<string, Value>)

  /** A JSON array of strings. */
  function StrArray(xs: seq<string>): (v: Value)
    ensures v.Arr? && |v.items| == |xs|
    ensures forall i :: 0 <= i < |xs| ==> v.items[i] == Str(xs[i])
  {
    Arr(seq(|xs|, i requires 0 <= i < |xs| => Str(xs[i])))
  }

  /** The strings of a JSON array whose every item is a string, or None. */
  function AsStrings(items: seq<Value>): (r: Option<seq<string>>)
    ensures r.Some? <==> forall i :: 0 <= i < |items| ==> items[i].Str?
    ensures r.Some? ==> |r.value| == |items|
    ensures r.Some? ==> forall i :: 0 <= i < |items| ==> items[i] == Str(r.value[i])
  {
    if forall i :: 0 <= i < |items| ==> items[i].Str?
    then Some(seq(|items|, i requires 0 <= i < |items| => items[i].s))
    else None
  }

  lemma AsStringsOfStrArray(xs: seq<string>)
    ensures AsStrings(StrArray(xs).items) == Some(xs)
  {
    var r := AsStrings(StrArray(xs).items);
    assert r.value == xs;
  }
}
