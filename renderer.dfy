/** The value rules of the renderer (dialog/dialog.swift): the configuration
    it decodes, the order it lays fields out in, the values it seeds the form
    with, the object it prints when OK is pressed, the wrap-around move of a
    radio group, and the window it opens. Views, panels and fonts are not
    modelled. */
module Renderer {
  import opened Wrappers
  import opened Json
  import opened FieldBase

  /** A field as the renderer decodes it. Every attribute the Swift struct
      declares optional is an `Option`; `visibleWhen` is not among its coding
      keys and is dropped. */
  datatype RField = RField(
    fieldType: FieldType,
    labelText: string,
    bindingKey: string,
    options: Option<seq<string>>,
    defaultValue: Option<string>,
    filePickerType: Option<string>,
    copy: Option<bool>,
    note: Option<string>,
    order: int)

  datatype Config = Config(
    windowTitle: Option<string>,
    windowWidth: Option<int>,
    windowHeight: Option<int>,
    fields: map<string, RField>,
    okLabel: Option<string>,
    cancelLabel: Option<string>,
    alwaysOnTop: Option<bool>)

  // ---------------------------------------------------------------------
  // sortedFields: the dictionary's values sorted by `order` with `<` as the
  // field's Comparable. The dictionary hands its values out in an order of
  // its own; that order is the `keys` parameter.

  predicate SortedByOrder(s: seq<RField>)
  {
    forall i, j :: 0 <= i < j < |s| ==> s[i].order <= s[j].order
  }

  /** No two fields share an order. */
  predicate DistinctOrders(s: seq<RField>)
  {
    forall i, j :: 0 <= i < j < |s| ==> s[i].order != s[j].order
  }

  function InsertSorted(x: RField, s: seq<RField>): (r: seq<RField>)
    requires SortedByOrder(s)
    ensures SortedByOrder(r)
    ensures multiset(r) == multiset(s) + multiset{x}
  {
    if s == [] || x.order <= s[0].order then
      ConsSorted(x, s);
      [x] + s
    else
      Tail(s);
      var rest := InsertSorted(x, s[1..]);
      InsertBehind(x, s, rest);
      [s[0]] + rest
  }

  /** Putting the head back in front of the tail with `x` inserted. */
  lemma InsertBehind(x: RField, s: seq<RField>, rest: seq<RField>)
    requires s != [] && SortedByOrder(s) && s[0].order < x.order
    requires SortedByOrder(rest) && multiset(rest) == multiset(s[1..]) + multiset{x}
    ensures SortedByOrder([s[0]] + rest)
    ensures multiset([s[0]] + rest) == multiset(s) + multiset{x}
  {
    Tail(s);
    forall k | 0 <= k < |rest| ensures s[0].order <= rest[k].order {
      assert rest[k] in multiset(s[1..]) + multiset{x};
    }
    ConsSorted(s[0], rest);
  }

  lemma ConsSorted(h: RField, s: seq<RField>)
    requires SortedByOrder(s)
    requires forall k :: 0 <= k < |s| ==> h.order <= s[k].order
    ensures SortedByOrder([h] + s)
  {
  }

  /** The fields sorted by order; fields with the same order may come out
      in any relative order (Swift's sort is not stable), so only
      "sorted" and "a permutation" are promised. */
  function SortByOrder(s: seq<RField>): (r: seq<RField>)
    ensures SortedByOrder(r)
    ensures multiset(r) == multiset(s)
  {
    if s == [] then []
    else
      assert s == [s[0]] + s[1..];
      InsertSorted(s[0], SortByOrder(s[1..]))
  }

  /** `keys` lists every key of `m` once: a possible enumeration order of the
      dictionary. */
  predicate Enumerates<V>(m: map<string, V>, keys: seq<string>)
  {
    && (forall i :: 0 <= i < |keys| ==> keys[i] in m)
    && (forall k :: k in m ==> k in keys)
    && (forall i, j :: 0 <= i < j < |keys| ==> keys[i] != keys[j])
  }

  function ValuesIn(m: map<string, RField>, keys: seq<string>): (vs: seq<RField>)
    requires forall i :: 0 <= i < |keys| ==> keys[i] in m
    ensures |vs| == |keys| && forall i :: 0 <= i < |keys| ==> vs[i] == m[keys[i]]
  {
    seq(|keys|, i requires 0 <= i < |keys| => m[keys[i]])
  }

  /** Config.sortedFields, for the enumeration order `keys`. */
  function SortedFields(c: Config, keys: seq<string>): (r: seq<RField>)
    requires Enumerates(c.fields, keys)
    ensures SortedByOrder(r)
    ensures multiset(r) == multiset(ValuesIn(c.fields, keys))
    ensures |r| == |c.fields|
  {
    EnumerationSize(c.fields, keys);
    var vs := ValuesIn(c.fields, keys);
    var r := SortByOrder(vs);
    assert |r| == |multiset(r)| == |multiset(vs)| == |vs|;
    r
  }

  lemma EnumerationSize<V>(m: map<string, V>, keys: seq<string>)
    requires Enumerates(m, keys)
    ensures |keys| == |m|
  {
    var ks := set i | 0 <= i < |keys| :: keys[i];
    assert ks == m.Keys;
    SeqSetSize(keys);
  }

  lemma {:induction false} SeqSetSize(keys: seq<string>)
    requires forall i, j :: 0 <= i < j < |keys| ==> keys[i] != keys[j]
    ensures |set i | 0 <= i < |keys| :: keys[i]| == |keys|
  {
    if keys != [] {
      var init := keys[..|keys| - 1];
      SeqSetSize(init);
      var a := set i | 0 <= i < |init| :: init[i];
      var b := set i | 0 <= i < |keys| :: keys[i];
      assert b == a + {keys[|keys| - 1]};
      assert keys[|keys| - 1] !in a;
    }
  }

  lemma MultisetCancel<T>(a: multiset<T>, b: multiset<T>, x: T)
    requires a + multiset{x} == b + multiset{x}
    ensures a == b
  {
    assert a == (a + multiset{x}) - multiset{x};
    assert b == (b + multiset{x}) - multiset{x};
  }

  /** The smallest order in a sorted sequence is its first one. */
  lemma SortedHeadSmallest(s: seq<RField>, x: RField)
    requires SortedByOrder(s) && x in multiset(s)
    ensures s[0].order <= x.order
  {
    var k :| 0 <= k < |s| && s[k] == x;
  }

  /** With distinct orders there is only one sorted arrangement: two sorted
      permutations of the same fields are equal. So when no two fields share
      an order, the renderer's layout does not depend on how the dictionary
      enumerates its values or on how the sort breaks ties. */
  lemma {:induction false} SortedPermutationUnique(s: seq<RField>, t: seq<RField>)
    requires SortedByOrder(s) && SortedByOrder(t)
    requires multiset(s) == multiset(t)
    requires DistinctOrders(s)
    ensures s == t
    decreases |s|
  {
    assert |s| == |multiset(s)| == |t|;
    if s != [] {
      assert s[0] in multiset(s) && t[0] in multiset(t);
      SortedHeadSmallest(s, t[0]);
      SortedHeadSmallest(t, s[0]);
      OnlyHeadHasHeadOrder(s, t[0]);
      Tail(s);
      Tail(t);
      MultisetCancel(multiset(s[1..]), multiset(t[1..]), s[0]);
      SortedPermutationUnique(s[1..], t[1..]);
      SameHeadAndTail(s, t);
    }
  }

  lemma SameHeadAndTail(s: seq<RField>, t: seq<RField>)
    requires s != [] && t != [] && s[0] == t[0] && s[1..] == t[1..]
    ensures s == t
  {
    assert s == [s[0]] + s[1..];
    assert t == [t[0]] + t[1..];
  }

  /** With distinct orders, the head is the only field with its order. */
  lemma OnlyHeadHasHeadOrder(s: seq<RField>, x: RField)
    requires DistinctOrders(s) && x in multiset(s) && x.order == s[0].order
    ensures x == s[0]
  {
    var k :| 0 <= k < |s| && s[k] == x;
  }

  /** The tail of a non-empty sequence keeps its order facts and holds all
      but the head. */
  lemma Tail(s: seq<RField>)
    requires |s| > 0
    ensures SortedByOrder(s) ==> SortedByOrder(s[1..])
    ensures DistinctOrders(s) ==> DistinctOrders(s[1..])
    ensures multiset(s) == multiset(s[1..]) + multiset{s[0]}
  {
    assert s == [s[0]] + s[1..];
  }

  /** Orders are distinct in any enumeration when they are distinct across
      the dictionary's entries. */
  predicate DistinctOrdersIn(m: map<string, RField>)
  {
    forall k1, k2 :: k1 in m && k2 in m && k1 != k2 ==> m[k1].order != m[k2].order
  }

  /** When the entries' orders are distinct, every enumeration gives the
      same layout. */
  lemma LayoutIndependentOfEnumeration(c: Config, keys1: seq<string>, keys2: seq<string>)
    requires Enumerates(c.fields, keys1) && Enumerates(c.fields, keys2)
    requires DistinctOrdersIn(c.fields)
    ensures SortedFields(c, keys1) == SortedFields(c, keys2)
  {
    var r1 := SortedFields(c, keys1);
    var r2 := SortedFields(c, keys2);
    ValuesPermutation(c.fields, keys1, keys2);
    DistinctOrdersOfPermutation(c.fields, keys1, r1);
    SortedPermutationUnique(r1, r2);
  }

  /** A key occurs once in a list of distinct keys. */
  lemma {:induction false} DistinctMultiplicity(keys: seq<string>, x: string)
    requires forall i, j :: 0 <= i < j < |keys| ==> keys[i] != keys[j]
    ensures multiset(keys)[x] == if x in keys then 1 else 0
  {
    if keys != [] {
      var n := |keys| - 1;
      var init := keys[..n];
      assert keys == init + [keys[n]];
      DistinctMultiplicity(init, x);
      assert x in keys <==> x in init || x == keys[n];
      assert keys[n] !in init;
    }
  }

  /** Two enumerations of one dictionary list the same values. */
  lemma ValuesPermutation(m: map<string, RField>, keys1: seq<string>, keys2: seq<string>)
    requires Enumerates(m, keys1) && Enumerates(m, keys2)
    ensures multiset(ValuesIn(m, keys1)) == multiset(ValuesIn(m, keys2))
  {
    forall x ensures multiset(keys1)[x] == multiset(keys2)[x] {
      DistinctMultiplicity(keys1, x);
      DistinctMultiplicity(keys2, x);
    }
    assert multiset(keys1) == multiset(keys2);
    ValuesInPermutation(m, keys1, keys2);
  }

  lemma ValuesInAppend(m: map<string, RField>, a: seq<string>, b: seq<string>)
    requires forall i :: 0 <= i < |a| ==> a[i] in m
    requires forall i :: 0 <= i < |b| ==> b[i] in m
    ensures ValuesIn(m, a + b) == ValuesIn(m, a) + ValuesIn(m, b)
  {
  }

  /** Removing the element at `j` keeps every element a key of `m`. */
  lemma RemoveAt(m: map<string, RField>, b: seq<string>, j: nat)
    requires j < |b| && forall i :: 0 <= i < |b| ==> b[i] in m
    ensures var b' := b[..j] + b[j + 1..];
            && (forall i :: 0 <= i < |b'| ==> b'[i] in m)
            && multiset(b) == multiset(b') + multiset{b[j]}
            && ValuesIn(m, b) == ValuesIn(m, b[..j]) + [m[b[j]]] + ValuesIn(m, b[j + 1..])
            && ValuesIn(m, b') == ValuesIn(m, b[..j]) + ValuesIn(m, b[j + 1..])
  {
    var p, q := b[..j], b[j + 1..];
    assert b == p + [b[j]] + q;
    RemoveAtKeys(m, p, b[j], q);
    RemoveAtValues(m, p, b[j], q);
  }

  lemma RemoveAtKeys(m: map<string, RField>, p: seq<string>, x: string, q: seq<string>)
    requires forall i :: 0 <= i < |p + [x] + q| ==> (p + [x] + q)[i] in m
    ensures forall i :: 0 <= i < |p| ==> p[i] in m
    ensures forall i :: 0 <= i < |q| ==> q[i] in m
    ensures forall i :: 0 <= i < |p + q| ==> (p + q)[i] in m
    ensures multiset(p + [x] + q) == multiset(p + q) + multiset{x}
  {
    assert forall i :: 0 <= i < |p| ==> p[i] == (p + [x] + q)[i];
    assert forall i :: 0 <= i < |q| ==> q[i] == (p + [x] + q)[|p| + 1 + i];
  }

  lemma RemoveAtValues(m: map<string, RField>, p: seq<string>, x: string, q: seq<string>)
    requires x in m
    requires forall i :: 0 <= i < |p| ==> p[i] in m
    requires forall i :: 0 <= i < |q| ==> q[i] in m
    ensures ValuesIn(m, p + [x] + q) == ValuesIn(m, p) + [m[x]] + ValuesIn(m, q)
    ensures ValuesIn(m, p + q) == ValuesIn(m, p) + ValuesIn(m, q)
  {
    ValuesInAppend(m, p + [x], q);
    ValuesInAppend(m, p, [x]);
    ValuesInAppend(m, p, q);
  }

  /** Looking up a permutation of keys gives a permutation of values. */
  lemma {:induction false} ValuesInPermutation(m: map<string, RField>, a: seq<string>, b: seq<string>)
    requires forall i :: 0 <= i < |a| ==> a[i] in m
    requires forall i :: 0 <= i < |b| ==> b[i] in m
    requires multiset(a) == multiset(b)
    ensures multiset(ValuesIn(m, a)) == multiset(ValuesIn(m, b))
    decreases |a|
  {
    assert |a| == |multiset(a)| == |b|;
    if a != [] {
      var n := |a| - 1;
      var x := a[n];
      assert x in multiset(b);
      var j :| 0 <= j < |b| && b[j] == x;
      var b' := b[..j] + b[j + 1..];
      PermutationStep(m, a, b, j);
      ValuesInPermutation(m, a[..n], b');
      RemoveAt(m, b, j);
      DropLast(m, a);
      MultisetShuffle(ValuesIn(m, a), ValuesIn(m, a[..n]), ValuesIn(m, b), ValuesIn(m, b'),
                      ValuesIn(m, b[..j]), ValuesIn(m, b[j + 1..]), m[x]);
    }
  }

  lemma DropLast(m: map<string, RField>, a: seq<string>)
    requires a != [] && forall i :: 0 <= i < |a| ==> a[i] in m
    ensures ValuesIn(m, a) == ValuesIn(m, a[..|a| - 1]) + [m[a[|a| - 1]]]
  {
  }

  /** Taking the last key of `a` out of both lists keeps them permutations
      of each other. */
  lemma PermutationStep(m: map<string, RField>, a: seq<string>, b: seq<string>, j: nat)
    requires forall i :: 0 <= i < |a| ==> a[i] in m
    requires forall i :: 0 <= i < |b| ==> b[i] in m
    requires multiset(a) == multiset(b) && a != [] && j < |b| && b[j] == a[|a| - 1]
    ensures var b' := b[..j] + b[j + 1..];
            (forall i :: 0 <= i < |b'| ==> b'[i] in m) && multiset(a[..|a| - 1]) == multiset(b')
  {
    var n := |a| - 1;
    var b' := b[..j] + b[j + 1..];
    RemoveAt(m, b, j);
    assert a == a[..n] + [a[n]];
    assert multiset(a) == multiset(a[..n]) + multiset{a[n]};
    MultisetCancel(multiset(a[..n]), multiset(b'), a[n]);
  }

  lemma MultisetShuffle(va: seq<RField>, va': seq<RField>, vb: seq<RField>, vb': seq<RField>,
                        p: seq<RField>, q: seq<RField>, y: RField)
    requires va == va' + [y] && vb == p + [y] + q && vb' == p + q
    requires multiset(va') == multiset(vb')
    ensures multiset(va) == multiset(vb)
  {
  }

  /** A sequence holding the values of a dictionary with distinct orders has
      distinct orders. */
  lemma DistinctOrdersOfPermutation(m: map<string, RField>, keys: seq<string>, r: seq<RField>)
    requires Enumerates(m, keys) && DistinctOrdersIn(m)
    requires multiset(r) == multiset(ValuesIn(m, keys))
    ensures DistinctOrders(r)
  {
    var vs := ValuesIn(m, keys);
    forall i, j | 0 <= i < j < |r| ensures r[i].order != r[j].order {
      assert r[i] in multiset(vs) && r[j] in multiset(vs);
      var a :| 0 <= a < |vs| && vs[a] == r[i];
      var b :| 0 <= b < |vs| && vs[b] == r[j];
      if a == b {
        // The same value appears twice in r but once in vs.
        Twice(r, i, j);
        ValueOnce(m, keys, a);
        assert false;
      }
    }
  }

  lemma Twice(r: seq<RField>, i: nat, j: nat)
    requires i < j < |r| && r[i] == r[j]
    ensures multiset(r)[r[i]] >= 2
  {
    assert r == r[..i] + [r[i]] + r[i + 1..j] + [r[j]] + r[j + 1..];
  }

  /** A value of a dictionary with distinct orders occurs once in an
      enumeration. */
  lemma ValueOnce(m: map<string, RField>, keys: seq<string>, a: nat)
    requires Enumerates(m, keys) && DistinctOrdersIn(m) && a < |keys|
    ensures multiset(ValuesIn(m, keys))[m[keys[a]]] == 1
  {
    var vs := ValuesIn(m, keys);
    assert vs == vs[..a] + [vs[a]] + vs[a + 1..];
    assert vs[a] !in vs[..a] by {
      forall i | 0 <= i < a ensures vs[i] != vs[a] { assert m[keys[i]].order != m[keys[a]].order; }
    }
    assert vs[a] !in vs[a + 1..] by {
      forall i | a < i < |vs| ensures vs[i] != vs[a] { assert m[keys[i]].order != m[keys[a]].order; }
    }
  }

  // ---------------------------------------------------------------------
  // Seeding the form (DynamicDialogView.init): a field with a default gets
  // an initial value; a checkbox's default becomes a boolean.

  function LowerAscii(c: char): char
  {
    if 'A' <= c <= 'Z' then (c as int + 32) as char else c
  }

  /** `lowercased()` restricted to ASCII: no character outside ASCII
      lower-cases to one of t, r, u, e, so this mapping decides every
      comparison with "true". */
  function Lowercased(s: string): (r: string)
    ensures |r| == |s| && forall i :: 0 <= i < |s| ==> r[i] == LowerAscii(s[i])
  {
    seq(|s|, i requires 0 <= i < |s| => LowerAscii(s[i]))
  }

  /** `s.lowercased() == "true"`. */
  predicate LowersToTrue(s: string)
  {
    Lowercased(s) == "true"
  }

  /** A checkbox default means true exactly when it is "true" spelled in
      any mix of upper and lower case. */
  lemma LowersToTrueSpelled(s: string)
    ensures LowersToTrue(s) <==>
      |s| == 4 && forall i :: 0 <= i < 4 ==> s[i] == "true"[i] || s[i] == "TRUE"[i]
  {
    if |s| == 4 {
      var l := Lowercased(s);
      if LowersToTrue(s) {
        forall i | 0 <= i < 4 ensures s[i] == "true"[i] || s[i] == "TRUE"[i] {
          assert LowerAscii(s[i]) == "true"[i];
        }
      }
      if forall i :: 0 <= i < 4 ==> s[i] == "true"[i] || s[i] == "TRUE"[i] {
        assert forall i :: 0 <= i < 4 ==> l[i] == "true"[i];
      }
    }
  }

  /** The initial value one field contributes, if any. */
  function Seed(f: RField): (v: Option<Value>)
    ensures v.Some? <==> f.defaultValue.Some?
    ensures v.Some? && f.fieldType == CheckBox ==> v.value == Bool(LowersToTrue(f.defaultValue.value))
    ensures v.Some? && f.fieldType != CheckBox ==> v.value == Str(f.defaultValue.value)
  {
    match f.defaultValue
    case None => None
    case Some(d) => if f.fieldType == CheckBox then Some(Bool(LowersToTrue(d))) else Some(Str(d))
  }

  /** The initial values after the fields were visited first to last. */
  function SeedAll(fields: seq<RField>): map<string, Value>
    decreases |fields|
  {
    if fields == [] then map[]
    else
      var m := SeedAll(fields[..|fields| - 1]);
      var f := fields[|fields| - 1];
      match Seed(f)
      case None => m
      case Some(v) => m[f.bindingKey := v]
  }

  /** DynamicDialogView.init's loop filling `initialValues`. */
  method InitialValues(fields: seq<RField>) returns (values: map<string, Value>)
    ensures values == SeedAll(fields)
  {
    values := map[];
    for i := 0 to |fields|
      invariant values == SeedAll(fields[..i])
    {
      assert fields[..i + 1][..i] == fields[..i];
      var field := fields[i];
      match field.defaultValue {
        case Some(d) =>
          if field.fieldType == CheckBox {
            values := values[field.bindingKey := Bool(LowersToTrue(d))];
          } else {
            values := values[field.bindingKey := Str(d)];
          }
        case None =>
      }
    }
    assert fields[..|fields|] == fields;
  }

  /** A key holds an initial value exactly when some field bound to it has a
      default. */
  lemma {:induction false} SeedAllKeys(fields: seq<RField>, k: string)
    ensures k in SeedAll(fields) <==>
            exists i :: 0 <= i < |fields| && fields[i].bindingKey == k && fields[i].defaultValue.Some?
    decreases |fields|
  {
    if fields != [] {
      var n := |fields| - 1;
      SeedAllKeys(fields[..n], k);
      if exists i :: 0 <= i < |fields| && fields[i].bindingKey == k && fields[i].defaultValue.Some? {
        var i :| 0 <= i < |fields| && fields[i].bindingKey == k && fields[i].defaultValue.Some?;
        if i < n { assert fields[..n][i] == fields[i]; }
      }
    }
  }

  /** No two fields share a binding key. */
  predicate DistinctKeys(fields: seq<RField>)
  {
    forall i, j :: 0 <= i < j < |fields| ==> fields[i].bindingKey != fields[j].bindingKey
  }

  /** With distinct keys, a field's initial value is its own default: a
      checkbox gets true exactly when its default lower-cases to "true",
      every other type keeps the string. */
  lemma {:induction false} SeedAllAt(fields: seq<RField>, i: nat)
    requires DistinctKeys(fields) && i < |fields| && fields[i].defaultValue.Some?
    ensures fields[i].bindingKey in SeedAll(fields)
    ensures SeedAll(fields)[fields[i].bindingKey] == Seed(fields[i]).value
    decreases |fields|
  {
    var n := |fields| - 1;
    if i < n {
      assert fields[..n][i] == fields[i];
      SeedAllAt(fields[..n], i);
    }
  }

  // ---------------------------------------------------------------------
  // The OK button: one output entry per field, with a fallback per type.

  /** `values[k] as? String`. */
  function StringAt(values: map<string, Value>, k: string): Option<string>
  {
    if k in values && values[k].Str? then Some(values[k].s) else None
  }

  /** `values[k] as? Bool`. */
  function BoolAt(values: map<string, Value>, k: string): Option<bool>
  {
    if k in values && values[k].Bool? then Some(values[k].b) else None
  }

  /** A choice field that the renderer shows and reports: it has at least one
      option. */
  predicate HasChoices(f: RField)
  {
    f.options.Some? && f.options.value != []
  }

  /** What the OK button writes for one field, or None when it writes
      nothing for it. */
  function OutputValue(f: RField, values: map<string, Value>): (v: Option<Value>)
    ensures v.None? <==> (f.fieldType == Dropdown || f.fieldType == Segmented) && !HasChoices(f)
    ensures f.fieldType in {Text, TextEditor, FilePicker} ==>
              v == Some(Str(StringAt(values, f.bindingKey).GetOr("")))
    ensures f.fieldType == CheckBox ==> v == Some(Bool(BoolAt(values, f.bindingKey).GetOr(false)))
    ensures (f.fieldType == Dropdown || f.fieldType == Segmented) && HasChoices(f) ==>
              v == Some(Str(StringAt(values, f.bindingKey).GetOr(f.options.value[0])))
  {
    match f.fieldType
    case Text => Some(Str(StringAt(values, f.bindingKey).GetOr("")))
    case TextEditor => Some(Str(StringAt(values, f.bindingKey).GetOr("")))
    case FilePicker => Some(Str(StringAt(values, f.bindingKey).GetOr("")))
    case CheckBox => Some(Bool(BoolAt(values, f.bindingKey).GetOr(false)))
    case Dropdown =>
      if HasChoices(f) then Some(Str(StringAt(values, f.bindingKey).GetOr(f.options.value[0]))) else None
    case Segmented =>
      if HasChoices(f) then Some(Str(StringAt(values, f.bindingKey).GetOr(f.options.value[0]))) else None
  }

  /** The output object after the fields were visited first to last. */
  function OutputAll(fields: seq<RField>, values: map<string, Value>): map<string, Value>
    decreases |fields|
  {
    if fields == [] then map[]
    else
      var m := OutputAll(fields[..|fields| - 1], values);
      var f := fields[|fields| - 1];
      match OutputValue(f, values)
      case None => m
      case Some(v) => m[f.bindingKey := v]
  }

  /** The OK button's loop building `output`. */
  method BuildOutput(fields: seq<RField>, values: map<string, Value>) returns (output: map<string, Value>)
    ensures output == OutputAll(fields, values)
  {
    output := map[];
    for i := 0 to |fields|
      invariant output == OutputAll(fields[..i], values)
    {
      assert fields[..i + 1][..i] == fields[..i];
      var field := fields[i];
      var key := field.bindingKey;
      match field.fieldType {
        case Text =>
          output := output[key := Str(StringAt(values, key).GetOr(""))];
        case TextEditor =>
          output := output[key := Str(StringAt(values, key).GetOr(""))];
        case FilePicker =>
          output := output[key := Str(StringAt(values, key).GetOr(""))];
        case CheckBox =>
          output := output[key := Bool(BoolAt(values, key).GetOr(false))];
        case Dropdown =>
          if field.options.Some? && field.options.value != [] {
            output := output[key := Str(StringAt(values, key).GetOr(field.options.value[0]))];
          }
        case Segmented =>
          if field.options.Some? && field.options.value != [] {
            output := output[key := Str(StringAt(values, key).GetOr(field.options.value[0]))];
          }
      }
    }
    assert fields[..|fields|] == fields;
  }

  /** A key is in the output exactly when a field bound to it is reported;
      a choice field without options leaves its key out altogether. */
  lemma {:induction false} OutputAllKeys(fields: seq<RField>, values: map<string, Value>, k: string)
    ensures k in OutputAll(fields, values) <==>
            exists i :: 0 <= i < |fields| && fields[i].bindingKey == k && OutputValue(fields[i], values).Some?
    decreases |fields|
  {
    if fields != [] {
      var n := |fields| - 1;
      OutputAllKeys(fields[..n], values, k);
      if exists i :: 0 <= i < |fields| && fields[i].bindingKey == k && OutputValue(fields[i], values).Some? {
        var i :| 0 <= i < |fields| && fields[i].bindingKey == k && OutputValue(fields[i], values).Some?;
        if i < n { assert fields[..n][i] == fields[i]; }
      }
    }
  }

  /** With distinct keys, each reported field's entry is its own value. */
  lemma {:induction false} OutputAllAt(fields: seq<RField>, values: map<string, Value>, i: nat)
    requires DistinctKeys(fields) && i < |fields| && OutputValue(fields[i], values).Some?
    ensures fields[i].bindingKey in OutputAll(fields, values)
    ensures OutputAll(fields, values)[fields[i].bindingKey] == OutputValue(fields[i], values).value
    decreases |fields|
  {
    var n := |fields| - 1;
    if i < n {
      assert fields[..n][i] == fields[i];
      OutputAllAt(fields[..n], values, i);
    }
  }

  /** Pressing OK on an untouched form reports the defaults: a text-like or
      choice field reports its default string, a checkbox whether its
      default reads "true", and a field without a default its fallback. */
  lemma OkReportsDefaults(fields: seq<RField>, i: nat)
    requires DistinctKeys(fields) && i < |fields|
    requires OutputValue(fields[i], SeedAll(fields)).Some?
    ensures var out := OutputAll(fields, SeedAll(fields));
            var f := fields[i];
            && f.bindingKey in out
            && (f.defaultValue.Some? && f.fieldType != CheckBox ==> out[f.bindingKey] == Str(f.defaultValue.value))
            && (f.defaultValue.Some? && f.fieldType == CheckBox ==>
                  out[f.bindingKey] == Bool(LowersToTrue(f.defaultValue.value)))
            && (f.defaultValue.None? && f.fieldType in {Text, TextEditor, FilePicker} ==> out[f.bindingKey] == Str(""))
            && (f.defaultValue.None? && f.fieldType == CheckBox ==> out[f.bindingKey] == Bool(false))
  {
    var f := fields[i];
    OutputAllAt(fields, SeedAll(fields), i);
    if f.defaultValue.Some? {
      SeedAllAt(fields, i);
    } else {
      assert forall j :: 0 <= j < |fields| && j != i ==> fields[j].bindingKey != f.bindingKey;
      SeedAllKeys(fields, f.bindingKey);
    }
  }

  // ---------------------------------------------------------------------
  // FlowRadioGroup's arrow keys: move the selection one option back or
  // forward, wrapping around at both ends.

  datatype MoveDirection = Left | Up | Right | Down | Other

  /** `options.firstIndex(of: x)`. */
  function FirstIndex(options: seq<string>, x: string): (r: Option<nat>)
    ensures r.Some? ==> r.value < |options| && options[r.value] == x
                        && forall j :: 0 <= j < r.value ==> options[j] != x
    ensures r.None? ==> x !in options
  {
    if options == [] then None
    else if options[0] == x then Some(0)
    else match FirstIndex(options[1..], x)
      case None => None
      case Some(j) => Some(j + 1)
  }

  /** The index a move goes to from `i` among `n` options. */
  function MovedIndex(i: nat, n: nat, d: MoveDirection): (j: nat)
    requires i < n
    ensures j < n
    ensures (d == Left || d == Up) ==> j == (if i == 0 then n - 1 else i - 1)
    ensures (d == Right || d == Down) ==> j == (if i == n - 1 then 0 else i + 1)
    ensures d == Other ==> j == i
  {
    match d
    case Left => ModBack(i, n); (i - 1 + n) % n
    case Up => ModBack(i, n); (i - 1 + n) % n
    case Right => ModForward(i, n); (i + 1) % n
    case Down => ModForward(i, n); (i + 1) % n
    case Other => i
  }

  lemma ModSmall(x: int, n: int)
    requires 0 <= x < n
    ensures x % n == x
  {
  }

  lemma ModBack(i: nat, n: nat)
    requires i < n
    ensures (i - 1 + n) % n == if i == 0 then n - 1 else i - 1
  {
    if i == 0 {
      ModSmall(n - 1, n);
    } else {
      assert (i - 1 + n) / n == 1;
    }
  }

  lemma ModForward(i: nat, n: nat)
    requires i < n
    ensures (i + 1) % n == if i == n - 1 then 0 else i + 1
  {
    if i == n - 1 {
      assert n / n == 1;
    } else {
      ModSmall(i + 1, n);
    }
  }

  /** The selection after a move: unchanged when it is not one of the
      options or the key is not an arrow; otherwise the option before or
      after its first occurrence, wrapping around at either end. */
  function MoveSelection(options: seq<string>, selection: string, d: MoveDirection): (r: string)
    ensures selection !in options || d == Other ==> r == selection
    ensures selection in options ==> r in options
    ensures forall i :: 0 <= i < |options| && options[i] == selection && selection !in options[..i] ==>
      && ((d == Left || d == Up) ==> r == options[if i == 0 then |options| - 1 else i - 1])
      && ((d == Right || d == Down) ==> r == options[if i == |options| - 1 then 0 else i + 1])
  {
    FirstOccurrence(options, selection);
    match FirstIndex(options, selection)
    case None => selection
    case Some(i) => options[MovedIndex(i, |options|, d)]
  }

  /** FirstIndex finds the only first occurrence there is. */
  lemma FirstOccurrence(options: seq<string>, x: string)
    ensures forall i :: 0 <= i < |options| && options[i] == x && x !in options[..i] ==>
      FirstIndex(options, x) == Some(i)
  {
    forall i | 0 <= i < |options| && options[i] == x && x !in options[..i]
      ensures FirstIndex(options, x) == Some(i)
    {
      assert x in options;
    }
  }

  predicate DistinctOptions(options: seq<string>)
  {
    forall i, j :: 0 <= i < j < |options| ==> options[i] != options[j]
  }

  lemma FirstIndexOfDistinct(options: seq<string>, i: nat)
    requires DistinctOptions(options) && i < |options|
    ensures FirstIndex(options, options[i]) == Some(i)
  {
    var r := FirstIndex(options, options[i]);
    assert forall j :: 0 <= j < |options| && j != i ==> options[j] != options[i];
  }

  /** Forward then back returns to the same option, when the options are
      distinct. */
  lemma MoveForwardBack(options: seq<string>, selection: string, fwd: MoveDirection, back: MoveDirection)
    requires DistinctOptions(options) && selection in options
    requires fwd == Right || fwd == Down
    requires back == Left || back == Up
    ensures MoveSelection(options, MoveSelection(options, selection, fwd), back) == selection
    ensures MoveSelection(options, MoveSelection(options, selection, back), fwd) == selection
  {
    MoveUndone(options, selection, fwd, back);
    MoveUndone(options, selection, back, fwd);
  }

  /** A move followed by the opposite move, for distinct options. */
  lemma MoveUndone(options: seq<string>, selection: string, d: MoveDirection, undo: MoveDirection)
    requires DistinctOptions(options) && selection in options
    requires ((d == Right || d == Down) && (undo == Left || undo == Up))
          || ((d == Left || d == Up) && (undo == Right || undo == Down))
    ensures MoveSelection(options, MoveSelection(options, selection, d), undo) == selection
  {
    var i := FirstIndex(options, selection).value;
    var j := MovedIndex(i, |options|, d);
    FirstIndexOfDistinct(options, j);
    assert MovedIndex(j, |options|, undo) == i;
  }

  // ---------------------------------------------------------------------
  // The window: its estimated height and the labels' fallbacks.

  /** Rows a field takes: a text editor 130, any other field 40, plus 20 for
      a non-empty note. */
  function FieldHeight(f: RField): (h: nat)
    ensures 40 <= h <= 150
    ensures f.fieldType == TextEditor ==> 130 <= h
  {
    (if f.fieldType == TextEditor then 130 else 40) + (if f.note.Some? && f.note.value != "" then 20 else 0)
  }

  function HeightOf(fields: seq<RField>): nat
  {
    if fields == [] then 0 else HeightOf(fields[..|fields| - 1]) + FieldHeight(fields[|fields| - 1])
  }

  /** The loop accumulating `calculatedHeight`: 80 for padding and buttons
      plus each field's rows. */
  method EstimateHeight(fields: seq<RField>) returns (h: int)
    ensures h == 80 + HeightOf(fields)
    ensures 80 + 40 * |fields| <= h <= 80 + 150 * |fields|
  {
    h := 80;
    for i := 0 to |fields|
      invariant h == 80 + HeightOf(fields[..i])
      invariant 80 + 40 * i <= h <= 80 + 150 * i
    {
      assert fields[..i + 1][..i] == fields[..i];
      var field := fields[i];
      if field.fieldType == TextEditor {
        h := h + 130;
      } else {
        h := h + 40;
      }
      if field.note.Some? && field.note.value != "" {
        h := h + 20;
      }
    }
    assert fields[..|fields|] == fields;
  }

  /** The estimate does not depend on the order the fields are visited in. */
  lemma {:induction false} HeightOfPermutation(s: seq<RField>, t: seq<RField>)
    requires multiset(s) == multiset(t)
    ensures HeightOf(s) == HeightOf(t)
    decreases |s|
  {
    assert |s| == |multiset(s)| == |t|;
    if s != [] {
      var x := s[|s| - 1];
      assert x in multiset(t);
      var j :| 0 <= j < |t| && t[j] == x;
      var t' := t[..j] + t[j + 1..];
      assert t == t[..j] + [x] + t[j + 1..];
      assert s == s[..|s| - 1] + [x];
      assert multiset(s) == multiset(s[..|s| - 1]) + multiset{x};
      assert multiset(t) == multiset(t[..j]) + multiset{x} + multiset(t[j + 1..]);
      assert multiset(t') == multiset(t[..j]) + multiset(t[j + 1..]);
      MultisetCancel(multiset(s[..|s| - 1]), multiset(t'), x);
      HeightOfPermutation(s[..|s| - 1], t');
      HeightOfSplit(t[..j], x, t[j + 1..]);
    }
  }

  lemma {:induction false} HeightOfAppend(a: seq<RField>, b: seq<RField>)
    ensures HeightOf(a + b) == HeightOf(a) + HeightOf(b)
    decreases |b|
  {
    if b == [] {
      assert a + b == a;
    } else {
      assert (a + b)[..|a + b| - 1] == a + b[..|b| - 1];
      HeightOfAppend(a, b[..|b| - 1]);
    }
  }

  lemma HeightOfSplit(a: seq<RField>, x: RField, b: seq<RField>)
    ensures HeightOf(a + [x] + b) == HeightOf(a + b) + FieldHeight(x)
  {
    HeightOfAppend(a + [x], b);
    HeightOfAppend(a, [x]);
    HeightOfAppend(a, b);
    assert [x][..0] == [];
  }

  /** What the window is opened with. The width comes from measured label
      widths and is not modelled. */
  datatype WindowSetup = WindowSetup(title: string, height: int, okLabel: string, cancelLabel: string, floating: bool)

  /** The configured height if any, otherwise the estimate raised to at
      least 300; labels and title fall back to English defaults. */
  function Setup(c: Config, estimate: int): (w: WindowSetup)
    ensures c.windowHeight.Some? ==> w.height == c.windowHeight.value
    ensures c.windowHeight.None? ==> w.height >= 300 && w.height >= estimate
                                      && (w.height == 300 || w.height == estimate)
    ensures w.okLabel == (if c.okLabel.Some? then c.okLabel.value else "OK")
    ensures w.cancelLabel == (if c.cancelLabel.Some? then c.cancelLabel.value else "Cancel")
    ensures w.title == (if c.windowTitle.Some? then c.windowTitle.value else "Dialog")
    ensures w.floating <==> c.alwaysOnTop == Some(true)
  {
    WindowSetup(c.windowTitle.GetOr("Dialog"),
                c.windowHeight.GetOr(if estimate > 300 then estimate else 300),
                c.okLabel.GetOr("OK"),
                c.cancelLabel.GetOr("Cancel"),
                c.alwaysOnTop == Some(true))
  }
}
