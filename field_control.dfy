/** Building fields from option lists (dialog/field/control.go). Each option
    sets one attribute; `NewField` applies the options in order, so for every
    attribute the last option that sets it decides its value. The `New*Field`
    constructors append their positional arguments after the caller's
    options, so those always win. */
module FieldControl {
  import opened Wrappers
  import opened FieldBase

  /** The `With*` options of a field. */
  datatype FieldOption =
    | WithLabel(labelText: string)
    | WithBindingKey(bindingKey: string)
    | WithDefaultValue(defaultValue: string)
    | WithCopy(copy: bool)
    | WithFilePickerType(kind: FilePickerKind)
    | WithOptions(choices: seq<string>)
    | WithNote(note: string)
    | WithOrder(order: int)

  /** The attributes an option can set. The control type and the visibility
      rule are set by no option. */
  datatype Attribute =
    | LabelAttr | KeyAttr | DefaultAttr | CopyAttr | PickerAttr | OptionsAttr | NoteAttr | OrderAttr

  function AttributeOf(o: FieldOption): Attribute
  {
    match o
    case WithLabel(_) => LabelAttr
    case WithBindingKey(_) => KeyAttr
    case WithDefaultValue(_) => DefaultAttr
    case WithCopy(_) => CopyAttr
    case WithFilePickerType(_) => PickerAttr
    case WithOptions(_) => OptionsAttr
    case WithNote(_) => NoteAttr
    case WithOrder(_) => OrderAttr
  }

  /** `f` and `g` agree on everything except, possibly, attribute `a`. */
  predicate SameExcept(f: Field, g: Field, a: Attribute)
  {
    && f.fieldType == g.fieldType
    && f.visibleWhen == g.visibleWhen
    && (a == LabelAttr || f.labelText == g.labelText)
    && (a == KeyAttr || f.bindingKey == g.bindingKey)
    && (a == DefaultAttr || f.defaultValue == g.defaultValue)
    && (a == CopyAttr || f.copy == g.copy)
    && (a == PickerAttr || f.filePickerType == g.filePickerType)
    && (a == OptionsAttr || f.options == g.options)
    && (a == NoteAttr || f.note == g.note)
    && (a == OrderAttr || f.order == g.order)
  }

  /** `g` holds the value that option `o` sets. */
  predicate Carries(g: Field, o: FieldOption)
  {
    match o
    case WithLabel(x) => g.labelText == x
    case WithBindingKey(x) => g.bindingKey == x
    case WithDefaultValue(x) => g.defaultValue == x
    case WithCopy(x) => g.copy == x
    case WithFilePickerType(x) => g.filePickerType == Some(x)
    case WithOptions(x) => g.options == x
    case WithNote(x) => g.note == x
    case WithOrder(x) => g.order == x
  }

  /** What one option's closure does to the field it is given: it sets its
      own attribute and changes nothing else. */
  function Apply(f: Field, o: FieldOption): (g: Field)
    ensures SameExcept(f, g, AttributeOf(o))
    ensures Carries(g, o)
  {
    match o
    case WithLabel(x) => f.(labelText := x)
    case WithBindingKey(x) => f.(bindingKey := x)
    case WithDefaultValue(x) => f.(defaultValue := x)
    case WithCopy(x) => f.(copy := x)
    case WithFilePickerType(x) => f.(filePickerType := Some(x))
    case WithOptions(x) => f.(options := x)
    case WithNote(x) => f.(note := x)
    case WithOrder(x) => f.(order := x)
  }

  /** The options applied one after another, first to last. */
  function ApplyAll(f: Field, opts: seq<FieldOption>): Field
    decreases |opts|
  {
    if opts == [] then f else ApplyAll(Apply(f, opts[0]), opts[1..])
  }

  lemma {:induction false} ApplyAllAppend(f: Field, a: seq<FieldOption>, b: seq<FieldOption>)
    ensures ApplyAll(f, a + b) == ApplyAll(ApplyAll(f, a), b)
    decreases |a|
  {
    if a == [] {
      assert a + b == b;
    } else {
      assert (a + b)[0] == a[0];
      assert (a + b)[1..] == a[1..] + b;
      ApplyAllAppend(Apply(f, a[0]), a[1..], b);
    }
  }

  /** The field `NewField` starts from: the type and Go's zero values. */
  function Zero(t: FieldType): Field
  {
    Field(t, "", "", "", false, None, [], "", 0, None)
  }

  // An independent reading of "later options win": for each attribute, the
  // value of the last option that sets it, found by scanning from the end.

  function LastSet<T>(opts: seq<FieldOption>, sel: FieldOption -> Option<T>, otherwise: T): T
    decreases |opts|
  {
    if opts == [] then otherwise
    else match sel(opts[|opts| - 1])
      case Some(v) => v
      case None => LastSet(opts[..|opts| - 1], sel, otherwise)
  }

  function LabelSet(o: FieldOption): Option<string> { if o.WithLabel? then Some(o.labelText) else None }
  function KeySet(o: FieldOption): Option<string> { if o.WithBindingKey? then Some(o.bindingKey) else None }
  function DefaultSet(o: FieldOption): Option<string> { if o.WithDefaultValue? then Some(o.defaultValue) else None }
  function CopySet(o: FieldOption): Option<bool> { if o.WithCopy? then Some(o.copy) else None }
  function PickerSet(o: FieldOption): Option<Option<FilePickerKind>> { if o.WithFilePickerType? then Some(Some(o.kind)) else None }
  function OptionsSet(o: FieldOption): Option<seq<string>> { if o.WithOptions? then Some(o.choices) else None }
  function NoteSet(o: FieldOption): Option<string> { if o.WithNote? then Some(o.note) else None }
  function OrderSet(o: FieldOption): Option<int> { if o.WithOrder? then Some(o.order) else None }

  /** Each attribute of `f` replaced by the last value `opts` gives it. */
  function LastWrites(f: Field, opts: seq<FieldOption>): Field
  {
    Field(f.fieldType,
          LastSet(opts, LabelSet, f.labelText),
          LastSet(opts, KeySet, f.bindingKey),
          LastSet(opts, DefaultSet, f.defaultValue),
          LastSet(opts, CopySet, f.copy),
          LastSet(opts, PickerSet, f.filePickerType),
          LastSet(opts, OptionsSet, f.options),
          LastSet(opts, NoteSet, f.note),
          LastSet(opts, OrderSet, f.order),
          f.visibleWhen)
  }

  /** Applying options in order is the same as giving every attribute the
      value of the last option that sets it. */
  lemma {:induction false} ApplyAllIsLastWrites(f: Field, opts: seq<FieldOption>)
    ensures ApplyAll(f, opts) == LastWrites(f, opts)
    decreases |opts|
  {
    if opts != [] {
      var n := |opts| - 1;
      var init, o := opts[..n], opts[n];
      assert opts == init + [o];
      ApplyAllAppend(f, init, [o]);
      ApplyAllIsLastWrites(f, init);
      assert ApplyAll(LastWrites(f, init), [o]) == Apply(LastWrites(f, init), o);
    }
  }

  /** An attribute that no option sets keeps the value it started with. */
  lemma {:induction false} LastSetUnset<T>(opts: seq<FieldOption>, sel: FieldOption -> Option<T>, otherwise: T)
    requires forall i :: 0 <= i < |opts| ==> sel(opts[i]).None?
    ensures LastSet(opts, sel, otherwise) == otherwise
    decreases |opts|
  {
    if opts != [] {
      LastSetUnset(opts[..|opts| - 1], sel, otherwise);
    }
  }

  /** An option that no later option overrides decides its attribute. */
  lemma {:induction false} LastSetWins<T>(pre: seq<FieldOption>, o: FieldOption, post: seq<FieldOption>,
                                          sel: FieldOption -> Option<T>, otherwise: T)
    requires sel(o).Some?
    requires forall i :: 0 <= i < |post| ==> sel(post[i]).None?
    ensures LastSet(pre + [o] + post, sel, otherwise) == sel(o).value
    decreases |post|
  {
    var opts := pre + [o] + post;
    if post == [] {
      assert opts[|opts| - 1] == o;
    } else {
      assert opts[|opts| - 1] == post[|post| - 1];
      assert opts[..|opts| - 1] == pre + [o] + post[..|post| - 1];
      LastSetWins(pre, o, post[..|post| - 1], sel, otherwise);
    }
  }

  /** NewField: start from the zero field of type `t` and run every option on
      it in argument order. */
  method NewField(t: FieldType, opts: seq<FieldOption>) returns (f: Field)
    ensures f == LastWrites(Zero(t), opts)
    ensures f == ApplyAll(Zero(t), opts)
  {
    f := Zero(t);
    for i := 0 to |opts|
      invariant f == ApplyAll(Zero(t), opts[..i])
    {
      ApplyAllAppend(Zero(t), opts[..i], [opts[i]]);
      assert opts[..i + 1] == opts[..i] + [opts[i]];
      f := Apply(f, opts[i]);
    }
    assert opts[..|opts|] == opts;
    ApplyAllIsLastWrites(Zero(t), opts);
  }

  /** The caller's options followed by two positional ones. */
  lemma AppendTwo(t: FieldType, opts: seq<FieldOption>, a: FieldOption, b: FieldOption)
    ensures ApplyAll(Zero(t), opts + [a, b]) == Apply(Apply(ApplyAll(Zero(t), opts), a), b)
  {
    var x := ApplyAll(Zero(t), opts);
    ApplyAllAppend(Zero(t), opts, [a, b]);
    assert [a, b][1..] == [b];
    assert [b][1..] == [];
    assert ApplyAll(x, [a, b]) == ApplyAll(Apply(x, a), [b]);
    assert ApplyAll(Apply(x, a), [b]) == ApplyAll(Apply(Apply(x, a), b), []);
  }

  lemma AppendThree(t: FieldType, opts: seq<FieldOption>, a: FieldOption, b: FieldOption, c: FieldOption)
    ensures ApplyAll(Zero(t), opts + [a, b, c]) == Apply(Apply(Apply(ApplyAll(Zero(t), opts), a), b), c)
  {
    var x := ApplyAll(Zero(t), opts);
    ApplyAllAppend(Zero(t), opts, [a, b, c]);
    assert [a, b, c][1..] == [b, c];
    assert [b, c][1..] == [c];
    assert [c][1..] == [];
    assert ApplyAll(x, [a, b, c]) == ApplyAll(Apply(x, a), [b, c]);
    assert ApplyAll(Apply(x, a), [b, c]) == ApplyAll(Apply(Apply(x, a), b), [c]);
    assert ApplyAll(Apply(Apply(x, a), b), [c]) == ApplyAll(Apply(Apply(Apply(x, a), b), c), []);
  }

  /** A text field: key and label from the positional arguments, whatever
      the options say; everything else as the options leave it. */
  method NewTextField(key: string, name: string, opts: seq<FieldOption>) returns (f: Field)
    ensures f == LastWrites(Zero(Text), opts).(bindingKey := key, labelText := name)
  {
    f := NewField(Text, opts + [WithBindingKey(key), WithLabel(name)]);
    AppendTwo(Text, opts, WithBindingKey(key), WithLabel(name));
    ApplyAllIsLastWrites(Zero(Text), opts);
  }

  method NewTextEditorField(key: string, name: string, opts: seq<FieldOption>) returns (f: Field)
    ensures f == LastWrites(Zero(TextEditor), opts).(bindingKey := key, labelText := name)
  {
    f := NewField(TextEditor, opts + [WithBindingKey(key), WithLabel(name)]);
    AppendTwo(TextEditor, opts, WithBindingKey(key), WithLabel(name));
    ApplyAllIsLastWrites(Zero(TextEditor), opts);
  }

  method NewCheckBoxField(key: string, name: string, opts: seq<FieldOption>) returns (f: Field)
    ensures f == LastWrites(Zero(CheckBox), opts).(bindingKey := key, labelText := name)
  {
    f := NewField(CheckBox, opts + [WithBindingKey(key), WithLabel(name)]);
    AppendTwo(CheckBox, opts, WithBindingKey(key), WithLabel(name));
    ApplyAllIsLastWrites(Zero(CheckBox), opts);
  }

  /** A dropdown: key, label and choices from the positional arguments. */
  method NewDropdownField(key: string, name: string, options: seq<string>, opts: seq<FieldOption>)
    returns (f: Field)
    ensures f == LastWrites(Zero(Dropdown), opts).(bindingKey := key, labelText := name, options := options)
  {
    f := NewField(Dropdown, opts + [WithBindingKey(key), WithLabel(name), WithOptions(options)]);
    AppendThree(Dropdown, opts, WithBindingKey(key), WithLabel(name), WithOptions(options));
    ApplyAllIsLastWrites(Zero(Dropdown), opts);
  }

  method NewSegmentedField(key: string, name: string, options: seq<string>, opts: seq<FieldOption>)
    returns (f: Field)
    ensures f == LastWrites(Zero(Segmented), opts).(bindingKey := key, labelText := name, options := options)
  {
    f := NewField(Segmented, opts + [WithBindingKey(key), WithLabel(name), WithOptions(options)]);
    AppendThree(Segmented, opts, WithBindingKey(key), WithLabel(name), WithOptions(options));
    ApplyAllIsLastWrites(Zero(Segmented), opts);
  }

  /** A file picker: key, label and picker kind from the positional arguments. */
  method NewFilePickerField(key: string, name: string, kind: FilePickerKind, opts: seq<FieldOption>)
    returns (f: Field)
    ensures f == LastWrites(Zero(FilePicker), opts).(bindingKey := key, labelText := name,
                                                     filePickerType := Some(kind))
  {
    f := NewField(FilePicker, opts + [WithBindingKey(key), WithLabel(name), WithFilePickerType(kind)]);
    AppendThree(FilePicker, opts, WithBindingKey(key), WithLabel(name), WithFilePickerType(kind));
    ApplyAllIsLastWrites(Zero(FilePicker), opts);
  }

  method NewFileField(key: string, name: string, opts: seq<FieldOption>) returns (f: Field)
    ensures f.fieldType == FilePicker && f.filePickerType == Some(File)
    ensures f == LastWrites(Zero(FilePicker), opts).(bindingKey := key, labelText := name,
                                                     filePickerType := Some(File))
  {
    f := NewFilePickerField(key, name, File, opts);
  }

  method NewFolderField(key: string, name: string, opts: seq<FieldOption>) returns (f: Field)
    ensures f.fieldType == FilePicker && f.filePickerType == Some(Folder)
    ensures f == LastWrites(Zero(FilePicker), opts).(bindingKey := key, labelText := name,
                                                     filePickerType := Some(Folder))
  {
    f := NewFilePickerField(key, name, Folder, opts);
  }
}
