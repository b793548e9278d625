/** The description of one form control (dialog/field/base.go) and its sparse
    JSON encoding: the five core attributes are always written, the optional
    ones only when they hold something. */
module FieldBase {
  import opened Wrappers
  import opened Json

  /** The closed set of control types. */
  datatype FieldType = Text | TextEditor | CheckBox | Dropdown | Segmented | FilePicker

  /** What a file picker picks. The attribute on a field is optional: its Go
      zero value, the empty string, is `None` here. */
  datatype FilePickerKind = Folder | File

  /** Show the field only while the watched field holds `expectedValue`. */
  datatype VisibleWhen = VisibleWhen(watchField: string, expectedValue: string)

  datatype Field = Field(
    fieldType: FieldType,
    labelText: string,
    bindingKey: string,
    defaultValue: string,
    copy: bool,
    filePickerType: Option<FilePickerKind>,
    options: seq<string>,
    note: string,
    order: int,
    visibleWhen: Option<VisibleWhen>)

  /** The wire name of a control type. */
  function FieldTypeTag(t: FieldType): string
  {
    match t
    case Text => "text"
    case TextEditor => "texteditor"
    case CheckBox => "checkbox"
    case Dropdown => "dropdown"
    case Segmented => "segmented"
    case FilePicker => "filepicker"
  }

  /** The control type a wire name stands for, if any. */
  function ParseFieldType(s: string): (r: Option<FieldType>)
    ensures r.Some? ==> FieldTypeTag(r.value) == s
    ensures forall t :: FieldTypeTag(t) == s ==> r == Some(t)
  {
    if s == "text" then Some(Text)
    else if s == "texteditor" then Some(TextEditor)
    else if s == "checkbox" then Some(CheckBox)
    else if s == "dropdown" then Some(Dropdown)
    else if s == "segmented" then Some(Segmented)
    else if s == "filepicker" then Some(FilePicker)
    else None
  }

  /** The six wire names are distinct: a tag names exactly one type. */
  lemma FieldTypeTagInjective(t: FieldType, u: FieldType)
    ensures FieldTypeTag(t) == FieldTypeTag(u) <==> t == u
  {
  }

  function FilePickerTag(k: FilePickerKind): string
  {
    match k
    case Folder => "folder"
    case File => "file"
  }

  function ParseFilePickerKind(s: string): (r: Option<FilePickerKind>)
    ensures r.Some? ==> FilePickerTag(r.value) == s
    ensures forall k :: FilePickerTag(k) == s ==> r == Some(k)
  {
    if s == "folder" then Some(Folder) else if s == "file" then Some(File) else None
  }

  /** The keys every encoded field carries. */
  const RequiredKeys: set<string> := {"type", "label", "bindingKey", "defaultValue", "order"}

  /** The keys written only when the attribute is not its zero value. */
  const OptionalKeys: set<string> := {"copy", "filePickerType", "options", "note", "visibleWhen"}

  /** The keys an encoded field may carry. */
  const FieldKeys: set<string> := RequiredKeys + OptionalKeys

  function EncodeVisibleWhen(w: VisibleWhen): Value
  {
    Obj(map["watchField" := Str(w.watchField), "expectedValue" := Str(w.expectedValue)])
  }

  /** `m` with `k` set to `v` when `present`, unchanged otherwise: how an
      `omitempty` attribute is written. */
  function PutIf(m: map<string, Value>, present: bool, k: string, v: Value): map<string, Value>
  {
    if present then m[k := v] else m
  }

  /** No core key is an optional one. */
  lemma KeysDisjoint()
    ensures RequiredKeys !! OptionalKeys
  {
    assert "order"[1] != "options"[1];
  }

  /** The five attributes without `omitempty`. */
  function CoreAttributes(f: Field): map<string, Value>
  {
    map["type" := Str(FieldTypeTag(f.fieldType)),
        "label" := Str(f.labelText),
        "bindingKey" := Str(f.bindingKey),
        "defaultValue" := Str(f.defaultValue),
        "order" := Int(f.order)]
  }

  /** The `omitempty` attributes: `copy`, `filePickerType`, `options`,
      `note` and `visibleWhen`, each written only when set. */
  function OptionalAttributes(f: Field): (m: map<string, Value>)
    ensures m.Keys <= OptionalKeys
    ensures "copy" in m <==> f.copy
    ensures "filePickerType" in m <==> f.filePickerType.Some?
    ensures "options" in m <==> f.options != []
    ensures "note" in m <==> f.note != ""
    ensures "visibleWhen" in m <==> f.visibleWhen.Some?
  {
    var m1 := PutIf(map[], f.copy, "copy", Bool(true));
    var m2 := PutIf(m1, f.filePickerType.Some?, "filePickerType",
                    if f.filePickerType.Some? then Str(FilePickerTag(f.filePickerType.value)) else Null);
    var m3 := PutIf(m2, f.options != [], "options", StrArray(f.options));
    var m4 := PutIf(m3, f.note != "", "note", Str(f.note));
    PutIf(m4, f.visibleWhen.Some?, "visibleWhen",
          if f.visibleWhen.Some? then EncodeVisibleWhen(f.visibleWhen.value) else Null)
  }

  /** The JSON object for a field, following the struct tags. */
  function EncodeField(f: Field): (m: map<string, Value>)
    ensures "copy" in m <==> f.copy
    ensures "filePickerType" in m <==> f.filePickerType.Some?
    ensures "options" in m <==> f.options != []
    ensures "note" in m <==> f.note != ""
    ensures "visibleWhen" in m <==> f.visibleWhen.Some?
  {
    KeysDisjoint();
    CoreAttributes(f) + OptionalAttributes(f)
  }

  /** The five core attributes are always written, with their values. */
  lemma EncodeFieldRequired(f: Field)
    ensures var m := EncodeField(f);
      && "type" in m && m["type"] == Str(FieldTypeTag(f.fieldType))
      && "label" in m && m["label"] == Str(f.labelText)
      && "bindingKey" in m && m["bindingKey"] == Str(f.bindingKey)
      && "defaultValue" in m && m["defaultValue"] == Str(f.defaultValue)
      && "order" in m && m["order"] == Int(f.order)
  {
    KeysDisjoint();
  }

  /** An optional attribute, when written, carries the field's value. */
  lemma EncodeFieldOptional(f: Field)
    ensures var m := EncodeField(f);
      && (f.copy ==> m["copy"] == Bool(true))
      && (f.filePickerType.Some? ==> m["filePickerType"] == Str(FilePickerTag(f.filePickerType.value)))
      && (f.options != [] ==> m["options"] == StrArray(f.options))
      && (f.note != "" ==> m["note"] == Str(f.note))
      && (f.visibleWhen.Some? ==> m["visibleWhen"] == EncodeVisibleWhen(f.visibleWhen.value))
  {
  }

  /** Nothing outside the schema's ten keys is written. */
  lemma EncodeFieldKeys(f: Field)
    ensures RequiredKeys <= EncodeField(f).Keys <= FieldKeys
  {
  }

  // Reading a field back with the same tags: a missing optional key is the
  // attribute's zero value; a key of the wrong JSON type is an error.

  function GetString(m: map<string, Value>, k: string): Option<string>
  {
    if k in m && m[k].Str? then Some(m[k].s) else None
  }

  function OptString(m: map<string, Value>, k: string): Option<string>
  {
    if k !in m then Some("") else GetString(m, k)
  }

  function DecodeVisibleWhen(v: Value): Option<VisibleWhen>
  {
    if v.Obj? && GetString(v.members, "watchField").Some?
       && GetString(v.members, "expectedValue").Some?
    then Some(VisibleWhen(GetString(v.members, "watchField").value,
                          GetString(v.members, "expectedValue").value))
    else None
  }

  // One reader per optional attribute: the outer Option is "well typed",
  // the inner value is the attribute.

  function DecodeCopy(m: map<string, Value>): Option<bool>
  {
    if "copy" !in m then Some(false)
    else if m["copy"].Bool? then Some(m["copy"].b) else None
  }

  function DecodePicker(m: map<string, Value>): Option<Option<FilePickerKind>>
  {
    if "filePickerType" !in m then Some(None)
    else if m["filePickerType"].Str? && ParseFilePickerKind(m["filePickerType"].s).Some?
    then Some(ParseFilePickerKind(m["filePickerType"].s))
    else None
  }

  function DecodeOptions(m: map<string, Value>): Option<seq<string>>
  {
    if "options" !in m then Some([])
    else if m["options"].Arr? then AsStrings(m["options"].items) else None
  }

  function DecodeRule(m: map<string, Value>): Option<Option<VisibleWhen>>
  {
    if "visibleWhen" !in m then Some(None)
    else if DecodeVisibleWhen(m["visibleWhen"]).Some? then Some(DecodeVisibleWhen(m["visibleWhen"]))
    else None
  }

  /** Reads a field object; None when a required key is missing or any key
      has the wrong JSON type. */
  function DecodeField(m: map<string, Value>): Option<Field>
  {
    var t := GetString(m, "type");
    var caption := GetString(m, "label");
    var key := GetString(m, "bindingKey");
    var dflt := GetString(m, "defaultValue");
    var note := OptString(m, "note");
    if t.None? || ParseFieldType(t.value).None? || caption.None? || key.None? || dflt.None?
       || "order" !in m || !m["order"].Int? || DecodeCopy(m).None? || DecodePicker(m).None?
       || DecodeOptions(m).None? || note.None? || DecodeRule(m).None?
    then None
    else
      Some(Field(ParseFieldType(t.value).value, caption.value, key.value, dflt.value,
                 DecodeCopy(m).value, DecodePicker(m).value, DecodeOptions(m).value,
                 note.value, m["order"].i, DecodeRule(m).value))
  }

  lemma DecodeOptionalOfEncode(f: Field)
    ensures var m := EncodeField(f);
      && DecodeCopy(m) == Some(f.copy)
      && DecodePicker(m) == Some(f.filePickerType)
      && OptString(m, "note") == Some(f.note)
      && DecodeRule(m) == Some(f.visibleWhen)
  {
    EncodeFieldOptional(f);
  }

  lemma DecodeOptionsOfEncode(f: Field)
    ensures DecodeOptions(EncodeField(f)) == Some(f.options)
  {
    EncodeFieldOptional(f);
    if f.options != [] {
      AsStringsOfStrArray(f.options);
    }
  }

  /** Encoding loses nothing: attributes left out because they are empty read
      back as their zero values, so every field survives the round trip. */
  lemma DecodeEncodeField(f: Field)
    ensures DecodeField(EncodeField(f)) == Some(f)
  {
    EncodeFieldRequired(f);
    DecodeOptionalOfEncode(f);
    DecodeOptionsOfEncode(f);
  }

  /** The visibility rule of the field's documentation: no rule, always shown;
      otherwise shown exactly while the watched field's current value is the
      expected string. */
  predicate IsVisible(f: Field, values: map<string, Value>)
  {
    match f.visibleWhen
    case None => true
    case Some(rule) =>
      rule.watchField in values && values[rule.watchField] == Str(rule.expectedValue)
  }

  /** A rule over the form's values never depends on anything but the watched
      field's value: two value maps that agree there agree on visibility. */
  lemma VisibilityDependsOnWatchedOnly(f: Field, v1: map<string, Value>, v2: map<string, Value>)
    requires f.visibleWhen.Some?
    requires var w := f.visibleWhen.value.watchField;
             (w in v1 <==> w in v2) && (w in v1 ==> v1[w] == v2[w])
    ensures IsVisible(f, v1) <==> IsVisible(f, v2)
  {
  }
}
