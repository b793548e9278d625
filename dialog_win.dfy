/** The dialog aggregate (dialog/dialog.go, dialog/win.go): window settings
    plus a map of fields keyed by binding key. Inserting a field overwrites
    its order with "entries already present + 1". `Open` sends the encoded
    dialog to the renderer and decodes what it prints; the renderer process
    is a parameter. */
module DialogWin {
  import opened Wrappers
  import opened Json
  import opened FieldBase
  import opened Seqs

  /** The values of a dialog's attributes. */
  datatype DialogState = DialogState(
    windowTitle: string,
    windowWidth: int,
    windowHeight: int,
    okLabel: string,
    cancelLabel: string,
    alwaysOnTop: bool,
    fields: map<string, Field>)

  /** What `NewDialog` starts from before its options run. */
  function Defaults(): DialogState
  {
    DialogState("对话框", 500, 400, "确定", "取消", false, map[])
  }

  /** The dialog options. */
  datatype DialogOption =
    | WithTitle(title: string)
    | WithSize(width: int, height: int)
    | WithOkLabel(okText: string)
    | WithCancelLabel(cancelText: string)
    | WithAlwaysOnTop(onTop: bool)
    | WithFields(items: seq<Field>)

  /** One field inserted under its binding key, with its order overwritten by
      the number of entries already present plus one. */
  function Insert(m: map<string, Field>, f: Field): (r: map<string, Field>)
    ensures r.Keys == m.Keys + {f.bindingKey}
    ensures r[f.bindingKey] == f.(order := |m| + 1)
    ensures forall k :: k in m && k != f.bindingKey ==> r[k] == m[k]
    ensures |r| == if f.bindingKey in m then |m| else |m| + 1
  {
    m[f.bindingKey := f.(order := |m| + 1)]
  }

  /** The fields inserted one after another, first to last. */
  function InsertAll(m: map<string, Field>, fs: seq<Field>): map<string, Field>
    decreases |fs|
  {
    if fs == [] then m else Insert(InsertAll(m, fs[..|fs| - 1]), fs[|fs| - 1])
  }

  /** One more field inserted by the loop. */
  lemma InsertAllStep(m: map<string, Field>, fs: seq<Field>, i: nat)
    requires i < |fs|
    ensures InsertAll(m, fs[..i + 1]) == Insert(InsertAll(m, fs[..i]), fs[i])
  {
    assert fs[..i + 1][..i] == fs[..i];
  }

  /** Every entry sits under its own binding key. */
  predicate KeyedByBinding(m: map<string, Field>)
  {
    forall k :: k in m ==> m[k].bindingKey == k
  }

  lemma {:induction false} InsertAllKeyedByBinding(m: map<string, Field>, fs: seq<Field>)
    requires KeyedByBinding(m)
    ensures KeyedByBinding(InsertAll(m, fs))
    decreases |fs|
  {
    if fs != [] {
      InsertAllKeyedByBinding(m, fs[..|fs| - 1]);
    }
  }

  /** Binding keys pairwise distinct and none of them already in `m`. */
  predicate FreshKeys(m: map<string, Field>, fs: seq<Field>)
  {
    && (forall i :: 0 <= i < |fs| ==> fs[i].bindingKey !in m)
    && (forall i, j :: 0 <= i < j < |fs| ==> fs[i].bindingKey != fs[j].bindingKey)
  }

  /** Inserting fields whose keys are not in `m` keeps every entry of `m`. */
  lemma {:induction false} InsertAllKeepsOthers(m: map<string, Field>, fs: seq<Field>)
    requires forall i :: 0 <= i < |fs| ==> fs[i].bindingKey !in m
    ensures forall k :: k in m ==> k in InsertAll(m, fs) && InsertAll(m, fs)[k] == m[k]
    decreases |fs|
  {
    if fs != [] {
      InsertAllKeepsOthers(m, fs[..|fs| - 1]);
    }
  }

  /** A key that is neither in `m` nor any field's binding key is not
      inserted. */
  lemma {:induction false} NotInserted(m: map<string, Field>, fs: seq<Field>, k: string)
    requires k !in m
    requires forall i :: 0 <= i < |fs| ==> fs[i].bindingKey != k
    ensures k !in InsertAll(m, fs)
    decreases |fs|
  {
    if fs != [] {
      NotInserted(m, fs[..|fs| - 1], k);
    }
  }

  /** Dropping the last field keeps the keys fresh, and the last key is
      neither in `m` nor among the earlier ones. */
  lemma FreshKeysInit(m: map<string, Field>, fs: seq<Field>)
    requires fs != [] && FreshKeys(m, fs)
    ensures FreshKeys(m, fs[..|fs| - 1])
    ensures fs[|fs| - 1].bindingKey !in InsertAll(m, fs[..|fs| - 1])
  {
    var n := |fs| - 1;
    var init := fs[..n];
    forall i | 0 <= i < |init|
      ensures init[i].bindingKey != fs[n].bindingKey
    {
      assert init[i] == fs[i];
    }
    NotInserted(m, init, fs[n].bindingKey);
  }

  /** Fields with fresh keys each add one entry. */
  lemma {:induction false} InsertAllFreshSize(m: map<string, Field>, fs: seq<Field>)
    requires FreshKeys(m, fs)
    ensures |InsertAll(m, fs)| == |m| + |fs|
    decreases |fs|
  {
    if fs != [] {
      FreshKeysInit(m, fs);
      InsertAllFreshSize(m, fs[..|fs| - 1]);
    }
  }

  /** Fields with fresh keys are numbered on from the entries already
      present, in argument order, whatever orders they carried. */
  lemma {:induction false} InsertAllFresh(m: map<string, Field>, fs: seq<Field>, i: nat)
    requires FreshKeys(m, fs) && i < |fs|
    ensures fs[i].bindingKey in InsertAll(m, fs)
    ensures InsertAll(m, fs)[fs[i].bindingKey] == fs[i].(order := |m| + i + 1)
    decreases |fs|
  {
    var n := |fs| - 1;
    var init := fs[..n];
    FreshKeysInit(m, fs);
    assert InsertAll(m, fs) == Insert(InsertAll(m, init), fs[n]);
    if i == n {
      InsertAllFreshSize(m, init);
    } else {
      assert init[i] == fs[i];
      InsertAllFresh(m, init, i);
    }
  }

  /** N fields with distinct keys added to an empty dialog are numbered
      exactly 1..N in argument order. */
  lemma OrdersFromOne(fs: seq<Field>)
    requires forall i, j :: 0 <= i < j < |fs| ==> fs[i].bindingKey != fs[j].bindingKey
    ensures |InsertAll(map[], fs)| == |fs|
    ensures forall i :: 0 <= i < |fs| ==>
              fs[i].bindingKey in InsertAll(map[], fs)
              && InsertAll(map[], fs)[fs[i].bindingKey].order == i + 1
  {
    InsertAllFreshSize(map[], fs);
    forall i | 0 <= i < |fs|
      ensures fs[i].bindingKey in InsertAll(map[], fs)
      ensures InsertAll(map[], fs)[fs[i].bindingKey].order == i + 1
    {
      InsertAllFresh(map[], fs, i);
    }
  }

  /** Re-adding a key does not grow the map, so the next new field can take
      an order already in use: adding x, then y under x's key, then z gives y
      and z both order 2. */
  lemma ReAddingRepeatsOrders(x: Field, y: Field, z: Field)
    requires x.bindingKey == y.bindingKey && z.bindingKey != x.bindingKey
    ensures var r := InsertAll(map[], [x, y, z]);
            && |r| == 2
            && y.bindingKey in r && r[y.bindingKey] == y.(order := 2)
            && z.bindingKey in r && r[z.bindingKey] == z.(order := 2)
  {
    assert [x, y, z][..2] == [x, y];
    assert [x, y][..1] == [x];
    assert [x][..0] == [];
    var r0: map<string, Field> := map[];
    assert InsertAll(r0, []) == r0;
    var r1 := InsertAll(r0, [x]);
    assert r1 == Insert(r0, x);
    var r2 := InsertAll(r0, [x, y]);
    assert r2 == Insert(r1, y);
    assert r2.Keys == {x.bindingKey};
    assert InsertAll(r0, [x, y, z]) == Insert(r2, z);
  }

  /** What one option's closure does to the dialog. */
  function ApplyOption(s: DialogState, o: DialogOption): (r: DialogState)
    ensures r.windowTitle != s.windowTitle ==> o.WithTitle?
    ensures (r.windowWidth, r.windowHeight) != (s.windowWidth, s.windowHeight) ==> o.WithSize?
    ensures r.okLabel != s.okLabel ==> o.WithOkLabel?
    ensures r.cancelLabel != s.cancelLabel ==> o.WithCancelLabel?
    ensures r.alwaysOnTop != s.alwaysOnTop ==> o.WithAlwaysOnTop?
    ensures r.fields != s.fields ==> o.WithFields?
    ensures Carries(r, o)
    ensures o.WithFields? ==> r.fields == InsertAll(s.fields, o.items)
  {
    match o
    case WithTitle(t) => s.(windowTitle := t)
    case WithSize(w, h) => s.(windowWidth := w, windowHeight := h)
    case WithOkLabel(t) => s.(okLabel := t)
    case WithCancelLabel(t) => s.(cancelLabel := t)
    case WithAlwaysOnTop(b) => s.(alwaysOnTop := b)
    case WithFields(fs) => s.(fields := InsertAll(s.fields, fs))
  }

  /** `s` holds what a setter option sets. */
  predicate Carries(s: DialogState, o: DialogOption)
  {
    match o
    case WithTitle(t) => s.windowTitle == t
    case WithSize(w, h) => s.windowWidth == w && s.windowHeight == h
    case WithOkLabel(t) => s.okLabel == t
    case WithCancelLabel(t) => s.cancelLabel == t
    case WithAlwaysOnTop(b) => s.alwaysOnTop == b
    case WithFields(_) => true
  }

  /** The options applied one after another, first to last. */
  function ApplyOptions(s: DialogState, opts: seq<DialogOption>): DialogState
    decreases |opts|
  {
    if opts == [] then s else ApplyOption(ApplyOptions(s, opts[..|opts| - 1]), opts[|opts| - 1])
  }

  /** Options of the same setter. */
  predicate SameSetter(a: DialogOption, b: DialogOption)
  {
    && (a.WithTitle? <==> b.WithTitle?)
    && (a.WithSize? <==> b.WithSize?)
    && (a.WithOkLabel? <==> b.WithOkLabel?)
    && (a.WithCancelLabel? <==> b.WithCancelLabel?)
    && (a.WithAlwaysOnTop? <==> b.WithAlwaysOnTop?)
  }

  /** A setter option that no later option of the same setter follows decides
      its attribute: later options override earlier ones. */
  lemma {:induction false} LaterOptionWins(s: DialogState, pre: seq<DialogOption>, o: DialogOption,
                                           post: seq<DialogOption>)
    requires !o.WithFields?
    requires forall i :: 0 <= i < |post| ==> !SameSetter(post[i], o)
    ensures Carries(ApplyOptions(s, pre + [o] + post), o)
    decreases |post|
  {
    var opts := pre + [o] + post;
    if post == [] {
      assert opts[..|opts| - 1] == pre;
    } else {
      var init := post[..|post| - 1];
      assert opts[..|opts| - 1] == pre + [o] + init;
      LaterOptionWins(s, pre, o, init);
    }
  }

  /** Options that only set window attributes leave the fields alone. */
  lemma {:induction false} SettersKeepFields(s: DialogState, opts: seq<DialogOption>)
    requires forall i :: 0 <= i < |opts| ==> !opts[i].WithFields?
    ensures ApplyOptions(s, opts).fields == s.fields
    decreases |opts|
  {
    if opts != [] {
      SettersKeepFields(s, opts[..|opts| - 1]);
    }
  }

  /** A dialog built with no options has the Chinese default labels, a
      500x400 window, no pinning and no fields. */
  lemma NewDialogDefaults()
    ensures ApplyOptions(Defaults(), []) ==
            DialogState("对话框", 500, 400, "确定", "取消", false, map[])
  {
  }

  /** The JSON object a dialog marshals to: every attribute is written, and
      the fields as an object keyed by binding key. */
  function EncodeDialog(s: DialogState): (v: Value)
    ensures v.Obj? && v.members.Keys ==
      {"windowTitle", "windowWidth", "windowHeight", "okLabel", "cancelLabel", "alwaysOnTop", "fields"}
    ensures v.members["fields"].Obj? && v.members["fields"].members.Keys == s.fields.Keys
    ensures v.members["windowTitle"] == Str(s.windowTitle) && v.members["okLabel"] == Str(s.okLabel)
      && v.members["cancelLabel"] == Str(s.cancelLabel)
    ensures v.members["windowWidth"] == Int(s.windowWidth) && v.members["windowHeight"] == Int(s.windowHeight)
    ensures v.members["alwaysOnTop"] == Bool(s.alwaysOnTop)
    ensures forall k :: k in s.fields ==> v.members["fields"].members[k] == Obj(EncodeField(s.fields[k]))
  {
    Obj(map["windowTitle" := Str(s.windowTitle),
            "windowWidth" := Int(s.windowWidth),
            "windowHeight" := Int(s.windowHeight),
            "okLabel" := Str(s.okLabel),
            "cancelLabel" := Str(s.cancelLabel),
            "alwaysOnTop" := Bool(s.alwaysOnTop),
            "fields" := Obj(map k | k in s.fields :: Obj(EncodeField(s.fields[k])))])
  }

  /** What the renderer process printed: a JSON document, or anything else
      (nothing at all, or a text line). */
  datatype Output = Json(doc: Value) | NotJson

  /** How running the renderer ended: it could not be started, or it exited
      with a status after printing something. */
  datatype RenderOutcome = StartFailed | Exited(status: int, output: Output)

  datatype OpenError = RunError | DecodeError

  /** `values` is None for Go's nil map. */
  datatype OpenResult = OpenResult(values: Option<map<string, Value>>, err: Option<OpenError>)

  /** The result contract of `Open`: a failed run gives no map and an error;
      otherwise the output is decoded into a fresh map. A JSON object decodes
      to its members; `null` leaves a nil map and no error; any other
      document, and output that is not JSON, gives an empty map and an error,
      since the decoder checks the whole document before storing anything. */
  function OpenContract(o: RenderOutcome): (r: OpenResult)
    ensures r.err == Some(RunError) <==> o.StartFailed? || o.status != 0
    ensures r.err == Some(RunError) ==> r.values.None?
    ensures r.err.None? <==> o.Exited? && o.status == 0 && o.output.Json? && (o.output.doc.Obj? || o.output.doc.Null?)
    ensures r.err == Some(DecodeError) ==> r.values == Some(map[])
    ensures r.err.None? && r.values.Some? ==> o.output == Json(Obj(r.values.value))
    ensures o.Exited? && o.status == 0 && o.output.Json? && o.output.doc.Obj? ==>
      r == OpenResult(Some(o.output.doc.members), None)
    ensures o.Exited? && o.status == 0 && o.output.Json? && o.output.doc.Null? ==>
      r == OpenResult(None, None)
  {
    if o.StartFailed? || o.status != 0 then OpenResult(None, Some(RunError))
    else match o.output
      case NotJson => OpenResult(Some(map[]), Some(DecodeError))
      case Json(v) =>
        if v.Obj? then OpenResult(Some(v.members), None)
        else if v.Null? then OpenResult(None, None)
        else OpenResult(Some(map[]), Some(DecodeError))
  }

  /** A dialog under construction. */
  class Dialog {
    var windowTitle: string
    var windowWidth: int
    var windowHeight: int
    var okLabel: string
    var cancelLabel: string
    var alwaysOnTop: bool
    var fields: map<string, Field>

    function State(): DialogState
      reads this
    {
      DialogState(windowTitle, windowWidth, windowHeight, okLabel, cancelLabel, alwaysOnTop, fields)
    }

    /** NewDialog: the defaults, then every option in argument order. */
    constructor (opts: seq<DialogOption>)
      ensures State() == ApplyOptions(Defaults(), opts)
    {
      windowTitle := "对话框";
      windowWidth := 500;
      windowHeight := 400;
      okLabel := "确定";
      cancelLabel := "取消";
      alwaysOnTop := false;
      fields := map[];
      new;
      for i := 0 to |opts|
        invariant State() == ApplyOptions(Defaults(), opts[..i])
      {
        assert opts[..i + 1][..i] == opts[..i];
        Apply(opts[i]);
      }
      assert opts[..|opts|] == opts;
    }

    /** Runs one option's closure on this dialog. */
    method Apply(o: DialogOption)
      modifies this
      ensures State() == ApplyOption(old(State()), o)
    {
      match o
      case WithTitle(t) => windowTitle := t;
      case WithSize(w, h) => windowWidth := w; windowHeight := h;
      case WithOkLabel(t) => okLabel := t;
      case WithCancelLabel(t) => cancelLabel := t;
      case WithAlwaysOnTop(b) => alwaysOnTop := b;
      case WithFields(fs) => AddFields(fs);
    }

    /** AddFields (and the body of WithFields): each item, with its order
        overwritten, is stored under its binding key. */
    method AddFields(fs: seq<Field>)
      modifies this
      ensures State() == old(State()).(fields := InsertAll(old(fields), fs))
    {
      for i := 0 to |fs|
        invariant State() == old(State()).(fields := InsertAll(old(fields), fs[..i]))
      {
        InsertAllStep(old(fields), fs, i);
        var item := fs[i].(order := |fields| + 1);
        fields := fields[item.bindingKey := item];
      }
      Whole(fs);
    }

    /** Open: encode this dialog, hand it to the renderer `run`, and decode
        what it printed. Nothing of the dialog changes. */
    method Open(run: Value -> RenderOutcome) returns (r: OpenResult)
      ensures r == OpenContract(run(EncodeDialog(State())))
    {
      var outcome := run(EncodeDialog(State()));
      if outcome.StartFailed? || outcome.status != 0 {
        return OpenResult(None, Some(RunError));
      }
      var value := map[];
      match outcome.output {
        case NotJson =>
          return OpenResult(Some(value), Some(DecodeError));
        case Json(v) =>
          if v.Obj? {
            return OpenResult(Some(v.members), None);
          } else if v.Null? {
            return OpenResult(None, None);
          }
          return OpenResult(Some(value), Some(DecodeError));
      }
    }
  }
}
