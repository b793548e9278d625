# alfred-tool dialog and record core, in Dafny

alfred-tool is an Alfred workflow helper. It keeps SSH connections and
rsync configurations in a database and asks the user for input through a
declarative dialog layer: Go code describes a form, and a Swift renderer
shows it and prints the answers as JSON. This project models the
deterministic core of that system and proves what it promises:

- **Field model** (`FieldBase`, field_base.dfy). The six control types, the
  two file-picker kinds, the optional visibility rule, and the sparse JSON
  encoding. Five attributes are always written. The `omitempty` ones are
  written only when they are not their zero value. Encoding loses nothing:
  decoding an encoded field gives the field back.
- **Field builders** (`FieldControl`, field_control.dfy). Each `With*`
  option sets one attribute. `NewField` runs the options in order, so the
  last option that sets an attribute decides it. The `New*Field`
  constructors append their positional key, label, choices or picker kind
  after the caller's options, so those always win.
- **Dialog aggregate** (`DialogWin`, dialog_win.dfy). A `Dialog` class with
  the window attributes and a map of fields. `NewDialog`'s defaults,
  options applied in order, and `AddFields`, which stores each field under
  its binding key with its order overwritten by "entries already present +
  1". `Open` encodes the dialog, hands it to the renderer and decodes what
  it printed. The renderer process is a parameter.
- **Renderer value rules** (`Renderer`, renderer.dfy). These come from
  dialog/dialog.swift:
  - the fields sorted by `order`;
  - the initial values, where a checkbox default becomes a boolean;
  - the object the OK button prints, with a fallback per control type;
  - the wrap-around move in a radio group;
  - the height estimate and the window's default labels.
- **SSH forms** (`SshDialog`, ssh_dialog.dfy). The "default on miss" string
  accessor, and the validation and normalisation that `saveConnection` and
  `updateConnection` perform before the database call.
- **Record projections** (`SshConnection`, `RsyncConfig`). The connection
  string, launcher arguments and workflow variables of both record kinds.
  `RsyncConfig` also has the exclude-rule and option lists, the rsync
  command line, and the display string.
- **`~/.ssh/config` text** (`SshSync`, sshsync.dfy). A header, one Host
  block per connection in list order, and a footer.
- **rsync list items** (`RsyncList`, rsync_list.dfy). `truncateString` on
  the UTF-8 bytes of a Go string, and the title and subtitle of each item.

Supporting modules:

- `Wrappers` has `Option` and `Result`.
- `Json` has JSON values, with integer numbers only.
- `Seqs` has sequence lemmas.
- `GoStrings` has the Go library behaviour the core relies on:
  - `strings.TrimSpace`, `Split` and `Fields`, using Unicode white space;
  - `strconv.Itoa` and `Atoi`, with the 64-bit range;
  - the UTF-8 encoding that `len` and slicing work on.

Where the code and its documentation differ, the model follows the code:

- Re-adding a binding key does not grow the map, so the next new field
  takes the same order as an existing one (`DialogWin.ReAddingRepeatsOrders`).
  Orders can repeat, not only leave gaps.
- `json.Unmarshal` checks the whole document before it stores anything. So
  when the output is not a JSON object, `Open` returns an empty map with
  its error, not a partial one. A `null` document leaves a nil map and
  gives no error.
- The renderer does not decode `visibleWhen`, so every field is shown and
  reported. The visibility rule is modelled only as the predicate its
  documentation states (`FieldBase.IsVisible`).
- A direction other than "upload" or "download" is shown and reported as an
  upload. The command line copies it remote to local, as for a download
  (`RsyncConfig.UnknownDirection`). The forms write only the two known
  values (`RsyncConfig.DirectionAgrees`).

## Model

| member | source | states |
|---|---|---|
| FieldBase.ParseFieldType | dialog/field/base.go:5-12 | a wire name parses to the one control type whose tag it is, and to nothing when no type has that tag |
| FieldBase.FieldTypeTagInjective | dialog/field/base.go:5-12 | the six type tags are distinct: a tag names exactly one control type |
| FieldBase.ParseFilePickerKind | dialog/field/base.go:14-19 | a picker kind is exactly "folder" or "file"; each parses to its kind, anything else to nothing |
| FieldBase.OptionalAttributes | dialog/field/base.go:26-31 | the omitempty keys are written exactly when copy is true, the picker kind is set, options are non-empty, the note is non-empty, a visibility rule is present |
| FieldBase.EncodeField | dialog/field/base.go:21-32 | the encoded object holds each optional key exactly when its attribute is not its zero value |
| FieldBase.EncodeFieldRequired | dialog/field/base.go:22-30 | type, label, bindingKey, defaultValue and order are always written, with the field's values |
| FieldBase.EncodeFieldOptional | dialog/field/base.go:26-31 | an optional key, when written, carries the field's value (options as a string array) |
| FieldBase.EncodeFieldKeys | dialog/field/base.go:21-32 | the five core keys are always present and no key outside the ten tagged ones is written |
| FieldBase.DecodeOptionalOfEncode | dialog/field/base.go:26-31 | a left-out optional attribute reads back as its zero value, a written one as its value |
| FieldBase.DecodeOptionsOfEncode | dialog/field/base.go:28 | the options read back from the encoding, an absent key as the empty list |
| FieldBase.DecodeEncodeField | dialog/field/base.go:21-32 | decoding an encoded field gives back the same field: the sparse encoding loses nothing |
| FieldBase.VisibilityDependsOnWatchedOnly | dialog/field/base.go:34-39 | whether a field with a rule is shown depends only on the watched field's value |
| FieldControl.Apply | dialog/field/control.go:13-122 | an option sets its own attribute to its value and leaves every other attribute unchanged |
| FieldControl.ApplyAllAppend | dialog/field/control.go:128-130 | running two option lists one after the other is running their concatenation |
| FieldControl.ApplyAllIsLastWrites | dialog/field/control.go:128-130 | running options in order gives every attribute the value of the last option that sets it |
| FieldControl.LastSetUnset | dialog/field/control.go:124-127 | an attribute no option sets keeps its starting (zero) value |
| FieldControl.LastSetWins | dialog/field/control.go:128-130 | an option that no later option of the same attribute follows decides that attribute |
| FieldControl.NewField | dialog/field/control.go:124-132 | the type is the argument and every other attribute is the zero value overwritten by the last option setting it |
| FieldControl.NewTextField | dialog/field/control.go:143-149 | a text field whose key and label are the positional arguments whatever the options say; the rest as the options leave it |
| FieldControl.NewTextEditorField | dialog/field/control.go:160-166 | the same for a text editor |
| FieldControl.NewCheckBoxField | dialog/field/control.go:177-183 | the same for a checkbox |
| FieldControl.NewDropdownField | dialog/field/control.go:195-201 | a dropdown with key, label and choices from the positional arguments, overriding any option |
| FieldControl.NewSegmentedField | dialog/field/control.go:213-219 | a segmented control with key, label and choices from the positional arguments |
| FieldControl.NewFilePickerField | dialog/field/control.go:231-237 | a file picker with key, label and picker kind from the positional arguments |
| FieldControl.NewFileField | dialog/field/control.go:248-253 | a file picker that picks files |
| FieldControl.NewFolderField | dialog/field/control.go:264-269 | a file picker that picks folders |
| DialogWin.Insert | dialog/win.go:69-70 | the field is stored under its binding key with order "entries before + 1"; other entries are kept; the map grows only for a new key |
| DialogWin.InsertAllKeyedByBinding | dialog/win.go:68-71 | after inserting, every entry still sits under its own binding key |
| DialogWin.InsertAllKeepsOthers | dialog/win.go:68-71 | inserting fields with new keys keeps every existing entry unchanged |
| DialogWin.NotInserted | dialog/win.go:68-71 | a key that is neither present nor any field's binding key stays absent |
| DialogWin.InsertAllFreshSize | dialog/win.go:68-71 | fields with distinct new keys each add one entry |
| DialogWin.InsertAllFresh | dialog/win.go:68-71 | the i-th of such fields is stored with order "entries before + i + 1", any order hint overridden |
| DialogWin.OrdersFromOne | dialog/win.go:68-71 | N fields with distinct keys added to an empty dialog get orders 1..N in argument order |
| DialogWin.ReAddingRepeatsOrders | dialog/win.go:69-70 | re-adding a key keeps one entry, the later field, and the next new key then repeats an existing order |
| DialogWin.ApplyOption | dialog/win.go:11-49 | each option changes only its own attribute(s) (WithSize both width and height) and leaves it holding its value; WithFields inserts its fields |
| DialogWin.LaterOptionWins | dialog/win.go:61-63 | a setter option not followed by another of the same setter decides its attribute |
| DialogWin.SettersKeepFields | dialog/win.go:11-40 | options that set window attributes leave the fields alone |
| DialogWin.NewDialogDefaults | dialog/win.go:51-60 | no options: title 对话框, 500 by 400, ok 确定, cancel 取消, not on top, no fields |
| DialogWin.EncodeDialog | dialog/dialog.go:5-13 | every dialog attribute is written under its JSON name with the dialog's own value, and the fields as an object keyed by the map's keys whose every entry is that field's encoding |
| DialogWin.OpenContract | dialog/win.go:74-94 | a failed or non-zero run gives no map and an error; an object gives its members and no error; null gives a nil map and no error; anything else an empty map and an error |
| DialogWin.Dialog.constructor | dialog/win.go:51-65 | the dialog holds the defaults with every option applied in argument order |
| DialogWin.Dialog.Apply | dialog/win.go:11-49 | running one option's closure changes the dialog as the option prescribes |
| DialogWin.Dialog.AddFields | dialog/win.go:67-72 | the loop leaves the window attributes unchanged and the fields as the fields inserted one by one |
| DialogWin.Dialog.Open | dialog/win.go:74-94 | the result is the Open contract applied to the renderer's outcome on the encoded dialog |
| Renderer.InsertSorted | dialog/dialog.swift:84-86 | inserting into a list sorted by order keeps it sorted and adds exactly that field |
| Renderer.SortByOrder | dialog/dialog.swift:99-101 | the result is sorted by order and is a permutation of the input |
| Renderer.ValuesIn | dialog/dialog.swift:100 | the dictionary's values listed in an enumeration order of its keys |
| Renderer.SortedFields | dialog/dialog.swift:99-101 | sortedFields is sorted by order, a permutation of the dictionary's values, one per entry |
| Renderer.SortedPermutationUnique | dialog/dialog.swift:99-101 | with distinct orders there is only one sorted permutation, so an unstable sort cannot reorder the layout |
| Renderer.ValuesPermutation | dialog/dialog.swift:100 | any two enumerations of the dictionary list the same values |
| Renderer.LayoutIndependentOfEnumeration | dialog/dialog.swift:99-101 | with distinct orders the layout does not depend on the dictionary's enumeration order |
| Renderer.LowersToTrueSpelled | dialog/dialog.swift:267 | a checkbox default lower-cases to "true" exactly when it is four characters, each the lower- or upper-case letter of "true" at that place |
| Renderer.Seed | dialog/dialog.swift:264-270 | a field seeds a value exactly when it has a default; a checkbox gets the boolean "lower-cases to true", any other type the string |
| Renderer.InitialValues | dialog/dialog.swift:262-272 | the loop's dictionary is the fields' seeds written first to last |
| Renderer.SeedAllKeys | dialog/dialog.swift:262-272 | a key holds an initial value exactly when some field bound to it has a default |
| Renderer.SeedAllAt | dialog/dialog.swift:262-272 | with distinct keys a field's initial value is its own seed |
| Renderer.OutputValue | dialog/dialog.swift:481-491 | text, editor and picker report the current string or ""; a checkbox the current bool or false; a choice field the current string or its first option, and nothing without options |
| Renderer.BuildOutput | dialog/dialog.swift:479-492 | the OK loop's dictionary is the fields' reports written first to last |
| Renderer.OutputAllKeys | dialog/dialog.swift:479-492 | a key is in the output exactly when a field bound to it reports; a choice field without options is left out altogether |
| Renderer.OutputAllAt | dialog/dialog.swift:479-492 | with distinct keys each reported field's entry is its own report |
| Renderer.OkReportsDefaults | dialog/dialog.swift:479-492 | OK on an untouched form reports each default (a checkbox's as a boolean), and "" or false for a field without one |
| Renderer.FirstIndex | dialog/dialog.swift:196 | the first position of the selection among the options, or none when it is not an option |
| Renderer.FirstOccurrence | dialog/dialog.swift:196 | a position holding the selection with no earlier occurrence is the one `firstIndex` finds |
| Renderer.MovedIndex | dialog/dialog.swift:197-206 | the new index stays below n; back wraps from 0 to n-1, forward wraps from n-1 to 0, any other key stays |
| Renderer.ModBack | dialog/dialog.swift:199 | (i-1+n) % n is i-1, or n-1 for i = 0 |
| Renderer.ModForward | dialog/dialog.swift:202 | (i+1) % n is i+1, or 0 for i = n-1 |
| Renderer.MoveSelection | dialog/dialog.swift:195-207 | a selection that is not an option, or a key that is not an arrow, changes nothing; otherwise left/up gives the option before the selection's first occurrence and right/down the one after it, wrapping from the first to the last and from the last to the first |
| Renderer.MoveForwardBack | dialog/dialog.swift:195-207 | with distinct options a forward move followed by a backward move, or the reverse, returns to the same option |
| Renderer.FieldHeight | dialog/dialog.swift:567-576 | a field adds 40 rows, 130 for a text editor, plus 20 for a non-empty note |
| Renderer.EstimateHeight | dialog/dialog.swift:565-577 | the loop computes 80 plus each field's rows, between 80+40n and 80+150n |
| Renderer.HeightOfPermutation | dialog/dialog.swift:565-577 | the estimate does not depend on the order the fields are visited in |
| Renderer.Setup | dialog/dialog.swift:589-609 | the configured height, else at least 300 and at least the estimate; labels default to OK, Cancel and Dialog; floating exactly when alwaysOnTop is true |
| SshConnection.PasswordTypesDistinct | models/ssh_connection.go:10-13 | the stored tags "password" and "keypath" differ |
| SshConnection.ConnectionString | models/ssh_connection.go:29-31 | the name, ':', the user name, '@', the address, at the positions that order gives them |
| SshConnection.ConnectionStringName | models/ssh_connection.go:29-31 | for a name without ':', the first ':' ends the name, so the string identifies the record's name |
| SshConnection.PortReadsBack | models/ssh_connection.go:34 | the decimal port text reads back as the port |
| SshConnection.Args | models/ssh_connection.go:33-35 | six arguments: name, address, the port as Itoa's decimal text (which reads back as the port), local IP, user name, key path |
| SshConnection.Variables | models/ssh_connection.go:37-47 | exactly the seven ssh_ keys, ssh_port the port as Itoa's decimal text (which reads back as the port), every other value copied |
| SshDialog.GetStringValue | cmd/ssh/dialog.go:124-131 | the string under the key, or "" when it is missing or not a string; never an error |
| SshDialog.ReadForm | cmd/ssh/dialog.go:104-112 | each of the nine answers is the string under its own binding key, or "" when that key is missing or not a string |
| SshDialog.ReadFormAnswer | cmd/ssh/dialog.go:41-49 | an answer map holding a form's nine strings under their binding keys reads back as those strings, whatever else it holds |
| SshDialog.Prefill | cmd/ssh/dialog.go:71-90 | the credential default is 密码 exactly for a password record, and the port default reads back as the record's port |
| SshDialog.UpdateFromUntouchedForm | cmd/ssh/dialog.go:71-120 | when OK on the untouched update form reports each field's pre-filled text (what `Renderer.OkReportsDefaults` gives), the command stores the record unchanged apart from the usage count |
| SshDialog.StoredPasswordType | cmd/ssh/dialog.go:151-156 | 密码 stores "password"; every other answer stores "keypath" |
| SshDialog.PortText | cmd/ssh/dialog.go:141-143 | a blank port is read as "22"; any other port text is kept untrimmed |
| SshDialog.CheckInput | cmd/ssh/dialog.go:135-148 | a blank name, address or user name is the first error; then a port Atoi rejects; otherwise the parsed port |
| SshDialog.Record | cmd/ssh/dialog.go:158-172 | text columns trimmed, the stored password type, the matching credential (password verbatim, key path trimmed) and the other one empty |
| SshDialog.SaveConnection | cmd/ssh/dialog.go:134-176 | the save form's steps give the validation error, or the record with id 0 |
| SshDialog.UpdateConnection | cmd/ssh/dialog.go:179-221 | the update form's steps give the same error, or the same record carrying the given id, the unused credential cleared |
| SshDialog.BlankPortIs22 | cmd/ssh/dialog.go:141-148 | with the required fields present, a blank port saves port 22 |
| SshDialog.PaddedPortRejected | cmd/ssh/dialog.go:141-148 | a non-blank port with white space anywhere in it is rejected, since it is not trimmed |
| SshDialog.UpdatedRecordWellFormed | cmd/ssh/dialog.go:179-218 | every updated record has non-empty trimmed required text, a known password type and only the matching credential |
| SshDialog.UpdateUnchangedForm | cmd/ssh/dialog.go:63-120 | submitting the update form as pre-filled stores the record unchanged, except that the usage count, which the form does not carry, is 0 |
| RsyncConfig.KeepRules | models/rsync_config.go:50-56 | no more rules than lines; every rule is non-empty and trimmed |
| RsyncConfig.KeepLine | models/rsync_config.go:52-55 | a line contributes at most one rule, and that rule is non-empty and trimmed |
| RsyncConfig.ExcludeRules | models/rsync_config.go:44-58 | the rules are non-empty, trimmed, and hold no newline |
| RsyncConfig.ExcludeRulesSlice | models/rsync_config.go:44-58 | the loop's list is the trimmed non-blank lines, in order; "" gives no rules |
| RsyncConfig.KeepRulesOfRules | models/rsync_config.go:50-56 | a list of trimmed non-empty rules is kept as it is |
| RsyncConfig.ExcludeRulesIdempotent | models/rsync_config.go:44-58 | writing the rules back one per line and reading them again gives the same rules |
| RsyncConfig.OptionsSlice | models/rsync_config.go:60-65 | non-empty words without white space that together hold every non-space character of the column, in order |
| RsyncConfig.OptionsSliceLayout | models/rsync_config.go:60-65 | the column is exactly its words with non-empty white space between them and any white space at either end |
| RsyncConfig.OptionsSliceOfLayout | models/rsync_config.go:60-65 | any way of writing words with white space between them reads back as exactly those words, so the cut points are the white space and nothing else |
| RsyncConfig.OptionsSliceOfJoin | models/rsync_config.go:60-65 | options written one space apart read back as the same options |
| RsyncConfig.InShortFlags | models/rsync_config.go:72-108 | which strings the short options hold: those archive mode stands for, then -v, -z, -c as set |
| RsyncConfig.ArchiveImplies | models/rsync_config.go:75-97 | "-a" is present exactly when archive is set, and then none of -r -l -p -t -o -g is |
| RsyncConfig.WithoutArchive | models/rsync_config.go:78-96 | without archive, each of -r -l -p -t -o -g is present exactly when its flag is set |
| RsyncConfig.OtherShortFlags | models/rsync_config.go:100-108 | -v, -z and -c are present exactly when their flags are set |
| RsyncConfig.LongFlags | models/rsync_config.go:115-129 | --progress, --delete and --dry-run are present exactly when set, unless the extra options spell them out |
| RsyncConfig.ExcludeArgs | models/rsync_config.go:131-135 | two arguments per rule |
| RsyncConfig.ExcludeArgsAt | models/rsync_config.go:133-135 | the i-th pair is "--exclude" followed by the i-th rule |
| RsyncConfig.SshOptionsKey | models/rsync_config.go:138-141 | the shell options are "-p <port>" followed by " -i <key path>" exactly when the type is keypath and the key path is non-empty, and by nothing otherwise |
| RsyncConfig.Endpoints | models/rsync_config.go:144-153 | local then user@address:remote for an upload, the reverse for anything else |
| RsyncConfig.OptionPart | models/rsync_config.go:68-129 | the options part starts with "rsync" followed by the short options |
| RsyncConfig.Selected | models/rsync_config.go:115-124 | the names whose switch is on, in the order given: a name is listed exactly when some entry switches it on |
| RsyncConfig.OptionPartOrder | models/rsync_config.go:68-129 | "rsync" and the short options, then --progress, --delete and --dry-run in that order for those that are set, then the extra options, which end the options part |
| RsyncConfig.Command | models/rsync_config.go:67-156 | the length is the options part plus two per exclude rule plus four |
| RsyncConfig.CommandEnds | models/rsync_config.go:67-156 | the command starts with "rsync" and ends with "-e", the ssh command and the two endpoints |
| RsyncConfig.CommandShortFlags | models/rsync_config.go:110-113 | the short options follow "rsync" directly, in order |
| RsyncConfig.CommandExcludes | models/rsync_config.go:131-135 | each rule follows its own "--exclude", in line order, right after the options part |
| RsyncConfig.AppendOptions | models/rsync_config.go:68-129 | the appends give the options part |
| RsyncConfig.AppendExcludeRules | models/rsync_config.go:131-135 | the loop appends one "--exclude", rule pair per rule |
| RsyncConfig.BuildRsyncCommand | models/rsync_config.go:67-156 | the built command is the command line above |
| RsyncConfig.Arrow | models/rsync_config.go:159-162 | ↓ exactly for "download", ↑ for every other direction |
| RsyncConfig.DisplayInfo | models/rsync_config.go:158-164 | `<arrow> <name> [<ssh name>] <local> <-> <remote>`: ↓ exactly for a download, and each part and separator at the offset the format gives it |
| RsyncConfig.Args | models/rsync_config.go:166-168 | the record's name alone |
| RsyncConfig.Variables | models/rsync_config.go:170-187 | exactly the nine rsync_ keys, the direction as download or upload, the usage count as Itoa's decimal text (which reads back), the rest copied |
| RsyncConfig.DirectionAgrees | models/rsync_config.go:144-187 | for the two known directions the arrow, the reported direction and the endpoint order agree |
| RsyncConfig.UnknownDirection | models/rsync_config.go:144-187 | any other direction is shown and reported as an upload but copied remote to local |
| SshSync.BlockWrites | cmd/sshsync.go:55-67 | seven writes per block with an identity line, six without |
| SshSync.BlockShape | cmd/sshsync.go:55-67 | every block opens with the record's Host, HostName, Port and User lines and ends with the two fixed options |
| SshSync.IdentityLineIff | cmd/sshsync.go:61-63 | an IdentityFile line appears exactly when the type is keypath and the key path is non-empty, naming that path |
| SshSync.WritesAppend | cmd/sshsync.go:54-68 | the blocks of two lists are the blocks of their concatenation: one block per connection, in list order |
| SshSync.ConfigText | cmd/sshsync.go:48-70 | the text starts with the managed header and ends with the managed footer |
| SshSync.SyncText | cmd/sshsync.go:48-70 | the builder loop's text is the header, each connection's block in order, and the footer |
| RsyncList.Truncate | cmd/rsync/rsync_list.go:61-66 | a text within n bytes is kept; a longer one becomes its first n-3 bytes and "...", exactly n bytes |
| RsyncList.TruncateSplitsCharacter | cmd/rsync/rsync_list.go:61-66 | cutting 26 ASCII letters and 网站 to 30 bytes leaves a broken character |
| RsyncList.CutAfterLeadByte | cmd/rsync/rsync_list.go:65 | whenever byte n-4 is the lead byte of a multi-byte character, the result is not well-formed UTF-8 |
| RsyncList.TruncateRunes | cmd/rsync/rsync_list.go:61-66 | the corrected cut: unchanged within n bytes, otherwise a prefix and "..." within n bytes |
| RsyncList.TruncateRunesFramed | cmd/rsync/rsync_list.go:61-66 | the corrected cut keeps well-formed UTF-8 well formed |
| RsyncList.TruncateAgrees | cmd/rsync/rsync_list.go:61-66 | where byte n-3 starts a character, which is always so for ASCII text, the corrected cut equals the original |
| RsyncList.DirectionText | cmd/rsync/rsync_list.go:30-35 | 下载 exactly for "download", 上传 otherwise |
| RsyncList.Title | cmd/rsync/rsync_list.go:37 | `<arrow> <name> [<ssh name>]`: ↓ exactly for a download, the name and the SSH name at their offsets, and the closing ']' |
| RsyncList.Subtitle | cmd/rsync/rsync_list.go:38-42 | the paths line, followed by " - " and the cut description exactly when the description is non-empty |
| RsyncList.SubtitleBounded | cmd/rsync/rsync_list.go:38-42 | the subtitle's length is bounded by the fixed text plus 25 bytes per path and 30 for the description |
| RsyncList.SubtitleFramed | cmd/rsync/rsync_list.go:38-42 | the subtitle is well-formed UTF-8 |
| RsyncList.ItemOf | cmd/rsync/rsync_list.go:44-50 | uid and argument are the name; title, subtitle and variables are the record's |
| RsyncList.Items | cmd/rsync/rsync_list.go:27-51 | one item per configuration, in order |
| GoStrings.TrimSpace | models/rsync_config.go:52 | the result is trimmed, and is what is left once white space is cut from both ends |
| GoStrings.TrimSpaceBlank | cmd/ssh/dialog.go:135-136 | a string trims to "" exactly when it is all white space |
| GoStrings.TrimSpaceIdempotent | models/rsync_config.go:52 | trimming twice is trimming once |
| GoStrings.Split | models/rsync_config.go:49 | at least one piece, and no piece holds the separator |
| GoStrings.JoinSplit | models/rsync_config.go:49 | joining the pieces restores the string |
| GoStrings.SplitJoin | models/rsync_config.go:49 | splitting a join of separator-free pieces gives the pieces back |
| GoStrings.Fields | models/rsync_config.go:64 | every token is non-empty and free of white space |
| GoStrings.FieldsKeepsNonSpace | models/rsync_config.go:64 | the tokens hold every non-space character of the input, in order |
| GoStrings.FieldsLayout | models/rsync_config.go:64 | the input is its tokens separated by non-empty white space, with white space allowed at both ends: each token is a maximal non-space run |
| GoStrings.FieldsOfLayout | models/rsync_config.go:64 | every such layout of the input has exactly the tokens Fields returns |
| GoStrings.FieldsOfJoin | models/rsync_config.go:64 | non-empty space-free words joined by single spaces split back into the same words |
| GoStrings.Itoa | models/ssh_connection.go:34 | the decimal text is non-empty and starts with '-' exactly when the number is negative |
| GoStrings.ItoaDecimal | models/ssh_connection.go:34 | after the optional '-' come only digits whose value is the magnitude of the number, with no leading zero unless the number is 0 |
| GoStrings.Atoi | cmd/ssh/dialog.go:145 | a parsed value is a 64-bit integer read from an optional sign and decimal digits only |
| GoStrings.AtoiDigits | cmd/ssh/dialog.go:145 | digits, with no sign or with '+', parse to their value, and after '-' to its negation, leading zeros allowed, exactly when that value fits in 64 bits |
| GoStrings.AtoiItoa | cmd/ssh/dialog.go:145 | Atoi reads back what Itoa writes for every 64-bit integer |
| GoStrings.AtoiRejectsSpace | cmd/ssh/dialog.go:145 | text with white space anywhere is not a number |
| GoStrings.Utf8 | cmd/rsync/rsync_list.go:62 | the encoding has at least one byte per character |
| GoStrings.Utf8Append | cmd/rsync/rsync_list.go:65 | the encoding of a concatenation is the concatenation of the encodings |

## Left out

- Running the renderer: the binary path, `CombinedOutput` (dialog/win.go:80-82) and the marshal and unmarshal text. `Open` takes the renderer as a function from the encoded dialog to an outcome. Output that is not JSON is one case of that outcome.
- The Swift views and AppKit: panels, the pasteboard, `loadConfig`'s file fallback (dialog/dialog.swift:38-61), and the window width. The width is measured from label widths with a system font (dialog/dialog.swift:580-588). Widths and heights are modelled as integers.
- The dialog-showing functions in cmd/ssh/dialog.go (lines 16-121): the database lookup and the error wrapping. The form is modelled by its answers (`SshDialog.Prefill`, `SshDialog.Answer`) and the answer map onwards (`SshDialog.ReadForm`). Going from the Go field list to the renderer's own fields is not modelled, so `SshDialog.UpdateFromUntouchedForm` takes the reported answers as its precondition.
- Database access: `db.Create`, `services.UpdateConnection`, listing connections and configurations, usage counters, timestamps and soft deletion. A record's id is 0 until the database assigns one.
- SshDialog.Record: a form builds its record with usage count 0. What the database then does with the stored counter is not modelled.
- The file write, directory creation and home-directory lookup of `syncToSSHConfig` (cmd/sshsync.go:34-46, 73).
- The copies of `truncateString` in cmd/list.go:47-52 and cmd/ssh/list.go:49-54. They are identical to the modelled one.
- The cobra command wiring, the Fyne dialogs (ui/) and the printing in cmd/.
- `WithVisibleWhen` is not part of this model. The `FieldOption` type has no visibility option, so a rule is set on the `Field` value directly. The renderer drops the attribute.
- FieldBase.ParseFilePickerKind: Go's `FilePickerType` is a free string. The model has only the two declared kinds, plus absent for the empty string.
- GoStrings.Atoi: ports are not checked against the TCP range. Neither is the source's. Go's `int` is taken as 64 bits wide.
- Go strings that are not valid UTF-8 are not modelled. A Go string is a sequence of Unicode scalar values and is encoded to bytes only where `truncateString` counts and cuts bytes.
- Swift's `lowercased()` is modelled on ASCII letters. No character outside ASCII lower-cases to one of t, r, u, e, so the comparison with "true" comes out the same.
- RsyncList.Subtitle: the item mapping uses the corrected `RsyncList.TruncateRunes`, not the byte cut as written (see Findings). The two agree whenever byte n-3 starts a character (`RsyncList.TruncateAgrees`).
- Renderer.SortByOrder: the sort is an insertion sort. Swift's `sorted()` is not stable. The two agree whenever orders are distinct (`Renderer.SortedPermutationUnique`), and for repeated orders the model fixes one of the layouts Swift may produce.

## Findings

| source | as written | input that shows it | evidently intended | confidence | as-written member | corrected member |
|---|---|---|---|---|---|---|
| cmd/rsync/rsync_list.go:61-66 | `s[:length-3] + "..."` cuts at a byte position, which can fall inside a multi-byte UTF-8 character | a path of 26 ASCII letters followed by 网站 (32 bytes), cut to 30: the 27 bytes kept end with the first byte of 网 | cut at the last character boundary at or before byte n-3, so the subtitle stays valid text | not executed | RsyncList.TruncateSplitsCharacter | RsyncList.TruncateRunesFramed |
