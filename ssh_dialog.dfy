/** The SSH connection forms (cmd/ssh/dialog.go): reading the renderer's
    answer with a "default on miss" accessor, and turning the answer into a
    connection record, or an error, before it is stored. */
module SshDialog {
  import opened Wrappers
  import opened Json
  import opened GoStrings
  import opened SshConnection

  /** getStringValue: the string under `key`, or "" when the key is missing
      or holds something other than a string. Never an error. */
  function GetStringValue(result: map<string, Value>, key: string): (s: string)
    ensures key in result && result[key].Str? ==> s == result[key].s
    ensures !(key in result && result[key].Str?) ==> s == ""
  {
    if key in result && result[key].Str? then result[key].s else ""
  }

  /** The form's answer, as the nine strings the command reads from it. */
  datatype FormInput = FormInput(
    name: string,
    address: string,
    port: string,
    username: string,
    localIP: string,
    passwordType: string,
    password: string,
    keyPath: string,
    description: string)

  /** The answer map a form reports when its nine fields hold `in_`: each
      binding key with its field's text. */
  function Answer(in_: FormInput): map<string, Value>
  {
    map["name" := Str(in_.name), "address" := Str(in_.address), "port" := Str(in_.port),
        "username" := Str(in_.username), "localIP" := Str(in_.localIP),
        "passwordType" := Str(in_.passwordType), "password" := Str(in_.password),
        "keyPath" := Str(in_.keyPath), "description" := Str(in_.description)]
  }

  /** The nine answers read from a decoded result: under each binding key
      the string stored there, or "" when it is missing or not a string. */
  function ReadForm(result: map<string, Value>): (r: FormInput)
    ensures forall k :: k in Answer(r) && k in result && result[k].Str? ==> Answer(r)[k] == result[k]
    ensures forall k :: k in Answer(r) && !(k in result && result[k].Str?) ==> Answer(r)[k] == Str("")
  {
    FormInput(GetStringValue(result, "name"), GetStringValue(result, "address"),
              GetStringValue(result, "port"), GetStringValue(result, "username"),
              GetStringValue(result, "localIP"), GetStringValue(result, "passwordType"),
              GetStringValue(result, "password"), GetStringValue(result, "keyPath"),
              GetStringValue(result, "description"))
  }

  datatype ConnError = BlankRequired | InvalidPort

  /** The segmented control's label for the password credential. */
  const PasswordLabel: string := "密码"
  /** The label for the key-file credential. */
  const KeyLabel: string := "私钥"

  /** Any label but "密码" stores a key path. */
  function StoredPasswordType(choice: string): (t: string)
    ensures t == PasswordTypePassword <==> choice == PasswordLabel
    ensures t == PasswordTypeKeyPath <==> choice != PasswordLabel
  {
    PasswordTypesDistinct();
    if choice == PasswordLabel then PasswordTypePassword else PasswordTypeKeyPath
  }

  /** A name, address and user name that are all non-blank. */
  predicate RequiredPresent(in_: FormInput)
  {
    TrimSpace(in_.name) != "" && TrimSpace(in_.address) != "" && TrimSpace(in_.username) != ""
  }

  /** The port text actually parsed: "22" when the answer is blank. */
  function PortText(port: string): (p: string)
    ensures AllSpace(port) ==> p == "22"
    ensures !AllSpace(port) ==> p == port
  {
    TrimSpaceBlank(port);
    if TrimSpace(port) == "" then "22" else port
  }

  /** The validation shared by save and update: blank required fields first,
      then the port. On success, the port number. */
  function CheckInput(in_: FormInput): (r: Result<int, ConnError>)
    ensures r == Failure(BlankRequired) <==> !RequiredPresent(in_)
    ensures r == Failure(InvalidPort) <==> RequiredPresent(in_) && Atoi(PortText(in_.port)).None?
    ensures r.Success? ==> Some(r.value) == Atoi(PortText(in_.port))
  {
    if !RequiredPresent(in_) then Failure(BlankRequired)
    else match Atoi(PortText(in_.port))
      case None => Failure(InvalidPort)
      case Some(n) => Success(n)
  }

  /** The record both forms build: trimmed text columns, the stored
      password type, and the credential matching that type (the password as
      typed, the key path trimmed); the other credential is "". The save form
      leaves it at its zero value and the update form clears it explicitly,
      so the two forms build the same record apart from the id. */
  function Record(id: nat, in_: FormInput, port: int): (c: Connection)
    ensures c.id == id && c.port == port && c.usageCount == 0
    ensures c.name == TrimSpace(in_.name) && c.address == TrimSpace(in_.address)
    ensures c.username == TrimSpace(in_.username) && c.localIP == TrimSpace(in_.localIP)
    ensures c.description == TrimSpace(in_.description)
    ensures c.passwordType == StoredPasswordType(in_.passwordType)
    ensures in_.passwordType == PasswordLabel ==> c.password == in_.password && c.keyPath == ""
    ensures in_.passwordType != PasswordLabel ==> c.password == "" && c.keyPath == TrimSpace(in_.keyPath)
  {
    Connection(id, TrimSpace(in_.name), TrimSpace(in_.address), port, TrimSpace(in_.username),
               StoredPasswordType(in_.passwordType),
               if in_.passwordType == PasswordLabel then in_.password else "",
               if in_.passwordType == PasswordLabel then "" else TrimSpace(in_.keyPath),
               TrimSpace(in_.localIP), TrimSpace(in_.description), 0)
  }

  /** What saveConnection hands to the database, or its error. The database
      assigns the id; it is 0 here. */
  function SavedRecord(in_: FormInput): Result<Connection, ConnError>
  {
    match CheckInput(in_)
    case Failure(e) => Failure(e)
    case Success(port) => Success(Record(0, in_, port))
  }

  /** What updateConnection hands to the database, or its error. */
  function UpdatedRecord(id: nat, in_: FormInput): Result<Connection, ConnError>
  {
    match CheckInput(in_)
    case Failure(e) => Failure(e)
    case Success(port) => Success(Record(id, in_, port))
  }

  /** saveConnection up to the database call. */
  method SaveConnection(name: string, address: string, port: string, username: string, localIP: string,
                        passwordType: string, password: string, keyPath: string, description: string)
    returns (r: Result<Connection, ConnError>)
    ensures r == SavedRecord(FormInput(name, address, port, username, localIP, passwordType,
                                       password, keyPath, description))
  {
    if TrimSpace(name) == "" || TrimSpace(address) == "" || TrimSpace(username) == "" {
      return Failure(BlankRequired);
    }
    var portText := port;
    if TrimSpace(portText) == "" {
      portText := "22";
    }
    TrimSpaceBlank(port);
    var portNum := Atoi(portText);
    if portNum.None? {
      return Failure(InvalidPort);
    }
    var dbPasswordType: string;
    if passwordType == "密码" {
      dbPasswordType := PasswordTypePassword;
    } else {
      dbPasswordType := PasswordTypeKeyPath;
    }
    var conn := Connection(0, TrimSpace(name), TrimSpace(address), portNum.value, TrimSpace(username),
                           dbPasswordType, "", "", TrimSpace(localIP), TrimSpace(description), 0);
    if passwordType == "密码" {
      conn := conn.(password := password);
    } else {
      conn := conn.(keyPath := TrimSpace(keyPath));
    }
    return Success(conn);
  }

  /** updateConnection up to the database call: the record keeps `id` and
      the credential not chosen is cleared. */
  method UpdateConnection(id: nat, name: string, address: string, port: string, username: string,
                          localIP: string, passwordType: string, password: string, keyPath: string,
                          description: string)
    returns (r: Result<Connection, ConnError>)
    ensures r == UpdatedRecord(id, FormInput(name, address, port, username, localIP, passwordType,
                                             password, keyPath, description))
  {
    if TrimSpace(name) == "" || TrimSpace(address) == "" || TrimSpace(username) == "" {
      return Failure(BlankRequired);
    }
    var portText := port;
    if TrimSpace(portText) == "" {
      portText := "22";
    }
    TrimSpaceBlank(port);
    var portNum := Atoi(portText);
    if portNum.None? {
      return Failure(InvalidPort);
    }
    var dbPasswordType: string;
    if passwordType == "密码" {
      dbPasswordType := PasswordTypePassword;
    } else {
      dbPasswordType := PasswordTypeKeyPath;
    }
    var conn := Connection(0, TrimSpace(name), TrimSpace(address), portNum.value, TrimSpace(username),
                           dbPasswordType, "", "", TrimSpace(localIP), TrimSpace(description), 0);
    conn := conn.(id := id);
    if passwordType == "密码" {
      conn := conn.(password := password, keyPath := "");
    } else {
      conn := conn.(keyPath := TrimSpace(keyPath), password := "");
    }
    return Success(conn);
  }

  lemma Atoi22()
    ensures Atoi("22") == Some(22)
  {
    var s := "22";
    assert "2"[..0] == "";
    assert DigitsValue("2") == 2;
    assert s[..1] == "2";
    assert DigitsValue(s) == 22;
  }

  /** A blank port means port 22. */
  lemma BlankPortIs22(in_: FormInput)
    requires RequiredPresent(in_) && AllSpace(in_.port)
    ensures SavedRecord(in_).Success? && SavedRecord(in_).value.port == 22
  {
    Atoi22();
  }

  /** A port with white space inside or around it is rejected: only a blank
      answer is replaced, a padded number is not trimmed. */
  lemma PaddedPortRejected(in_: FormInput, k: nat)
    requires RequiredPresent(in_) && !AllSpace(in_.port) && k < |in_.port| && IsSpace(in_.port[k])
    ensures SavedRecord(in_) == Failure(InvalidPort)
  {
    AtoiRejectsSpace(in_.port, k);
  }

  /** What the stored record looks like after either form: required text
      present and trimmed, a known password type, and only the matching
      credential set. */
  predicate WellFormed(c: Connection)
  {
    && c.name != "" && c.address != "" && c.username != ""
    && Trimmed(c.name) && Trimmed(c.address) && Trimmed(c.username)
    && Trimmed(c.localIP) && Trimmed(c.description)
    && Int64Min <= c.port <= Int64Max
    && (c.passwordType == PasswordTypePassword || c.passwordType == PasswordTypeKeyPath)
    && (c.passwordType == PasswordTypePassword ==> c.keyPath == "")
    && (c.passwordType == PasswordTypeKeyPath ==> c.password == "" && Trimmed(c.keyPath))
  }

  /** Every record the update form produces is well formed. */
  lemma UpdatedRecordWellFormed(id: nat, in_: FormInput)
    requires UpdatedRecord(id, in_).Success?
    ensures WellFormed(UpdatedRecord(id, in_).value)
  {
    PasswordTypesDistinct();
    TrimSpaceBlank(in_.name);
    TrimSpaceBlank(in_.address);
    TrimSpaceBlank(in_.username);
  }

  /** The answers the update form is pre-filled with for a record: its
      columns, the port in decimal, and the credential label of its type. */
  function Prefill(c: Connection): (r: FormInput)
    ensures r.passwordType == PasswordLabel <==> c.passwordType == PasswordTypePassword
    ensures Int64Min <= c.port <= Int64Max ==> Atoi(r.port) == Some(c.port)
  {
    AtoiRange(c.port);
    FormInput(c.name, c.address, Itoa(c.port), c.username, c.localIP,
              if c.passwordType == PasswordTypePassword then PasswordLabel else KeyLabel,
              c.password, c.keyPath, c.description)
  }

  /** Submitting the update form unchanged stores the record unchanged, apart
      from the usage counter, which the form's record does not carry. */
  lemma UpdateUnchangedForm(c: Connection)
    requires WellFormed(c)
    ensures UpdatedRecord(c.id, Prefill(c)) == Success(c.(usageCount := 0))
  {
    PrefillPasses(c);
    PrefillRebuilds(c);
  }

  lemma AtoiRange(n: int)
    ensures Int64Min <= n <= Int64Max ==> Atoi(Itoa(n)) == Some(n)
  {
    if Int64Min <= n <= Int64Max { AtoiItoa(n); }
  }

  /** Reading back an answer map that holds a form's nine strings gives
      those strings, whatever other keys it has. */
  lemma ReadFormAnswer(in_: FormInput, out: map<string, Value>)
    requires forall k :: k in Answer(in_) ==> k in out && out[k] == Answer(in_)[k]
    ensures ReadForm(out) == in_
  {
    var a := Answer(in_);
    assert a["name"] == Str(in_.name) && a["address"] == Str(in_.address);
    assert a["port"] == Str(in_.port) && a["username"] == Str(in_.username);
    assert a["localIP"] == Str(in_.localIP) && a["passwordType"] == Str(in_.passwordType);
    assert a["password"] == Str(in_.password) && a["keyPath"] == Str(in_.keyPath);
    assert a["description"] == Str(in_.description);
  }

  /** OK on the untouched update form: when the renderer reports every
      field's pre-filled text, the command stores the record unchanged,
      apart from the usage counter. */
  lemma UpdateFromUntouchedForm(c: Connection, out: map<string, Value>)
    requires WellFormed(c)
    requires forall k :: k in Answer(Prefill(c)) ==> k in out && out[k] == Answer(Prefill(c))[k]
    ensures UpdatedRecord(c.id, ReadForm(out)) == Success(c.(usageCount := 0))
  {
    ReadFormAnswer(Prefill(c), out);
    UpdateUnchangedForm(c);
  }

  /** The pre-filled answers pass validation with the record's own port. */
  lemma PrefillPasses(c: Connection)
    requires WellFormed(c)
    ensures CheckInput(Prefill(c)) == Success(c.port)
  {
    TrimSpaceOfTrimmed(c.name);
    TrimSpaceOfTrimmed(c.address);
    TrimSpaceOfTrimmed(c.username);
    assert RequiredPresent(Prefill(c));
    ItoaNotBlank(c.port);
    assert PortText(Itoa(c.port)) == Itoa(c.port);
    AtoiItoa(c.port);
  }

  lemma ItoaNotBlank(n: int)
    ensures !AllSpace(Itoa(n))
  {
    if n < 0 {
      assert !IsSpace(Itoa(n)[0]);
    } else {
      assert IsDigit(Itoa(n)[0]);
    }
  }

  /** The record built from the pre-filled answers is the record itself. */
  lemma PrefillRebuilds(c: Connection)
    requires WellFormed(c)
    ensures Record(c.id, Prefill(c), c.port) == c.(usageCount := 0)
  {
    PasswordTypesDistinct();
    TrimSpaceOfTrimmed(c.name);
    TrimSpaceOfTrimmed(c.address);
    TrimSpaceOfTrimmed(c.username);
    TrimSpaceOfTrimmed(c.localIP);
    TrimSpaceOfTrimmed(c.description);
    if c.passwordType == PasswordTypeKeyPath {
      TrimSpaceOfTrimmed(c.keyPath);
      assert KeyLabel != PasswordLabel;
    }
  }
}
