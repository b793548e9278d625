/** The stored SSH connection record (models/ssh_connection.go) and the
    strings and maps the launcher reads from it. */
module SshConnection {
  import opened Wrappers
  import opened GoStrings

  /** The stored password-type tags. The column is a free string, so a record
      read back may hold anything; these two are what the dialogs write. */
  const PasswordTypePassword: string := "password"
  const PasswordTypeKeyPath: string := "keypath"

  lemma PasswordTypesDistinct()
    ensures PasswordTypePassword != PasswordTypeKeyPath
  {
    assert PasswordTypePassword[0] != PasswordTypeKeyPath[0];
  }

  /** The record's columns; `id` and `usageCount` are the ones the forms do
      not edit. Timestamps and soft deletion are not modelled. */
  datatype Connection = Connection(
    id: nat,
    name: string,
    address: string,
    port: int,
    username: string,
    passwordType: string,
    password: string,
    keyPath: string,
    localIP: string,
    description: string,
    usageCount: int)

  /** GetConnectionString: `name:username@address`. */
  function ConnectionString(c: Connection): (s: string)
    ensures |s| == |c.name| + |c.username| + |c.address| + 2
    ensures s[..|c.name|] == c.name && s[|c.name|] == ':'
    ensures s[|c.name| + 1..|c.name| + 1 + |c.username|] == c.username
    ensures s[|c.name| + 1 + |c.username|] == '@'
    ensures s[|s| - |c.address|..] == c.address
  {
    c.name + ":" + c.username + "@" + c.address
  }

  /** When the name holds no ':' the text before the first ':' is the
      name, so the connection string identifies its record's name. */
  lemma ConnectionStringName(c: Connection)
    requires ':' !in c.name
    ensures IndexOf(ConnectionString(c), ':') == Some(|c.name|)
  {
    var s := ConnectionString(c);
    assert s[..|c.name|] == c.name;
  }

  lemma PortReadsBack(n: int)
    ensures Int64Min <= n <= Int64Max ==> Atoi(Itoa(n)) == Some(n)
  {
    if Int64Min <= n <= Int64Max { AtoiItoa(n); }
  }

  /** GetArg: the six launcher arguments. */
  function Args(c: Connection): (a: seq<string>)
    ensures |a| == 6
    ensures a[0] == c.name && a[1] == c.address && a[3] == c.localIP && a[4] == c.username && a[5] == c.keyPath
    ensures a[2] == Itoa(c.port)
    ensures Int64Min <= c.port <= Int64Max ==> Atoi(a[2]) == Some(c.port)
  {
    PortReadsBack(c.port);
    [c.name, c.address, Itoa(c.port), c.localIP, c.username, c.keyPath]
  }

  /** GetVariables: seven workflow variables; the port in decimal. */
  function Variables(c: Connection): (v: map<string, string>)
    ensures v.Keys == {"ssh_name", "ssh_address", "ssh_port", "ssh_username",
                       "ssh_key_path", "ssh_local_ip", "ssh_desc"}
    ensures v["ssh_name"] == c.name && v["ssh_address"] == c.address
    ensures v["ssh_username"] == c.username && v["ssh_key_path"] == c.keyPath
    ensures v["ssh_local_ip"] == c.localIP && v["ssh_desc"] == c.description
    ensures v["ssh_port"] == Itoa(c.port)
    ensures Int64Min <= c.port <= Int64Max ==> Atoi(v["ssh_port"]) == Some(c.port)
  {
    PortReadsBack(c.port);
    map["ssh_name" := c.name,
        "ssh_address" := c.address,
        "ssh_port" := Itoa(c.port),
        "ssh_username" := c.username,
        "ssh_key_path" := c.keyPath,
        "ssh_local_ip" := c.localIP,
        "ssh_desc" := c.description]
  }
}
