/** The `~/.ssh/config` text generated from the stored connections
    (cmd/sshsync.go): a managed header, one Host block per connection in
    list order, and a managed footer. The builder is modelled by the list of
    strings written to it, in order. */
module SshSync {
  import opened Wrappers
  import opened GoStrings
  import opened SshConnection
  import opened Seqs

  const Header: string := "# === SSHD MANAGED CONFIG START ===\n"
  const Footer: string := "\n# === SSHD MANAGED CONFIG END ===\n"
  const IdentityPrefix: string := "    IdentityFile "

  /** A block names a key file when the record authenticates with a
      non-empty key path. */
  predicate UsesKeyFile(c: Connection)
  {
    c.passwordType == PasswordTypeKeyPath && c.keyPath != ""
  }

  /** The identity line, when there is one. */
  function IdentityWrite(c: Connection): seq<string>
  {
    if UsesKeyFile(c) then [IdentityPrefix + c.keyPath + "\n"] else []
  }

  /** The strings written for one connection, in order: its Host line
      (after a blank line), HostName, Port, User, the identity line, and two
      fixed options. */
  function BlockWrites(c: Connection): (ws: seq<string>)
    ensures |ws| == if UsesKeyFile(c) then 7 else 6
  {
    ["\nHost " + c.name + "\n"] + ["    HostName " + c.address + "\n"] + ["    Port " + Itoa(c.port) + "\n"]
    + ["    User " + c.username + "\n"] + IdentityWrite(c)
    + ["    StrictHostKeyChecking no\n"] + ["    UserKnownHostsFile /dev/null\n"]
  }

  predicate StartsWith(s: string, p: string)
  {
    |p| <= |s| && s[..|p|] == p
  }

  /** Every block opens with the record's Host, HostName, Port and User
      lines and closes with the two fixed options; the port reads back. */
  lemma BlockShape(c: Connection)
    ensures var ws := BlockWrites(c);
            && ws[0] == "\nHost " + c.name + "\n" && ws[1] == "    HostName " + c.address + "\n"
            && ws[2] == "    Port " + Itoa(c.port) + "\n" && ws[3] == "    User " + c.username + "\n"
            && ws[|ws| - 2] == "    StrictHostKeyChecking no\n"
            && ws[|ws| - 1] == "    UserKnownHostsFile /dev/null\n"
    ensures Int64Min <= c.port <= Int64Max ==> Atoi(Itoa(c.port)) == Some(c.port)
  {
    PortReadsBack(c.port);
  }

  /** A block holds an IdentityFile line exactly when the record uses a key
      file, and that line names the record's key path. */
  lemma IdentityLineIff(c: Connection)
    ensures UsesKeyFile(c) <==> exists k :: 0 <= k < |BlockWrites(c)| && StartsWith(BlockWrites(c)[k], IdentityPrefix)
    ensures UsesKeyFile(c) ==> BlockWrites(c)[4] == IdentityPrefix + c.keyPath + "\n"
  {
    var ws := BlockWrites(c);
    if UsesKeyFile(c) {
      assert ws[4][..|IdentityPrefix|] == IdentityPrefix;
      assert StartsWith(ws[4], IdentityPrefix);
    } else {
      forall k | 0 <= k < |ws| ensures !StartsWith(ws[k], IdentityPrefix) {
        // The first or the fifth character tells the fixed prefixes apart.
        if k == 0 { assert ws[k][0] != IdentityPrefix[0]; }
        else { assert ws[k][4] != IdentityPrefix[4]; }
      }
    }
  }

  /** The strings written for a list of connections, block after block. */
  function Writes(cs: seq<Connection>): seq<string>
    decreases |cs|
  {
    if cs == [] then [] else Writes(cs[..|cs| - 1]) + BlockWrites(cs[|cs| - 1])
  }

  lemma WritesStep(cs: seq<Connection>, i: nat)
    requires i < |cs|
    ensures Writes(cs[..i + 1]) == Writes(cs[..i]) + BlockWrites(cs[i])
  {
    assert cs[..i + 1][..i] == cs[..i];
  }

  /** The blocks of two lists one after the other are the blocks of the
      joined list: one block per connection, in order. */
  lemma {:induction false} WritesAppend(a: seq<Connection>, b: seq<Connection>)
    ensures Writes(a + b) == Writes(a) + Writes(b)
    decreases |b|
  {
    if b == [] {
      assert a + b == a;
    } else {
      var n := |b| - 1;
      WritesAppend(a, b[..n]);
      assert (a + b)[..|a + b| - 1] == a + b[..n];
      Associative(Writes(a), Writes(b[..n]), BlockWrites(b[n]));
    }
  }

  /** The whole managed text: header, blocks, footer. */
  function ConfigText(cs: seq<Connection>): (t: string)
    ensures StartsWith(t, Header)
    ensures |t| >= |Header| + |Footer| && t[|t| - |Footer|..] == Footer
  {
    var t := Concat([Header] + Writes(cs) + [Footer]);
    ConcatAppend([Header] + Writes(cs), [Footer]);
    ConcatAppend([Header], Writes(cs));
    assert Concat([Footer]) == Footer + "";
    assert Concat([Header]) == Header + "";
    t
  }

  /** Writing one more string to the builder. */
  lemma WriteOne(written: seq<string>, text: string, w: string)
    requires text == Concat(written)
    ensures text + w == Concat(written + [w])
  {
    ConcatAppend(written, [w]);
    assert Concat([w]) == w + "";
  }

  /** The builder loop of syncToSSHConfig: one WriteString per line, the
      identity line only for a key-file record. */
  method SyncText(connections: seq<Connection>) returns (text: string)
    ensures text == ConfigText(connections)
  {
    ghost var written := [Header];
    assert Concat(written) == Header + "";
    text := Header;
    for i := 0 to |connections|
      invariant written == [Header] + Writes(connections[..i])
      invariant text == Concat(written)
    {
      var conn := connections[i];
      ghost var start := written;
      var w := "\nHost " + conn.name + "\n";
      WriteOne(written, text, w); text := text + w; written := written + [w];
      ghost var block := [w];
      w := "    HostName " + conn.address + "\n";
      WriteOne(written, text, w); text := text + w; written := written + [w];
      Associative(start, block, [w]); block := block + [w];
      w := "    Port " + Itoa(conn.port) + "\n";
      WriteOne(written, text, w); text := text + w; written := written + [w];
      Associative(start, block, [w]); block := block + [w];
      w := "    User " + conn.username + "\n";
      WriteOne(written, text, w); text := text + w; written := written + [w];
      Associative(start, block, [w]); block := block + [w];
      ghost var fixedLines := block;
      if conn.passwordType == "keypath" && conn.keyPath != "" {
        w := IdentityPrefix + conn.keyPath + "\n";
        WriteOne(written, text, w); text := text + w; written := written + [w];
        Associative(start, block, [w]); block := block + [w];
        assert block == fixedLines + IdentityWrite(conn);
      } else {
        assert block == fixedLines + IdentityWrite(conn);
      }
      w := "    StrictHostKeyChecking no\n";
      WriteOne(written, text, w); text := text + w; written := written + [w];
      Associative(start, block, [w]); block := block + [w];
      w := "    UserKnownHostsFile /dev/null\n";
      WriteOne(written, text, w); text := text + w; written := written + [w];
      Associative(start, block, [w]); block := block + [w];
      assert block == BlockWrites(conn);
      WritesStep(connections, i);
      Associative([Header], Writes(connections[..i]), BlockWrites(conn));
    }
    Whole(connections);
    WriteOne(written, text, Footer);
    text := text + Footer;
  }
}
