/** The stored rsync configuration (models/rsync_config.go): its exclude
    rules and extra options as lists, the rsync command line it stands for,
    and the strings and variables the launcher shows. */
module RsyncConfig {
  import opened Wrappers
  import opened GoStrings
  import opened SshConnection
  import opened Seqs

  const DirectionUpload: string := "upload"
  const DirectionDownload: string := "download"

  /** The record's columns. `direction` is a free string column; the forms
      write "upload" or "download". */
  datatype Config = Config(
    name: string,
    sshName: string,
    direction: string,
    localPath: string,
    remotePath: string,
    excludeRules: string,
    options: string,
    description: string,
    usageCount: int,
    verbose: bool,
    recursive: bool,
    archive: bool,
    compress: bool,
    times: bool,
    progress: bool,
    delete: bool,
    dryRun: bool,
    checksum: bool,
    links: bool,
    perms: bool,
    owner: bool,
    group: bool)

  // ---------------------------------------------------------------------
  // GetExcludeRulesSlice

  /** The trimmed lines that are not blank, in order. */
  function KeepRules(lines: seq<string>): (rules: seq<string>)
    ensures |rules| <= |lines|
    ensures forall i :: 0 <= i < |rules| ==> rules[i] != "" && Trimmed(rules[i])
    decreases |lines|
  {
    if lines == [] then []
    else
      var kept := KeepRules(lines[..|lines| - 1]);
      var last := KeepLine(lines[|lines| - 1]);
      RulesAppend(kept, last);
      kept + last
  }

  /** One line's contribution: the line trimmed, unless that is blank. */
  function KeepLine(line: string): (last: seq<string>)
    ensures |last| <= 1 && forall i :: 0 <= i < |last| ==> last[i] != "" && Trimmed(last[i])
  {
    var t := TrimSpace(line);
    if t != "" then [t] else []
  }

  lemma RulesAppend(a: seq<string>, b: seq<string>)
    requires forall i :: 0 <= i < |a| ==> a[i] != "" && Trimmed(a[i])
    requires forall i :: 0 <= i < |b| ==> b[i] != "" && Trimmed(b[i])
    ensures forall i :: 0 <= i < |a + b| ==> (a + b)[i] != "" && Trimmed((a + b)[i])
  {
  }

  /** The exclude rules: one per non-blank line of the column, trimmed. */
  function ExcludeRules(s: string): (rules: seq<string>)
    ensures forall i :: 0 <= i < |rules| ==> rules[i] != "" && Trimmed(rules[i]) && '\n' !in rules[i]
  {
    var lines := Split(s, '\n');
    var rules := KeepRules(lines);
    KeepRulesNoNewline(lines);
    rules
  }

  /** Trimming a line without a newline gives a line without a newline. */
  lemma {:induction false} KeepRulesNoNewline(lines: seq<string>)
    requires forall i :: 0 <= i < |lines| ==> '\n' !in lines[i]
    ensures forall i :: 0 <= i < |KeepRules(lines)| ==> '\n' !in KeepRules(lines)[i]
    decreases |lines|
  {
    if lines != [] {
      var n := |lines| - 1;
      var init := lines[..n];
      assert forall i :: 0 <= i < |init| ==> init[i] == lines[i];
      KeepRulesNoNewline(init);
      var t := TrimSpace(lines[n]);
      TrimSpaceNoNewline(lines[n]);
      NoNewlineAppend(KeepRules(init), if t != "" then [t] else []);
    }
  }

  lemma TrimSpaceNoNewline(x: string)
    requires '\n' !in x
    ensures '\n' !in TrimSpace(x)
  {
    var i := |x| - |TrimLeft(x)|;
    NotInSlice(x, i, i + |TrimSpace(x)|, '\n');
  }

  lemma NoNewlineAppend(a: seq<string>, b: seq<string>)
    requires forall i :: 0 <= i < |a| ==> '\n' !in a[i]
    requires forall i :: 0 <= i < |b| ==> '\n' !in b[i]
    ensures forall i :: 0 <= i < |a + b| ==> '\n' !in (a + b)[i]
  {
  }

  /** One more line read by the loop. */
  lemma KeepRulesStep(lines: seq<string>, i: nat)
    requires i < |lines|
    ensures var t := TrimSpace(lines[i]);
            KeepRules(lines[..i + 1]) == KeepRules(lines[..i]) + (if t != "" then [t] else [])
  {
    assert lines[..i + 1][..i] == lines[..i];
  }

  /** GetExcludeRulesSlice: the loop over the column's lines. */
  method ExcludeRulesSlice(r: Config) returns (rules: seq<string>)
    ensures rules == ExcludeRules(r.excludeRules)
  {
    if r.excludeRules == "" {
      assert Split("", '\n') == [""];
      return [];
    }
    var lines := Split(r.excludeRules, '\n');
    rules := [];
    for i := 0 to |lines|
      invariant rules == KeepRules(lines[..i])
    {
      KeepRulesStep(lines, i);
      var line := TrimSpace(lines[i]);
      if line != "" {
        rules := rules + [line];
      }
    }
    Whole(lines);
  }

  lemma {:induction false} KeepRulesOfRules(rules: seq<string>)
    requires forall i :: 0 <= i < |rules| ==> rules[i] != "" && Trimmed(rules[i])
    ensures KeepRules(rules) == rules
    decreases |rules|
  {
    if rules != [] {
      var n := |rules| - 1;
      assert forall i :: 0 <= i < n ==> rules[..n][i] == rules[i];
      KeepRulesOfRules(rules[..n]);
      TrimSpaceOfTrimmed(rules[n]);
      assert KeepLine(rules[n]) == [rules[n]];
      InitLast(rules);
    }
  }

  /** Writing the rules back one per line and reading them again gives the
      same rules: the normalisation is idempotent. */
  lemma ExcludeRulesIdempotent(s: string)
    ensures ExcludeRules(JoinLines(ExcludeRules(s))) == ExcludeRules(s)
  {
    var rules := ExcludeRules(s);
    if rules == [] {
      assert Split("", '\n') == [""];
      assert KeepRules([""]) == KeepRules([]) + [] by { assert TrimSpace("") == ""; }
    } else {
      SplitJoin(rules, '\n');
      KeepRulesOfRules(rules);
    }
  }

  function JoinLines(rules: seq<string>): string
  {
    Join(rules, '\n')
  }

  // ---------------------------------------------------------------------
  // GetOptionsSlice

  /** The extra options: the column's white-space separated words. */
  function OptionsSlice(s: string): (opts: seq<string>)
    ensures forall i :: 0 <= i < |opts| ==> opts[i] != "" && NoSpace(opts[i])
    ensures Concat(opts) == RemoveSpaces(s)
  {
    FieldsKeepsNonSpace(s);
    if s == "" then [] else Fields(s)
  }

  /** The words are cut at white space only: the column is the words with
      non-empty white space between them and any white space at the ends,
      and any such reading of the column gives exactly these words. */
  lemma OptionsSliceLayout(s: string)
    ensures Layout(Gaps(s), OptionsSlice(s))
    ensures Interleave(Gaps(s), OptionsSlice(s)) == s
  {
    assert OptionsSlice(s) == Fields(s);
    FieldsLayout(s);
  }

  lemma OptionsSliceOfLayout(gaps: seq<string>, words: seq<string>)
    requires Layout(gaps, words)
    ensures OptionsSlice(Interleave(gaps, words)) == words
  {
    FieldsOfLayout(gaps, words);
  }

  /** Options written one space apart come back as the same words. */
  lemma OptionsSliceOfJoin(words: seq<string>)
    requires forall i :: 0 <= i < |words| ==> words[i] != "" && NoSpace(words[i])
    ensures OptionsSlice(Join(words, ' ')) == words
  {
    FieldsOfJoin(words);
  }

  // ---------------------------------------------------------------------
  // BuildRsyncCommand

  function Flag(set_: bool, flag: string): seq<string>
  {
    if set_ then [flag] else []
  }

  /** The options archive mode stands for: "-a" alone, or -r, -l, -p, -t,
      -o and -g one by one. */
  function ImpliedFlags(r: Config): seq<string>
  {
    if r.archive then ["-a"]
    else Flag(r.recursive, "-r") + Flag(r.links, "-l") + Flag(r.perms, "-p")
         + Flag(r.times, "-t") + Flag(r.owner, "-o") + Flag(r.group, "-g")
  }

  /** The short options: those archive mode stands for, then -v, -z, -c. */
  function ShortFlags(r: Config): seq<string>
  {
    ImpliedFlags(r) + Flag(r.verbose, "-v") + Flag(r.compress, "-z") + Flag(r.checksum, "-c")
  }

  lemma InFlag(b: bool, f: string, x: string)
    ensures x in Flag(b, f) <==> b && x == f
  {
  }

  lemma {:induction false} InImpliedFlags(r: Config, x: string)
    ensures x in ImpliedFlags(r) <==>
      || (r.archive && x == "-a")
      || (!r.archive && ((r.recursive && x == "-r") || (r.links && x == "-l") || (r.perms && x == "-p")
                         || (r.times && x == "-t") || (r.owner && x == "-o") || (r.group && x == "-g")))
  {
    if !r.archive {
      InFlag(r.recursive, "-r", x);
      InFlag(r.links, "-l", x);
      InFlag(r.perms, "-p", x);
      InFlag(r.times, "-t", x);
      InFlag(r.owner, "-o", x);
      InFlag(r.group, "-g", x);
    }
  }

  /** Which strings the short options hold. */
  lemma {:induction false} InShortFlags(r: Config, x: string)
    ensures x in ShortFlags(r) <==>
      || x in ImpliedFlags(r)
      || (r.verbose && x == "-v") || (r.compress && x == "-z") || (r.checksum && x == "-c")
  {
    InFlag(r.verbose, "-v", x);
    InFlag(r.compress, "-z", x);
    InFlag(r.checksum, "-c", x);
  }

  /** Archive mode: "-a" is present exactly when it is set, and then none of
      the six options it implies is listed on its own. */
  lemma ArchiveImplies(r: Config)
    ensures "-a" in ShortFlags(r) <==> r.archive
    ensures r.archive ==> forall f :: f in ["-r", "-l", "-p", "-t", "-o", "-g"] ==> f !in ShortFlags(r)
  {
    InShortFlags(r, "-a");
    InImpliedFlags(r, "-a");
    assert "-a" != "-v" && "-a" != "-z" && "-a" != "-c";
    assert "-a" != "-r" && "-a" != "-l" && "-a" != "-p" && "-a" != "-t" && "-a" != "-o" && "-a" != "-g";
    if r.archive {
      forall f | f in ["-r", "-l", "-p", "-t", "-o", "-g"] ensures f !in ShortFlags(r) {
        InShortFlags(r, f);
        InImpliedFlags(r, f);
        assert |f| == 2 && f[1] in "rlptog";
      }
    }
  }

  /** Without archive mode each of the six options appears exactly when its
      own flag is set. */
  lemma WithoutArchive(r: Config, x: string, set_: bool)
    requires !r.archive
    requires (x, set_) in [("-r", r.recursive), ("-l", r.links), ("-p", r.perms),
                           ("-t", r.times), ("-o", r.owner), ("-g", r.group)]
    ensures x in ShortFlags(r) <==> set_
  {
    InShortFlags(r, x);
    InImpliedFlags(r, x);
    assert |x| == 2 && x[1] in "rlptog";
  }

  /** -v, -z and -c appear exactly when their flags are set, archive or not. */
  lemma OtherShortFlags(r: Config, x: string, set_: bool)
    requires (x, set_) in [("-v", r.verbose), ("-z", r.compress), ("-c", r.checksum)]
    ensures x in ShortFlags(r) <==> set_
  {
    InShortFlags(r, x);
    InImpliedFlags(r, x);
    assert |x| == 2 && x[1] in "vzc";
  }

  /** One "--exclude", rule pair per rule. */
  function ExcludeArgs(rules: seq<string>): (args: seq<string>)
    ensures |args| == 2 * |rules|
    decreases |rules|
  {
    if rules == [] then [] else ExcludeArgs(rules[..|rules| - 1]) + ["--exclude", rules[|rules| - 1]]
  }

  lemma {:induction false} ExcludeArgsAt(rules: seq<string>, i: nat)
    requires i < |rules|
    ensures ExcludeArgs(rules)[2 * i] == "--exclude" && ExcludeArgs(rules)[2 * i + 1] == rules[i]
    decreases |rules|
  {
    var n := |rules| - 1;
    if i < n {
      ExcludeArgsAt(rules[..n], i);
      assert ExcludeArgs(rules)[2 * i] == ExcludeArgs(rules[..n])[2 * i];
      assert ExcludeArgs(rules)[2 * i + 1] == ExcludeArgs(rules[..n])[2 * i + 1];
    }
  }

  lemma ExcludeArgsStep(rules: seq<string>, i: nat)
    requires i < |rules|
    ensures ExcludeArgs(rules[..i + 1]) == ExcludeArgs(rules[..i]) + ["--exclude", rules[i]]
  {
    assert rules[..i + 1][..i] == rules[..i];
  }

  /** The remote side of the transfer: `user@address:path`. */
  function RemoteSpec(r: Config, c: Connection): string
  {
    c.username + "@" + c.address + ":" + r.remotePath
  }

  /** The options of the remote shell: the port, and the key file when
      the connection authenticates with one. */
  function SshOptions(c: Connection): string
  {
    if c.passwordType == PasswordTypeKeyPath && c.keyPath != "" then "-p " + Itoa(c.port) + " -i " + c.keyPath
    else "-p " + Itoa(c.port)
  }

  /** The "-e" argument. */
  function SshCommand(c: Connection): string
  {
    "ssh " + SshOptions(c)
  }

  /** The remote shell options start with the port, and go on with the key
      file exactly when the connection authenticates with a non-empty one. */
  lemma SshOptionsKey(c: Connection)
    ensures var base := "-p " + Itoa(c.port);
            && |SshOptions(c)| >= |base| && SshOptions(c)[..|base|] == base
            && (|SshOptions(c)| > |base| <==> c.passwordType == PasswordTypeKeyPath && c.keyPath != "")
            && SshOptions(c) == base + (if c.passwordType == PasswordTypeKeyPath && c.keyPath != ""
                                        then " -i " + c.keyPath else "")
  {
    var base := "-p " + Itoa(c.port);
    if c.passwordType == PasswordTypeKeyPath && c.keyPath != "" {
      assert SshOptions(c) == base + (" -i " + c.keyPath);
    } else {
      assert SshOptions(c) == base + "";
    }
  }

  /** Source then destination: local first for an upload, remote first for
      anything else. */
  function Endpoints(r: Config, c: Connection): (e: seq<string>)
    ensures |e| == 2
    ensures r.direction == DirectionUpload ==> e == [r.localPath, RemoteSpec(r, c)]
    ensures r.direction != DirectionUpload ==> e == [RemoteSpec(r, c), r.localPath]
  {
    if r.direction == DirectionUpload then [r.localPath, RemoteSpec(r, c)] else [RemoteSpec(r, c), r.localPath]
  }

  /** The options part of the command line: the program name, the short
      options, the long options, then the extra options. */
  function OptionPart(r: Config): (p: seq<string>)
    ensures |p| >= 1 + |ShortFlags(r)| && p[0] == "rsync"
  {
    ["rsync"] + ShortFlags(r)
    + Flag(r.progress, "--progress") + Flag(r.delete, "--delete") + Flag(r.dryRun, "--dry-run")
    + OptionsSlice(r.options)
  }

  /** The names whose switch is on, in the order given. */
  function Selected(flags: seq<(string, bool)>): (names: seq<string>)
    ensures |names| <= |flags|
    ensures forall x :: x in names <==> exists i :: 0 <= i < |flags| && flags[i].1 && flags[i].0 == x
  {
    if flags == [] then []
    else
      var rest := Selected(flags[1..]);
      assert forall i :: 1 <= i < |flags| ==> flags[i] == flags[1..][i - 1];
      (if flags[0].1 then [flags[0].0] else []) + rest
  }

  function LongOptions(r: Config): seq<(string, bool)>
  {
    [("--progress", r.progress), ("--delete", r.delete), ("--dry-run", r.dryRun)]
  }

  /** The options part in order: "rsync" and the short options, then the
      long options that are set in the order progress, delete, dry run, and
      last the extra options. */
  lemma OptionPartOrder(r: Config)
    ensures var s := 1 + |ShortFlags(r)|; var l := Selected(LongOptions(r)); var p := OptionPart(r);
      && |p| == s + |l| + |OptionsSlice(r.options)|
      && p[..s] == ["rsync"] + ShortFlags(r)
      && p[s..s + |l|] == l
      && p[s + |l|..] == OptionsSlice(r.options)
  {
    SelectedLong(r);
    var a := ["rsync"] + ShortFlags(r);
    var x, y, z := Flag(r.progress, "--progress"), Flag(r.delete, "--delete"), Flag(r.dryRun, "--dry-run");
    Associative(a, x + y, z);
    Associative(a, x, y);
    ThreeSlices(a, x + y + z, OptionsSlice(r.options));
  }

  lemma SelectedLong(r: Config)
    ensures Selected(LongOptions(r))
      == Flag(r.progress, "--progress") + Flag(r.delete, "--delete") + Flag(r.dryRun, "--dry-run")
  {
    var fs := LongOptions(r);
    var f1: seq<(string, bool)> := [("--delete", r.delete), ("--dry-run", r.dryRun)];
    var f2: seq<(string, bool)> := [("--dry-run", r.dryRun)];
    assert fs[1..] == f1 && f1[1..] == f2 && f2[1..] == [];
    assert Selected(f2) == Flag(r.dryRun, "--dry-run") + [];
    assert Selected(f1) == Flag(r.delete, "--delete") + Flag(r.dryRun, "--dry-run");
  }

  /** A long option is in the options part exactly when its flag is set,
      unless the extra options spell it out themselves. */
  lemma LongFlags(r: Config, x: string, set_: bool)
    requires (x, set_) in [("--progress", r.progress), ("--delete", r.delete), ("--dry-run", r.dryRun)]
    ensures x in OptionPart(r) <==> set_ || x in OptionsSlice(r.options)
  {
    InShortFlags(r, x);
    InImpliedFlags(r, x);
    InFlag(r.progress, "--progress", x);
    InFlag(r.delete, "--delete", x);
    InFlag(r.dryRun, "--dry-run", x);
  }

  /** The command line: options, exclude pairs, the remote shell, and the
      two endpoints. */
  function Command(r: Config, c: Connection): (cmd: seq<string>)
    ensures |cmd| == |OptionPart(r)| + 2 * |ExcludeRules(r.excludeRules)| + 4
  {
    OptionPart(r) + ExcludeArgs(ExcludeRules(r.excludeRules)) + ["-e", SshCommand(c)] + Endpoints(r, c)
  }

  /** The command starts with the program and ends with the remote shell
      option and the two endpoints. */
  lemma CommandEnds(r: Config, c: Connection)
    ensures var cmd := Command(r, c);
            && cmd[0] == "rsync"
            && cmd[|cmd| - 4] == "-e" && cmd[|cmd| - 3] == SshCommand(c)
            && cmd[|cmd| - 2] == Endpoints(r, c)[0] && cmd[|cmd| - 1] == Endpoints(r, c)[1]
  {
    var p := OptionPart(r);
    var head := p + ExcludeArgs(ExcludeRules(r.excludeRules));
    var tail := ["-e", SshCommand(c)] + Endpoints(r, c);
    Associative(head, ["-e", SshCommand(c)], Endpoints(r, c));
    IndexRight(head, tail, 0);
    IndexRight(head, tail, 1);
    IndexRight(head, tail, 2);
    IndexRight(head, tail, 3);
    assert Command(r, c)[0] == p[0];
  }

  /** The short options follow the program name directly. */
  lemma CommandShortFlags(r: Config, c: Connection, k: nat)
    requires k < |ShortFlags(r)|
    ensures Command(r, c)[1 + k] == ShortFlags(r)[k]
  {
    var q := ["rsync"] + ShortFlags(r);
    var q1 := q + Flag(r.progress, "--progress");
    var q2 := q1 + Flag(r.delete, "--delete");
    var q3 := q2 + Flag(r.dryRun, "--dry-run");
    var p := q3 + OptionsSlice(r.options);
    var x := ExcludeArgs(ExcludeRules(r.excludeRules));
    IndexRight(["rsync"], ShortFlags(r), k);
    IndexLeft(q, Flag(r.progress, "--progress"), 1 + k);
    IndexLeft(q1, Flag(r.delete, "--delete"), 1 + k);
    IndexLeft(q2, Flag(r.dryRun, "--dry-run"), 1 + k);
    IndexLeft(q3, OptionsSlice(r.options), 1 + k);
    IndexLeft(p, x, 1 + k);
    IndexLeft(p + x, ["-e", SshCommand(c)], 1 + k);
    IndexLeft(p + x + ["-e", SshCommand(c)], Endpoints(r, c), 1 + k);
  }

  /** Each exclude rule sits right after its own "--exclude", in the order
      of the lines, just after the options part. */
  lemma CommandExcludes(r: Config, c: Connection, i: nat)
    requires i < |ExcludeRules(r.excludeRules)|
    ensures var o := |OptionPart(r)|;
            Command(r, c)[o + 2 * i] == "--exclude" && Command(r, c)[o + 2 * i + 1] == ExcludeRules(r.excludeRules)[i]
  {
    var rules := ExcludeRules(r.excludeRules);
    var p := OptionPart(r);
    var x := ExcludeArgs(rules);
    var tail := ["-e", SshCommand(c)] + Endpoints(r, c);
    ExcludeArgsAt(rules, i);
    Associative(p + x, ["-e", SshCommand(c)], Endpoints(r, c));
    Associative(p, x, tail);
    IndexRight(p, x + tail, 2 * i);
    IndexRight(p, x + tail, 2 * i + 1);
  }

  /** The first half of BuildRsyncCommand: the program name and the
      options, appended one by one. */
  method AppendOptions(r: Config) returns (cmd: seq<string>)
    ensures cmd == OptionPart(r)
  {
    cmd := ["rsync"];
    // Each `if <flag> { append <option> }` of the source appends Flag(...).
    var options: seq<string>;
    if r.archive {
      options := ["-a"];
    } else {
      options := Flag(r.recursive, "-r");
      options := options + Flag(r.links, "-l");
      options := options + Flag(r.perms, "-p");
      options := options + Flag(r.times, "-t");
      options := options + Flag(r.owner, "-o");
      options := options + Flag(r.group, "-g");
    }
    assert options == ImpliedFlags(r);
    options := options + Flag(r.verbose, "-v");
    options := options + Flag(r.compress, "-z");
    options := options + Flag(r.checksum, "-c");
    assert options == ShortFlags(r);
    if |options| > 0 {
      cmd := cmd + options;
    } else {
      assert options == [];
    }
    assert cmd == ["rsync"] + ShortFlags(r);
    cmd := cmd + Flag(r.progress, "--progress");
    cmd := cmd + Flag(r.delete, "--delete");
    cmd := cmd + Flag(r.dryRun, "--dry-run");
    if r.options != "" {
      cmd := cmd + OptionsSlice(r.options);
    } else {
      assert OptionsSlice(r.options) == [];
    }
  }

  /** The middle of BuildRsyncCommand: one "--exclude", rule pair per
      exclude rule, appended in order. */
  method AppendExcludeRules(r: Config, prefix: seq<string>) returns (cmd: seq<string>)
    ensures cmd == prefix + ExcludeArgs(ExcludeRules(r.excludeRules))
  {
    cmd := prefix;
    var excludeRules := ExcludeRulesSlice(r);
    for i := 0 to |excludeRules|
      invariant cmd == prefix + ExcludeArgs(excludeRules[..i])
    {
      ExcludeArgsStep(excludeRules, i);
      Associative(prefix, ExcludeArgs(excludeRules[..i]), ["--exclude", excludeRules[i]]);
      cmd := cmd + ["--exclude", excludeRules[i]];
    }
    Whole(excludeRules);
  }

  /** BuildRsyncCommand: the options, then the exclude pairs, the remote
      shell and the endpoints, appended one by one. */
  method BuildRsyncCommand(r: Config, c: Connection) returns (cmd: seq<string>)
    ensures cmd == Command(r, c)
  {
    cmd := AppendOptions(r);
    cmd := AppendExcludeRules(r, cmd);
    var sshOptions := "-p " + Itoa(c.port);
    if c.passwordType == PasswordTypeKeyPath && c.keyPath != "" {
      sshOptions := sshOptions + " -i " + c.keyPath;
    }
    assert sshOptions == SshOptions(c);
    cmd := cmd + ["-e", "ssh " + sshOptions];
    ghost var beforeEndpoints := cmd;
    if r.direction == DirectionUpload {
      cmd := cmd + [r.localPath];
      cmd := cmd + [c.username + "@" + c.address + ":" + r.remotePath];
    } else {
      cmd := cmd + [c.username + "@" + c.address + ":" + r.remotePath];
      cmd := cmd + [r.localPath];
    }
    AppendPair(beforeEndpoints, Endpoints(r, c));
  }

  // ---------------------------------------------------------------------
  // Display strings and workflow variables.

  /** The download variant of a display string for "download", the upload
      variant for anything else. */
  function ByDirection(direction: string, down: string, up: string): (s: string)
    ensures s == (if direction == DirectionDownload then down else up)
  {
    if direction == DirectionDownload then down else up
  }

  /** The arrow shown for a direction: down for a download, up otherwise. */
  function Arrow(direction: string): (a: string)
    ensures a == "↓" <==> direction == DirectionDownload
    ensures a == "↑" <==> direction != DirectionDownload
  {
    ByDirection(direction, "↓", "↑")
  }

  /** GetDisplayInfo: `<arrow> <name> [<ssh name>] <local> <-> <remote>`. */
  function DisplayInfo(r: Config): (s: string)
    ensures |s| > 0 && (s[0] == '↓' <==> r.direction == DirectionDownload)
    ensures |s| == 11 + |r.name| + |r.sshName| + |r.localPath| + |r.remotePath|
    ensures s[1] == ' ' && s[2..2 + |r.name|] == r.name
    ensures s[2 + |r.name|..4 + |r.name|] == " ["
    ensures s[4 + |r.name|..4 + |r.name| + |r.sshName|] == r.sshName
    ensures var h := 4 + |r.name| + |r.sshName|;
      && s[h..h + 2] == "] " && s[h + 2..h + 2 + |r.localPath|] == r.localPath
      && s[h + 2 + |r.localPath|..h + 7 + |r.localPath|] == " <-> "
    ensures s[|s| - |r.remotePath|..] == r.remotePath
  {
    Arrow(r.direction) + " " + r.name + " [" + r.sshName + "] " + r.localPath + " <-> " + r.remotePath
  }

  /** GetArg: the record's name alone. */
  function Args(r: Config): (a: seq<string>)
    ensures a == [r.name]
  {
    [r.name]
  }

  /** GetVariables: nine workflow variables; the direction normalised to
      "download" or "upload", the usage count in decimal. */
  function Variables(r: Config): (v: map<string, string>)
    ensures v.Keys == {"rsync_name", "rsync_ssh_name", "rsync_direction", "rsync_local_path",
                       "rsync_remote_path", "rsync_exclude", "rsync_options", "rsync_description",
                       "rsync_usage_count"}
    ensures v["rsync_direction"] == (if r.direction == DirectionDownload then "download" else "upload")
    ensures v["rsync_name"] == r.name && v["rsync_ssh_name"] == r.sshName
    ensures v["rsync_local_path"] == r.localPath && v["rsync_remote_path"] == r.remotePath
    ensures v["rsync_exclude"] == r.excludeRules && v["rsync_options"] == r.options
    ensures v["rsync_description"] == r.description
    ensures v["rsync_usage_count"] == Itoa(r.usageCount)
    ensures Int64Min <= r.usageCount <= Int64Max ==> Atoi(v["rsync_usage_count"]) == Some(r.usageCount)
  {
    PortReadsBack(r.usageCount);
    map["rsync_name" := r.name,
        "rsync_ssh_name" := r.sshName,
        "rsync_direction" := if r.direction == DirectionDownload then "download" else "upload",
        "rsync_local_path" := r.localPath,
        "rsync_remote_path" := r.remotePath,
        "rsync_exclude" := r.excludeRules,
        "rsync_options" := r.options,
        "rsync_description" := r.description,
        "rsync_usage_count" := Itoa(r.usageCount)]
  }

  /** For the two directions the forms write, what is shown agrees with what
      is run: a download is shown with "↓", reported as "download", and
      copies from the remote side; an upload is shown with "↑", reported as
      "upload", and copies from the local side. */
  lemma DirectionAgrees(r: Config, c: Connection)
    requires r.direction == DirectionUpload || r.direction == DirectionDownload
    ensures Arrow(r.direction) == "↓" <==> Variables(r)["rsync_direction"] == "download"
    ensures Arrow(r.direction) == "↓" ==> Endpoints(r, c) == [RemoteSpec(r, c), r.localPath]
    ensures Arrow(r.direction) == "↑" ==> Endpoints(r, c) == [r.localPath, RemoteSpec(r, c)]
  {
    assert DirectionUpload != DirectionDownload by { assert DirectionUpload[0] != DirectionDownload[0]; }
  }

  /** Any other direction string is shown and reported as an upload, while
      the command copies from the remote side, as a download does. */
  lemma UnknownDirection(r: Config, c: Connection)
    requires r.direction != DirectionUpload && r.direction != DirectionDownload
    ensures Arrow(r.direction) == "↑" && Variables(r)["rsync_direction"] == "upload"
    ensures Endpoints(r, c) == [RemoteSpec(r, c), r.localPath]
  {
  }
}
