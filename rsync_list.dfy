/** The rsync list items (cmd/rsync/rsync_list.go): one launcher item per
    stored configuration, with paths and descriptions shortened by
    truncateString. Go strings are byte strings, so lengths and cuts are
    taken on the UTF-8 encoding. */
module RsyncList {
  import opened GoStrings
  import opened Seqs
  import opened RsyncConfig

  /** "..." */
  const Ellipsis: seq<byte> := [46, 46, 46]

  /** truncateString as written: at most `n` bytes, cutting at byte n-3 and
      appending "...". A longer input with n < 3 makes the slice panic. */
  function Truncate(s: seq<byte>, n: int): (r: seq<byte>)
    requires |s| <= n || n >= 3
    ensures |s| <= n ==> r == s
    ensures |s| > n ==> |r| == n && r[..n - 3] == s[..n - 3] && r[n - 3..] == Ellipsis
  {
    if |s| <= n then s else s[..n - 3] + Ellipsis
  }

  // ---------------------------------------------------------------------
  // UTF-8 framing: every lead byte is followed by the number of
  // continuation bytes it announces.

  predicate IsContinuation(b: byte)
  {
    0x80 <= b < 0xC0
  }

  /** The length a lead byte announces; 0 for a byte that cannot lead. */
  function LeadLength(b: byte): nat
  {
    if b < 0x80 then 1
    else if 0xC0 <= b < 0xE0 then 2
    else if 0xE0 <= b < 0xF0 then 3
    else if 0xF0 <= b < 0xF8 then 4
    else 0
  }

  predicate WellFramed(b: seq<byte>)
    decreases |b|
  {
    b == [] ||
    var k := LeadLength(b[0]);
    && 1 <= k <= |b|
    && (forall j :: 1 <= j < k ==> IsContinuation(b[j]))
    && WellFramed(b[k..])
  }

  /** Whether a cut at `k` falls between two encoded characters. */
  predicate RuneStart(b: seq<byte>, k: nat)
    requires k <= |b|
  {
    k == |b| || !IsContinuation(b[k])
  }

  lemma EncodeRuneFramed(c: char)
    ensures LeadLength(EncodeRune(c)[0]) == |EncodeRune(c)|
    ensures forall j :: 1 <= j < |EncodeRune(c)| ==> IsContinuation(EncodeRune(c)[j])
  {
    var n := c as int;
    if n < 0x80 {
    } else if n < 0x800 {
      assert 2 <= n / 64 < 32;
    } else if n < 0x10000 {
      assert 0 <= n / 4096 < 16;
    } else {
      assert n <= 0x10FFFF;
      assert 0 <= n / 0x40000 < 5;
    }
  }

  /** The encoding of any string is well framed. */
  lemma {:induction false} Utf8Framed(s: string)
    ensures WellFramed(Utf8(s))
  {
    if s != [] {
      Utf8Framed(s[1..]);
      var e := EncodeRune(s[0]);
      EncodeRuneFramed(s[0]);
      var b := Utf8(s);
      assert b == e + Utf8(s[1..]);
      assert b[|e|..] == Utf8(s[1..]);
    }
  }

  /** A well framed prefix leaves a well framed rest. */
  lemma {:induction false} FramedRest(p: seq<byte>, q: seq<byte>)
    requires WellFramed(p) && WellFramed(p + q)
    ensures WellFramed(q)
    decreases |p|
  {
    if p == [] {
      assert p + q == q;
    } else {
      var k := LeadLength(p[0]);
      assert (p + q)[k..] == p[k..] + q;
      FramedRest(p[k..], q);
    }
  }

  /** Cutting a well framed text between two characters leaves a well
      framed text. */
  lemma {:induction false} FramedPrefix(b: seq<byte>, k: nat)
    requires WellFramed(b) && k <= |b| && RuneStart(b, k)
    ensures WellFramed(b[..k])
    decreases |b|
  {
    if k > 0 {
      var l := LeadLength(b[0]);
      var rest := b[l..];
      assert l <= k;
      assert RuneStart(rest, k - l) by {
        if k < |b| { assert rest[k - l] == b[k]; }
      }
      FramedPrefix(rest, k - l);
      var c := b[..k];
      assert c[l..] == rest[..k - l];
      assert forall j :: 0 <= j < l ==> c[j] == b[j];
      Framed(c, l);
    }
  }

  /** A lead byte, its continuation bytes and a well framed rest. */
  lemma Framed(c: seq<byte>, l: nat)
    requires c != [] && l == LeadLength(c[0]) && 1 <= l <= |c|
    requires forall j :: 1 <= j < l ==> IsContinuation(c[j])
    requires WellFramed(c[l..])
    ensures WellFramed(c)
  {
  }

  // ---------------------------------------------------------------------
  // The cut that truncateString evidently intends.

  /** The last character boundary at or before `k`. */
  function Boundary(b: seq<byte>, k: nat): (j: nat)
    requires k <= |b|
    ensures j <= k
    ensures j == 0 || RuneStart(b, j)
    ensures forall m :: j < m <= k ==> !RuneStart(b, m)
  {
    if k == 0 || RuneStart(b, k) then k else Boundary(b, k - 1)
  }

  /** truncateString cutting between characters: at most `n` bytes, the
      longest whole-character prefix that leaves room for "...". */
  function TruncateRunes(s: seq<byte>, n: int): (r: seq<byte>)
    requires |s| <= n || n >= 3
    ensures |s| <= n ==> r == s
    ensures |s| > n ==> 3 <= |r| <= n && r[|r| - 3..] == Ellipsis && r[..|r| - 3] == s[..|r| - 3]
  {
    if |s| <= n then s
    else
      var j := Boundary(s, n - 3);
      s[..j] + Ellipsis
  }

  lemma EllipsisFramed()
    ensures WellFramed(Ellipsis)
  {
    assert WellFramed(Ellipsis[3..]);
    assert Ellipsis[2..][1..] == Ellipsis[3..];
    assert WellFramed(Ellipsis[2..]);
    assert Ellipsis[1..][1..] == Ellipsis[2..];
    assert WellFramed(Ellipsis[1..]);
    assert Ellipsis[1..] == Ellipsis[1..];
  }

  /** The corrected cut keeps a well framed text well framed. */
  lemma TruncateRunesFramed(s: seq<byte>, n: int)
    requires |s| <= n || n >= 3
    requires WellFramed(s)
    ensures WellFramed(TruncateRunes(s, n))
  {
    if |s| > n {
      var j := Boundary(s, n - 3);
      assert RuneStart(s, j) by {
        if j == 0 && s != [] { assert LeadLength(s[0]) >= 1; }
      }
      FramedPrefix(s, j);
      EllipsisFramed();
      FramedConcat(s[..j], Ellipsis);
    }
  }

  lemma {:induction false} FramedConcat(p: seq<byte>, q: seq<byte>)
    requires WellFramed(p) && WellFramed(q)
    ensures WellFramed(p + q)
    decreases |p|
  {
    if p == [] {
      assert p + q == q;
    } else {
      var k := LeadLength(p[0]);
      FramedConcat(p[k..], q);
      assert (p + q)[k..] == p[k..] + q;
    }
  }

  /** Where byte n-3 starts a character (always, for ASCII text) the
      corrected cut is exactly the cut as written. */
  lemma TruncateAgrees(s: seq<byte>, n: int)
    requires n >= 3
    requires |s| <= n || RuneStart(s, n - 3)
    ensures TruncateRunes(s, n) == Truncate(s, n)
  {
  }

  /** Whenever the byte kept last is the lead byte of a character of two
      or more bytes, the cut as written leaves a text that is not well
      framed. */
  lemma CutAfterLeadByte(p: seq<byte>, c: char, rest: string, n: int)
    requires WellFramed(p) && |p| == n - 4 && (c as int) >= 0x80
    requires |p| + |Utf8([c] + rest)| > n
    ensures !WellFramed(Truncate(p + Utf8([c] + rest), n))
  {
    var e := EncodeRune(c);
    EncodeRuneFramed(c);
    var s := p + Utf8([c] + rest);
    assert ([c] + rest)[1..] == rest;
    assert Utf8([c] + rest) == e + Utf8(rest);
    var t := Truncate(s, n);
    assert s[..n - 3] == p + [e[0]];
    Associative(p, [e[0]], Ellipsis);
    var x := [e[0]] + Ellipsis;
    assert !WellFramed(x) by {
      assert LeadLength(x[0]) >= 2 && !IsContinuation(x[1]);
    }
    if WellFramed(t) {
      FramedRest(p, x);
      assert false;
    }
  }

  /** The cut as written can split a character: 26 ASCII letters followed
      by two three-byte characters make 32 bytes, and keeping 27 of them
      ends in the first byte of a character. */
  lemma TruncateSplitsCharacter()
    ensures var s := Utf8(seq(26, _ => 'a') + "网站");
            |s| == 32 && WellFramed(s) && !WellFramed(Truncate(s, 30))
  {
    var ascii := seq(26, _ => 'a');
    var wide := "网站";
    Utf8Append(ascii, wide);
    Utf8OfAscii(ascii);
    assert Utf8(wide) == EncodeRune(wide[0]) + (EncodeRune(wide[1]) + []) by {
      assert wide[1..][1..] == [];
    }
    Utf8Framed(ascii + wide);
    Utf8Framed(ascii);
    assert wide == [wide[0]] + wide[1..];
    CutAfterLeadByte(Utf8(ascii), wide[0], wide[1..], 30);
  }

  // ---------------------------------------------------------------------
  // The list items.

  /** The launcher item: title and subtitle as shown, the record's name as
      its uid and argument, and the record's workflow variables. */
  datatype Item = Item(uid: string, title: string, subtitle: seq<byte>, arg: seq<string>,
                       variables: map<string, string>)

  const PathWidth: int := 25
  const DescriptionWidth: int := 30

  /** The word for a direction: download for "download", upload otherwise. */
  function DirectionText(direction: string): (t: string)
    ensures t == "下载" <==> direction == DirectionDownload
    ensures t == "上传" <==> direction != DirectionDownload
  {
    ByDirection(direction, "下载", "上传")
  }

  /** `<arrow> <name> [<ssh name>]` */
  function Title(r: Config): (t: string)
    ensures |t| > 0 && (t[0] == '↓' <==> r.direction == DirectionDownload)
    ensures |t| == 5 + |r.name| + |r.sshName|
    ensures t[1] == ' ' && t[2..2 + |r.name|] == r.name
    ensures t[2 + |r.name|..4 + |r.name|] == " ["
    ensures t[4 + |r.name|..4 + |r.name| + |r.sshName|] == r.sshName
    ensures t[|t| - 1] == ']'
  {
    Arrow(r.direction) + " " + r.name + " [" + r.sshName + "]"
  }

  /** `<direction word>: <local> ↔ <remote>`, each path cut to 25 bytes. */
  function PathsLine(r: Config): seq<byte>
  {
    Utf8(DirectionText(r.direction) + ": ") + TruncateRunes(Utf8(r.localPath), PathWidth)
    + Utf8(" ↔ ") + TruncateRunes(Utf8(r.remotePath), PathWidth)
  }

  /** The subtitle: the paths line, then ` - <description>` cut to 30 bytes
      when there is a description. */
  function Subtitle(r: Config): (s: seq<byte>)
    ensures |s| >= |PathsLine(r)| && s[..|PathsLine(r)|] == PathsLine(r)
    ensures |s| > |PathsLine(r)| <==> r.description != ""
    ensures r.description != "" ==>
              s[|PathsLine(r)|..] == Utf8(" - ") + TruncateRunes(Utf8(r.description), DescriptionWidth)
  {
    var line := PathsLine(r);
    if r.description != "" then
      var s := line + (Utf8(" - ") + TruncateRunes(Utf8(r.description), DescriptionWidth));
      assert s[..|line|] == line;
      Associative(line, Utf8(" - "), TruncateRunes(Utf8(r.description), DescriptionWidth));
      s
    else line
  }

  /** However long the paths and the description, the subtitle stays within
      a fixed number of bytes. */
  lemma SubtitleBounded(r: Config)
    ensures var fixed := |Utf8(DirectionText(r.direction) + ": ")| + |Utf8(" ↔ ")|;
            |Subtitle(r)| <= fixed + 2 * PathWidth + (if r.description == "" then 0 else |Utf8(" - ")| + DescriptionWidth)
  {
  }

  /** The subtitle is well framed text: no character is cut. */
  lemma SubtitleFramed(r: Config)
    ensures WellFramed(Subtitle(r))
  {
    var a := Utf8(DirectionText(r.direction) + ": ");
    var l := TruncateRunes(Utf8(r.localPath), PathWidth);
    var m := Utf8(" ↔ ");
    var rr := TruncateRunes(Utf8(r.remotePath), PathWidth);
    Utf8Framed(DirectionText(r.direction) + ": ");
    Utf8Framed(r.localPath);
    Utf8Framed(" ↔ ");
    Utf8Framed(r.remotePath);
    TruncateRunesFramed(Utf8(r.localPath), PathWidth);
    TruncateRunesFramed(Utf8(r.remotePath), PathWidth);
    FramedConcat(a, l);
    FramedConcat(a + l, m);
    FramedConcat(a + l + m, rr);
    if r.description != "" {
      var d := TruncateRunes(Utf8(r.description), DescriptionWidth);
      Utf8Framed(" - ");
      Utf8Framed(r.description);
      TruncateRunesFramed(Utf8(r.description), DescriptionWidth);
      FramedConcat(Utf8(" - "), d);
      FramedConcat(PathsLine(r), Utf8(" - ") + d);
      assert Subtitle(r) == PathsLine(r) + (Utf8(" - ") + d);
    }
  }

  /** One item. */
  function ItemOf(r: Config): (it: Item)
    ensures it.uid == r.name && it.arg == [r.name] && it.variables == Variables(r)
    ensures it.title == Title(r) && it.subtitle == Subtitle(r)
  {
    Item(r.name, Title(r), Subtitle(r), Args(r), Variables(r))
  }

  /** displayRsyncConfigs: one item per configuration, in order. */
  function Items(configs: seq<Config>): (items: seq<Item>)
    ensures |items| == |configs|
    ensures forall i :: 0 <= i < |configs| ==> items[i] == ItemOf(configs[i])
  {
    seq(|configs|, i requires 0 <= i < |configs| => ItemOf(configs[i]))
  }
}
