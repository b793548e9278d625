/** The parts of Go's `strings`, `strconv` and `fmt` packages that the core
    relies on: `TrimSpace`, `Split`, `Fields`, `Itoa`/`%d`, `Atoi`, and the
    UTF-8 bytes behind `len` and slicing of a Go string. */
module GoStrings {
  import opened Wrappers
  import Seqs

  // ---------------------------------------------------------------------
  // White space, as Go's unicode.IsSpace sees it (the Unicode White_Space
  // property): the ASCII controls \t \n \v \f \r, the space, U+0085, U+00A0
  // and the separators U+1680, U+2000-U+200A, U+2028, U+2029, U+202F,
  // U+205F and U+3000.

  predicate IsSpace(c: char) {
    var n := c as int;
    (9 <= n <= 13) || n == 32 || n == 0x85 || n == 0xA0 || n == 0x1680 ||
    (0x2000 <= n <= 0x200A) || n == 0x2028 || n == 0x2029 || n == 0x202F ||
    n == 0x205F || n == 0x3000
  }

  predicate AllSpace(s: string) {
    forall i :: 0 <= i < |s| ==> IsSpace(s[i])
  }

  predicate NoSpace(s: string) {
    forall i :: 0 <= i < |s| ==> !IsSpace(s[i])
  }

  /** A string that neither starts nor ends with white space. */
  predicate Trimmed(s: string) {
    s == [] || (!IsSpace(s[0]) && !IsSpace(s[|s| - 1]))
  }

  function TrimLeft(s: string): (r: string)
    ensures |r| <= |s| && r == s[|s| - |r|..]
    ensures AllSpace(s[..|s| - |r|])
    ensures r == [] || !IsSpace(r[0])
    decreases |s|
  {
    if s != [] && IsSpace(s[0]) then TrimLeft(s[1..]) else s
  }

  function TrimRight(s: string): (r: string)
    ensures |r| <= |s| && r == s[..|r|]
    ensures AllSpace(s[|r|..])
    ensures r == [] || !IsSpace(r[|r| - 1])
    decreases |s|
  {
    if s != [] && IsSpace(s[|s| - 1]) then
      var p := s[..|s| - 1];
      var r := TrimRight(p);
      assert s[|r|..] == p[|r|..] + [s[|s| - 1]];
      AllSpaceAppend(p[|r|..], [s[|s| - 1]]);
      r
    else s
  }

  lemma AllSpaceAppend(a: string, b: string)
    requires AllSpace(a) && AllSpace(b)
    ensures AllSpace(a + b)
  {
  }

  /** strings.TrimSpace: the infix left once white space is cut from both
      ends; everything cut off is white space. */
  function TrimSpace(s: string): (r: string)
    ensures Trimmed(r)
    ensures var i := |s| - |TrimLeft(s)|;
            i + |r| <= |s| && r == s[i..i + |r|] && AllSpace(s[..i]) && AllSpace(s[i + |r|..])
  {
    var l := TrimLeft(s);
    TrimmedBothEnds(l);
    TrimSlices(s, l);
    TrimRight(l)
  }

  lemma TrimmedBothEnds(l: string)
    requires l == [] || !IsSpace(l[0])
    ensures Trimmed(TrimRight(l))
  {
    var r := TrimRight(l);
    if r != [] {
      assert r[0] == l[0];
    }
  }

  lemma TrimSlices(s: string, l: string)
    requires |l| <= |s| && l == s[|s| - |l|..]
    ensures var r := TrimRight(l); var i := |s| - |l|;
            i + |r| <= |s| && r == s[i..i + |r|] && AllSpace(s[i + |r|..])
  {
    var r := TrimRight(l);
    var i := |s| - |l|;
    assert r == s[i..i + |r|];
    assert s[i + |r|..] == l[|r|..];
  }

  lemma {:induction false} TrimLeftAllSpace(s: string)
    requires AllSpace(s)
    ensures TrimLeft(s) == []
    decreases |s|
  {
    if s != [] {
      TrimLeftAllSpace(s[1..]);
    }
  }

  /** A string is blank after trimming exactly when it is all white space. */
  lemma TrimSpaceBlank(s: string)
    ensures TrimSpace(s) == [] <==> AllSpace(s)
  {
    if AllSpace(s) {
      TrimLeftAllSpace(s);
    }
    if TrimSpace(s) == [] {
      var i := |s| - |TrimLeft(s)|;
      forall k | 0 <= k < |s|
        ensures IsSpace(s[k])
      {
        if k < i { assert s[..i][k] == s[k]; } else { assert s[i..][k - i] == s[k]; }
      }
    }
  }

  lemma {:induction false} TrimLeftOfTrimmed(s: string)
    requires s == [] || !IsSpace(s[0])
    ensures TrimLeft(s) == s
  {
  }

  /** Trimming leaves an already trimmed string alone; so trimming twice is
      trimming once. */
  lemma TrimSpaceOfTrimmed(s: string)
    requires Trimmed(s)
    ensures TrimSpace(s) == s
  {
    TrimLeftOfTrimmed(s);
  }

  lemma TrimSpaceIdempotent(s: string)
    ensures TrimSpace(TrimSpace(s)) == TrimSpace(s)
  {
    TrimSpaceOfTrimmed(TrimSpace(s));
  }

  // ---------------------------------------------------------------------
  // strings.Split and strings.Join with a one-character separator.

  /** The first position of `c` in `s`. */
  function IndexOf(s: string, c: char): (r: Option<nat>)
    ensures r.Some? ==> r.value < |s| && s[r.value] == c && c !in s[..r.value]
    ensures r.None? ==> c !in s
  {
    if s == [] then None
    else if s[0] == c then Some(0)
    else match IndexOf(s[1..], c)
      case None => None
      case Some(j) => assert s[..j + 1] == [s[0]] + s[1..][..j]; Some(j + 1)
  }

  /** strings.Split(s, sep): the pieces between the separators, in order. */
  function Split(s: string, sep: char): (parts: seq<string>)
    ensures |parts| >= 1
    ensures forall i :: 0 <= i < |parts| ==> sep !in parts[i]
    decreases |s|
  {
    match IndexOf(s, sep)
    case None => [s]
    case Some(i) => [s[..i]] + Split(s[i + 1..], sep)
  }

  /** strings.Join(parts, sep). */
  function Join(parts: seq<string>, sep: char): string
  {
    if |parts| == 0 then ""
    else if |parts| == 1 then parts[0]
    else parts[0] + [sep] + Join(parts[1..], sep)
  }

  /** Join of a piece in front of at least one more. */
  lemma JoinCons(x: string, rest: seq<string>, sep: char)
    requires |rest| >= 1
    ensures Join([x] + rest, sep) == x + [sep] + Join(rest, sep)
  {
    assert ([x] + rest)[1..] == rest;
  }

  /** Joining the pieces restores the string. */
  lemma {:induction false} JoinSplit(s: string, sep: char)
    ensures Join(Split(s, sep), sep) == s
    decreases |s|
  {
    match IndexOf(s, sep)
    case None =>
    case Some(i) =>
      var tail := s[i + 1..];
      var rest := Split(tail, sep);
      JoinSplit(tail, sep);
      JoinCons(s[..i], rest, sep);
      assert s == s[..i] + [sep] + tail;
  }

  /** Splitting a join of separator-free pieces gives the pieces back. */
  lemma {:induction false} SplitJoin(parts: seq<string>, sep: char)
    requires |parts| >= 1
    requires forall i :: 0 <= i < |parts| ==> sep !in parts[i]
    ensures Split(Join(parts, sep), sep) == parts
  {
    if |parts| > 1 {
      var rest := Join(parts[1..], sep);
      SplitJoin(parts[1..], sep);
      FirstPiece(parts[0], rest, sep);
      assert parts == [parts[0]] + parts[1..];
    }
  }

  /** Splitting a separator-free piece followed by the separator. */
  lemma FirstPiece(x: string, rest: string, sep: char)
    requires sep !in x
    ensures Split(x + [sep] + rest, sep) == [x] + Split(rest, sep)
  {
    var s := x + [sep] + rest;
    assert s[..|x|] == x;
    assert s[|x|] == sep;
    assert IndexOf(s, sep) == Some(|x|);
    assert s[|x| + 1..] == rest;
  }

  lemma JoinAppend(parts: seq<string>, last: string, sep: char)
    requires |parts| >= 1
    ensures Join(parts + [last], sep) == Join(parts, sep) + [sep] + last
    decreases |parts|
  {
    if |parts| > 1 {
      assert (parts + [last])[1..] == parts[1..] + [last];
      JoinAppend(parts[1..], last, sep);
    } else {
      assert parts + [last] == [parts[0], last];
    }
  }

  // ---------------------------------------------------------------------
  // strings.Fields.

  /** Index of the first white-space character, or |s|. */
  function TokenEnd(s: string): (k: nat)
    ensures k <= |s| && NoSpace(s[..k])
    ensures k < |s| ==> IsSpace(s[k])
    ensures s != [] && !IsSpace(s[0]) ==> k > 0
  {
    if s == [] || IsSpace(s[0]) then 0
    else
      var k := TokenEnd(s[1..]);
      assert s[..k + 1] == [s[0]] + s[1..][..k];
      k + 1
  }

  /** strings.Fields: the maximal runs of non-space characters, in order. */
  function Fields(s: string): (r: seq<string>)
    ensures forall i :: 0 <= i < |r| ==> r[i] != [] && NoSpace(r[i])
    decreases |s|
  {
    var t := TrimLeft(s);
    if t == [] then []
    else
      var k := TokenEnd(t);
      var rest := Fields(t[k..]);
      TokensCons(t[..k], rest);
      [t[..k]] + rest
  }

  lemma TokensCons(tok: string, rest: seq<string>)
    requires tok != [] && NoSpace(tok)
    requires forall i :: 0 <= i < |rest| ==> rest[i] != [] && NoSpace(rest[i])
    ensures forall i :: 0 <= i < |[tok] + rest| ==> ([tok] + rest)[i] != [] && NoSpace(([tok] + rest)[i])
  {
  }

  /** `s` laid out as gaps and tokens: white space, a token, white space, a
      token, ..., white space. */
  function Interleave(gaps: seq<string>, toks: seq<string>): string
    requires |gaps| == |toks| + 1
    decreases |toks|
  {
    if toks == [] then gaps[0] else gaps[0] + toks[0] + Interleave(gaps[1..], toks[1..])
  }

  /** The gaps are white space, those between two tokens non-empty, and the
      tokens non-empty runs without white space: each token is a maximal
      run of non-space characters. */
  predicate Layout(gaps: seq<string>, toks: seq<string>)
  {
    && |gaps| == |toks| + 1
    && (forall i :: 0 <= i < |gaps| ==> AllSpace(gaps[i]))
    && (forall i :: 0 < i < |toks| ==> gaps[i] != [])
    && (forall i :: 0 <= i < |toks| ==> toks[i] != [] && NoSpace(toks[i]))
  }

  /** The white space before each token and after the last, as Fields
      skips it. */
  function Gaps(s: string): (g: seq<string>)
    ensures g != []
    decreases |s|
  {
    var t := TrimLeft(s);
    var lead := s[..|s| - |t|];
    if t == [] then [lead]
    else [lead] + Gaps(t[TokenEnd(t)..])
  }

  /** Fields cuts `s` at white space only: `s` is its tokens separated by
      non-empty white space, with white space allowed at both ends. */
  lemma FieldsLayout(s: string)
    ensures Layout(Gaps(s), Fields(s))
    ensures Interleave(Gaps(s), Fields(s)) == s
  {
    FieldsGaps(s);
    FieldsSpell(s);
  }

  /** The gaps Fields skips and the tokens it returns form a layout. */
  lemma {:induction false} FieldsGaps(s: string)
    ensures Layout(Gaps(s), Fields(s))
    decreases |s|
  {
    var t := TrimLeft(s);
    if t != [] {
      var y := t[TokenEnd(t)..];
      GapsFieldsStep(s, t, TokenEnd(t));
      FieldsGaps(y);
      if Fields(y) != [] {
        LeadGapNonEmpty(y);
      }
      LayoutCons(s[..|s| - |t|], t[..TokenEnd(t)], Gaps(y), Fields(y));
    }
  }

  /** Putting the gaps and tokens back together gives `s` again. */
  lemma {:induction false} FieldsSpell(s: string)
    ensures |Gaps(s)| == |Fields(s)| + 1
    ensures Interleave(Gaps(s), Fields(s)) == s
    decreases |s|
  {
    var t := TrimLeft(s);
    if t == [] {
      assert s == s[..|s| - |t|];
    } else {
      var y := t[TokenEnd(t)..];
      GapsFieldsStep(s, t, TokenEnd(t));
      SplitThree(s, t, TokenEnd(t));
      FieldsSpell(y);
      InterleaveCons(s[..|s| - |t|], t[..TokenEnd(t)], Gaps(y), Fields(y));
    }
  }

  /** One step of Fields and Gaps together: a gap, a token, the rest. */
  lemma GapsFieldsStep(s: string, t: string, k: nat)
    requires t == TrimLeft(s) && t != [] && k == TokenEnd(t)
    ensures Gaps(s) == [s[..|s| - |t|]] + Gaps(t[k..])
    ensures Fields(s) == [t[..k]] + Fields(t[k..])
    ensures t[..k] != [] && NoSpace(t[..k]) && AllSpace(s[..|s| - |t|])
    ensures t[k..] != [] ==> IsSpace(t[k..][0])
  {
  }

  /** `s` is its leading gap, its first token and the rest. */
  lemma SplitThree(s: string, t: string, k: nat)
    requires |t| <= |s| && t == s[|s| - |t|..] && k <= |t|
    ensures s == s[..|s| - |t|] + t[..k] + t[k..]
  {
    var lead := s[..|s| - |t|];
    assert s == lead + t;
    assert t == t[..k] + t[k..];
    assert lead + t[..k] + t[k..] == lead + (t[..k] + t[k..]);
  }

  /** Text that starts with white space has a non-empty first gap. */
  lemma LeadGapNonEmpty(y: string)
    requires y != [] && IsSpace(y[0])
    ensures Gaps(y)[0] != []
  {
  }

  /** One more token in front of a layout. */
  lemma LayoutCons(lead: string, tok: string, g: seq<string>, f: seq<string>)
    requires Layout(g, f) && AllSpace(lead) && tok != [] && NoSpace(tok)
    requires f != [] ==> g[0] != []
    ensures Layout([lead] + g, [tok] + f)
  {
  }

  lemma InterleaveCons(lead: string, tok: string, g: seq<string>, f: seq<string>)
    requires |g| == |f| + 1
    ensures Interleave([lead] + g, [tok] + f) == lead + tok + Interleave(g, f)
  {
    assert ([lead] + g)[1..] == g;
    assert ([tok] + f)[1..] == f;
  }

  /** Any layout of `s` is the one Fields finds: the tokens are fixed by
      where the white space is. */
  lemma {:induction false} FieldsOfLayout(gaps: seq<string>, toks: seq<string>)
    requires Layout(gaps, toks)
    ensures Fields(Interleave(gaps, toks)) == toks
    decreases |toks|
  {
    var s := Interleave(gaps, toks);
    if toks == [] {
      TrimLeftAllSpace(s);
    } else {
      var x := toks[0];
      var y := Interleave(gaps[1..], toks[1..]);
      LayoutTail(gaps, toks);
      InterleaveHead(gaps[1..], toks[1..]);
      assert s == gaps[0] + (x + y);
      FieldsAfterSpace(gaps[0], x + y);
      TokenEndOf(x, y);
      FieldsStep(x + y, |x|);
      assert (x + y)[|x|..] == y && (x + y)[..|x|] == x;
      FieldsOfLayout(gaps[1..], toks[1..]);
      assert Fields(s) == [x] + toks[1..];
    }
  }

  /** The layout after the first token; its first gap is non-empty unless
      it is the last. */
  lemma LayoutTail(gaps: seq<string>, toks: seq<string>)
    requires Layout(gaps, toks) && toks != []
    ensures Layout(gaps[1..], toks[1..])
    ensures toks[1..] != [] ==> gaps[1..][0] != []
  {
    var g, f := gaps[1..], toks[1..];
    forall i | 0 <= i < |g| ensures AllSpace(g[i]) {
      assert g[i] == gaps[i + 1];
    }
    forall i | 0 < i < |f| ensures g[i] != [] {
      assert g[i] == gaps[i + 1];
    }
    forall i | 0 <= i < |f| ensures f[i] != [] && NoSpace(f[i]) {
      assert f[i] == toks[i + 1];
    }
    assert Layout(g, f);
  }

  /** A tail layout whose first gap is white space starts with white space. */
  lemma InterleaveHead(g: seq<string>, f: seq<string>)
    requires Layout(g, f) && (f != [] ==> g[0] != [])
    ensures var y := Interleave(g, f); y == [] || IsSpace(y[0])
  {
    assert AllSpace(g[0]);
    if f != [] {
      assert Interleave(g, f) == g[0] + f[0] + Interleave(g[1..], f[1..]);
      assert Interleave(g, f)[0] == g[0][0];
    }
  }

  /** One step of Fields on trimmed text whose first token has length `k`. */
  lemma FieldsStep(t: string, k: nat)
    requires t != [] && !IsSpace(t[0]) && TokenEnd(t) == k
    ensures Fields(t) == [t[..k]] + Fields(t[k..])
  {
    TrimLeftOfTrimmed(t);
  }

  /** Words joined by single spaces split back into the same words. */
  lemma {:induction false} FieldsOfJoin(ws: seq<string>)
    requires forall i :: 0 <= i < |ws| ==> ws[i] != [] && NoSpace(ws[i])
    ensures Fields(Join(ws, ' ')) == ws
    decreases |ws|
  {
    if |ws| == 0 {
      assert Join(ws, ' ') == "";
    } else if |ws| == 1 {
      FieldsOfWord(ws[0]);
    } else {
      FieldsOfJoin(ws[1..]);
      FieldsOfJoinStep(ws);
    }
  }

  lemma FieldsOfJoinStep(ws: seq<string>)
    requires |ws| > 1
    requires forall i :: 0 <= i < |ws| ==> ws[i] != [] && NoSpace(ws[i])
    requires Fields(Join(ws[1..], ' ')) == ws[1..]
    ensures Fields(Join(ws, ' ')) == ws
  {
    JoinUnfold(ws, ' ');
    FieldsSpaceStep(ws[0], Join(ws[1..], ' '));
    Seqs.HeadTail(ws);
  }

  lemma JoinUnfold(ws: seq<string>, sep: char)
    requires |ws| > 1 && ws[1] != []
    ensures Join(ws, sep) == ws[0] + ([sep] + Join(ws[1..], sep))
    ensures Join(ws[1..], sep) != [] && Join(ws[1..], sep)[0] == ws[1][0]
  {
  }

  lemma FieldsOfWord(w: string)
    requires w != [] && NoSpace(w)
    ensures Fields(w) == [w]
  {
    TokenEndOf(w, "");
    assert w + "" == w;
    FieldsStep(w, |w|);
  }

  /** A word, one space, then text starting with a word. */
  lemma FieldsSpaceStep(x: string, j: string)
    requires x != [] && NoSpace(x) && j != [] && !IsSpace(j[0])
    ensures Fields(x + ([' '] + j)) == [x] + Fields(j)
  {
    var t := x + ([' '] + j);
    TokenEndOf(x, [' '] + j);
    FieldsStep(t, |x|);
    assert t[|x|..] == [' '] + j && t[..|x|] == x;
    FieldsAfterSpace([' '], j);
  }

  /** Leading white space does not change the fields. */
  lemma FieldsAfterSpace(a: string, b: string)
    requires AllSpace(a) && b != [] && !IsSpace(b[0])
    ensures Fields(a + b) == Fields(b)
  {
    TrimLeftOfSpacePrefix(a, b);
    TrimLeftOfTrimmed(b);
  }

  lemma {:induction false} TrimLeftOfSpacePrefix(a: string, b: string)
    requires AllSpace(a) && (b == [] || !IsSpace(b[0]))
    ensures TrimLeft(a + b) == b
    decreases |a|
  {
    if a == [] {
      assert a + b == b;
      TrimLeftOfTrimmed(b);
    } else {
      assert (a + b)[1..] == a[1..] + b;
      TrimLeftOfSpacePrefix(a[1..], b);
    }
  }

  lemma {:induction false} TokenEndOf(x: string, y: string)
    requires NoSpace(x) && (y == [] || IsSpace(y[0]))
    ensures TokenEnd(x + y) == |x|
    decreases |x|
  {
    if x == [] {
      assert x + y == y;
    } else {
      assert (x + y)[1..] == x[1..] + y;
      TokenEndOf(x[1..], y);
    }
  }

  /** The characters of `s` that are not white space. */
  function RemoveSpaces(s: string): string
  {
    if s == [] then []
    else (if IsSpace(s[0]) then [] else [s[0]]) + RemoveSpaces(s[1..])
  }

  function Concat(parts: seq<string>): string
  {
    if parts == [] then [] else parts[0] + Concat(parts[1..])
  }

  /** Concatenating two lists of parts concatenates their texts. */
  lemma {:induction false} ConcatAppend(a: seq<string>, b: seq<string>)
    ensures Concat(a + b) == Concat(a) + Concat(b)
    decreases |a|
  {
    if a == [] {
      assert a + b == b;
    } else {
      assert (a + b)[1..] == a[1..] + b;
      ConcatAppend(a[1..], b);
      assert Concat(a + b) == a[0] + (Concat(a[1..]) + Concat(b));
    }
  }

  lemma {:induction false} RemoveSpacesAppend(a: string, b: string)
    ensures RemoveSpaces(a + b) == RemoveSpaces(a) + RemoveSpaces(b)
  {
    if a != [] {
      assert (a + b)[1..] == a[1..] + b;
      RemoveSpacesAppend(a[1..], b);
    } else {
      assert a + b == b;
    }
  }

  lemma {:induction false} RemoveSpacesOfAllSpace(s: string)
    requires AllSpace(s)
    ensures RemoveSpaces(s) == []
  {
    if s != [] { RemoveSpacesOfAllSpace(s[1..]); }
  }

  lemma {:induction false} RemoveSpacesOfNoSpace(s: string)
    requires NoSpace(s)
    ensures RemoveSpaces(s) == s
  {
    if s != [] { RemoveSpacesOfNoSpace(s[1..]); }
  }

  /** The tokens hold every non-space character of the input, in order, and
      nothing else. */
  lemma {:induction false} FieldsKeepsNonSpace(s: string)
    ensures Concat(Fields(s)) == RemoveSpaces(s)
    decreases |s|
  {
    var t := TrimLeft(s);
    RemoveLeadingSpaces(s);
    if t != [] {
      var k := TokenEnd(t);
      var rest := Fields(t[k..]);
      assert Fields(s) == [t[..k]] + rest;
      assert ([t[..k]] + rest)[1..] == rest;
      FieldsKeepsNonSpace(t[k..]);
      assert Concat(Fields(s)) == t[..k] + RemoveSpaces(t[k..]);
      RemoveToken(t, k);
    }
  }

  /** Leading white space contributes nothing. */
  lemma RemoveLeadingSpaces(s: string)
    ensures RemoveSpaces(s) == RemoveSpaces(TrimLeft(s))
  {
    var t := TrimLeft(s);
    var a := s[..|s| - |t|];
    Seqs.SplitAt(s, |s| - |t|);
    RemoveSpacesOfAllSpace(a);
    RemoveSpacesAppend(a, t);
  }

  /** A leading token keeps all of its characters. */
  lemma RemoveToken(t: string, k: nat)
    requires k <= |t| && NoSpace(t[..k])
    ensures RemoveSpaces(t) == t[..k] + RemoveSpaces(t[k..])
  {
    Seqs.SplitAt(t, k);
    RemoveSpacesAppend(t[..k], t[k..]);
    RemoveSpacesOfNoSpace(t[..k]);
  }

  // ---------------------------------------------------------------------
  // Decimal integers: strconv.Itoa / fmt's %d, and strconv.Atoi on a
  // 64-bit platform.

  const Int64Min: int := -0x8000_0000_0000_0000
  const Int64Max: int := 0x7FFF_FFFF_FFFF_FFFF

  predicate IsDigit(c: char) { '0' as int <= c as int <= '9' as int }

  function DigitChar(d: nat): (c: char)
    requires d < 10
    ensures IsDigit(c) && (c as int) - ('0' as int) == d
  {
    ('0' as int + d) as char
  }

  predicate AllDigits(s: string) {
    forall i :: 0 <= i < |s| ==> IsDigit(s[i])
  }

  /** The decimal digits of `n`, without leading zeros. */
  function DigitsOf(n: nat): (s: string)
    ensures s != [] && forall i :: 0 <= i < |s| ==> IsDigit(s[i])
    ensures (s[0] == '0') == (n == 0)
    ensures n == 0 ==> s == "0"
  {
    if n < 10 then [DigitChar(n)] else DigitsOf(n / 10) + [DigitChar(n % 10)]
  }

  /** The decimal form of `n`: a '-' exactly when `n` is negative, then the
      digits of its magnitude (see ItoaDecimal). */
  function Itoa(n: int): (s: string)
    ensures s != [] && (s[0] == '-') == (n < 0)
  {
    if n < 0 then "-" + DigitsOf(-n) else DigitsOf(n)
  }

  /** After the optional '-', Itoa writes only digits, whose value is the
      magnitude of `n`, with no leading zero unless `n` is 0. */
  lemma ItoaDecimal(n: int)
    ensures var s := Itoa(n); var d := if n < 0 then s[1..] else s;
      && d != [] && AllDigits(d) && DigitsValue(d) == (if n < 0 then -n else n)
      && (d[0] == '0' ==> n == 0 && s == "0")
  {
    if n < 0 {
      DigitsValueOfDigitsOf(-n);
      assert Itoa(n)[1..] == DigitsOf(-n);
    } else {
      DigitsValueOfDigitsOf(n);
    }
  }

  function DigitValue(c: char): (d: nat)
    requires IsDigit(c)
    ensures d < 10
  {
    (c as int) - ('0' as int)
  }

  function DigitsValue(s: string): nat
    requires forall i :: 0 <= i < |s| ==> IsDigit(s[i])
  {
    if s == [] then 0
    else
      assert IsDigit(s[|s| - 1]);
      DigitsValue(s[..|s| - 1]) * 10 + DigitValue(s[|s| - 1])
  }

  /** strconv.Atoi: an optional sign followed by at least one decimal digit and
      nothing else, whose value fits in 64 bits. Anything else is an error. */
  function Atoi(s: string): (r: Option<int>)
    ensures r.Some? ==> s != [] && Int64Min <= r.value <= Int64Max
    ensures r.Some? ==> forall i :: 0 <= i < |s| ==>
                          IsDigit(s[i]) || (i == 0 && (s[i] == '+' || s[i] == '-'))
  {
    if s == [] then None
    else
      var signed := s[0] == '+' || s[0] == '-';
      var body := if signed then s[1..] else s;
      if body == [] || !(forall i :: 0 <= i < |body| ==> IsDigit(body[i])) then None
      else
        var n: int := DigitsValue(body);
        var v: int := if s[0] == '-' then -n else n;
        if Int64Min <= v <= Int64Max then Some(v) else None
  }

  /** Atoi on an optional sign and digits: the digits' value, negated after
      '-', whenever it fits in 64 bits; leading zeros are allowed. */
  lemma AtoiDigits(d: string)
    requires d != [] && AllDigits(d)
    ensures Atoi(d) == (if DigitsValue(d) <= Int64Max then Some(DigitsValue(d)) else None)
    ensures Atoi("+" + d) == Atoi(d)
    ensures var v: int := DigitsValue(d);
      Atoi("-" + d) == (if -v >= Int64Min then Some(-v) else None)
  {
    assert !IsDigit('+') && !IsDigit('-');
    assert d[0] != '+' && d[0] != '-';
    assert ("+" + d)[1..] == d;
    assert ("-" + d)[1..] == d;
  }

  lemma {:induction false} DigitsValueOfDigitsOf(n: nat)
    ensures DigitsValue(DigitsOf(n)) == n
  {
    if n >= 10 {
      DigitsValueOfDigitsOf(n / 10);
      var s := DigitsOf(n);
      assert s[..|s| - 1] == DigitsOf(n / 10);
    }
  }

  /** Atoi reads back what Itoa writes, for every 64-bit integer. */
  lemma AtoiItoa(n: int)
    requires Int64Min <= n <= Int64Max
    ensures Atoi(Itoa(n)) == Some(n)
  {
    if n < 0 {
      var d := DigitsOf(-n);
      DigitsValueOfDigitsOf(-n);
      var s := "-" + d;
      assert s[0] == '-' && s[1..] == d;
      assert Atoi(s) == Some(n);
    } else {
      var d := DigitsOf(n);
      DigitsValueOfDigitsOf(n);
      assert IsDigit(d[0]);
      assert Atoi(d) == Some(n);
    }
  }

  /** A string with white space anywhere in it is not a number to Atoi. */
  lemma AtoiRejectsSpace(s: string, k: nat)
    requires k < |s| && IsSpace(s[k])
    ensures Atoi(s) == None
  {
  }

  // ---------------------------------------------------------------------
  // The bytes of a Go string: its UTF-8 encoding.

  newtype byte = x: int | 0 <= x < 256

  function EncodeRune(c: char): (b: seq<byte>)
    ensures 1 <= |b| <= 4
    ensures |b| == 1 <==> (c as int) < 0x80
  {
    var n := c as int;
    if n < 0x80 then [n as byte]
    else if n < 0x800 then [(0xC0 + n / 64) as byte, (0x80 + n % 64) as byte]
    else if n < 0x10000 then
      [(0xE0 + n / 4096) as byte, (0x80 + (n / 64) % 64) as byte, (0x80 + n % 64) as byte]
    else
      [(0xF0 + n / 0x40000) as byte, (0x80 + (n / 4096) % 64) as byte,
       (0x80 + (n / 64) % 64) as byte, (0x80 + n % 64) as byte]
  }

  /** The UTF-8 encoding of a string: what Go's len and s[:k] count and cut. */
  function Utf8(s: string): (b: seq<byte>)
    ensures |b| >= |s|
  {
    if s == [] then [] else EncodeRune(s[0]) + Utf8(s[1..])
  }

  predicate IsAscii(s: string) {
    forall i :: 0 <= i < |s| ==> (s[i] as int) < 0x80
  }

  /** On ASCII text bytes and characters coincide. */
  lemma {:induction false} Utf8OfAscii(s: string)
    requires IsAscii(s)
    ensures |Utf8(s)| == |s|
    ensures forall i :: 0 <= i < |s| ==> Utf8(s)[i] as int == s[i] as int
  {
    if s != [] {
      Utf8OfAscii(s[1..]);
    }
  }

  lemma Utf8Append(a: string, b: string)
    ensures Utf8(a + b) == Utf8(a) + Utf8(b)
  {
    if a != [] {
      assert (a + b)[1..] == a[1..] + b;
      Utf8Append(a[1..], b);
    } else {
      assert a + b == b;
    }
  }
}
