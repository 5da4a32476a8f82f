/** The manifest text that names a staged image: version, size and SHA-256.
  *
  * A C string is the sequence of its characters before the terminator.
  */
module OtaManifest {
  import opened Words

  const SHA_HEX_LEN := 64
  const LINE_CAP := 128

  datatype Manifest = Manifest(version: u32, size: u32, sha: string)

  // ── Numbers ───────────────────────────────────────────────────────────────

  predicate IsDigit(c: char) {
    '0' <= c <= '9'
  }

  predicate AllDigits(s: string) {
    forall i :: 0 <= i < |s| ==> IsDigit(s[i])
  }

  function DigitValue(c: char): (d: nat)
    requires IsDigit(c)
    ensures d < 10
  {
    c as int - '0' as int
  }

  function Value(s: string): nat
    requires AllDigits(s)
  {
    if s == [] then 0 else 10 * Value(s[..|s| - 1]) + DigitValue(s[|s| - 1])
  }

  function ParsedU32(s: string): Option<u32> {
    if s != [] && AllDigits(s) && Value(s) < 0x1_0000_0000 then Some(Value(s)) else None
  }

  lemma {:induction false} ValueGrows(s: string, n: nat)
    requires AllDigits(s) && n <= |s|
    ensures AllDigits(s[..n]) && Value(s[..n]) <= Value(s)
    decreases |s|
  {
    if n == |s| {
      assert s[..n] == s;
    } else {
      var t := s[..|s| - 1];
      ValueGrows(t, n);
      assert t[..n] == s[..n];
    }
  }

  method ParseU32(s: string) returns (r: Option<u32>)
    ensures r == ParsedU32(s)
  {
    if s == [] {
      return None;
    }
    var v := 0;
    for i := 0 to |s|
      invariant AllDigits(s[..i]) && v == Value(s[..i]) < 0x1_0000_0000
    {
      if !IsDigit(s[i]) {
        return None;
      }
      assert s[..i + 1][..i] == s[..i];
      v := v * 10 + DigitValue(s[i]);
      if v > 0xFFFF_FFFF {
        if AllDigits(s) {
          ValueGrows(s, i + 1);
        }
        return None;
      }
    }
    assert s[..|s|] == s;
    return Some(v);
  }

  function DigitChar(d: nat): (c: char)
    requires d < 10
    ensures IsDigit(c) && DigitValue(c) == d
  {
    ('0' as int + d) as char
  }

  function Decimal(v: nat): (s: string)
    ensures s != [] && AllDigits(s) && Value(s) == v
  {
    if v < 10 then [DigitChar(v)]
    else
      var s := Decimal(v / 10) + [DigitChar(v % 10)];
      assert s[..|s| - 1] == Decimal(v / 10);
      s
  }

  lemma {:induction false} DecimalIsShort(v: nat, k: nat)
    requires k >= 1 && v < Power10(k)
    ensures |Decimal(v)| <= k
    decreases k
  {
    if v < 10 {
    } else {
      DecimalIsShort(v / 10, k - 1);
    }
  }

  function Power10(k: nat): nat {
    if k == 0 then 1 else 10 * Power10(k - 1)
  }

  lemma ReversedMore(s: string, c: char)
    ensures Reversed(s + [c]) == [c] + Reversed(s)
  {
  }

  /** Decimal digits, none for zero. */
  function Digits(v: nat): string {
    if v == 0 then "" else Decimal(v)
  }

  lemma DigitsMore(v: nat, tail: string)
    requires v > 0
    ensures Digits(v) + tail == Digits(v / 10) + ([DigitChar(v % 10)] + tail)
  {
  }

  lemma NoDigits()
    ensures Digits(0) == ""
  {
  }

  lemma DigitsMore10(v: nat)
    ensures Decimal(v) == Digits(v / 10) + Reversed([DigitChar(v % 10)])
  {
    assert Reversed([DigitChar(v % 10)]) == [DigitChar(v % 10)];
  }

  /** Digits come out least significant first and are turned round. */
  method WriteDecimal(v: u32) returns (s: string)
    ensures s == Decimal(v)
  {
    hide Decimal, Digits, Reversed;
    var rev := [DigitChar(v % 10)];
    var x: nat := v / 10;
    DigitsMore10(v);
    while x > 0
      invariant Decimal(v) == Digits(x) + Reversed(rev)
    {
      DigitsMore(x, Reversed(rev));
      ReversedMore(rev, DigitChar(x % 10));
      rev := rev + [DigitChar(x % 10)];
      x := x / 10;
    }
    NoDigits();
    s := TurnRound(rev);
  }

  method TurnRound(rev: string) returns (s: string)
    ensures s == Reversed(rev)
  {
    s := "";
    for i := 0 to |rev|
      invariant s == Reversed(rev)[..i]
    {
      s := s + [rev[|rev| - 1 - i]];
    }
  }

  // ── Hex ───────────────────────────────────────────────────────────────────

  predicate IsHexChar(c: char) {
    '0' <= c <= '9' || 'a' <= c <= 'f' || 'A' <= c <= 'F'
  }

  predicate IsHex64(s: string) {
    |s| == SHA_HEX_LEN && forall i :: 0 <= i < SHA_HEX_LEN ==> IsHexChar(s[i])
  }

  // ── Text ──────────────────────────────────────────────────────────────────

  function VersionLine(v: u32): string { "version=" + Decimal(v) }
  function SizeLine(v: u32): string { "size=" + Decimal(v) }
  function ShaLine(h: string): string { "sha256=" + h }

  function LinesOf(m: Manifest): seq<string> {
    [VersionLine(m.version), SizeLine(m.size), ShaLine(m.sha)]
  }

  predicate IsLine(l: string) {
    '\n' !in l
  }

  /** Every line followed by a line feed. */
  function Text(lines: seq<string>): string {
    if lines == [] then "" else lines[0] + "\n" + Text(lines[1..])
  }

  /** Index of the first line feed, or the length. */
  function LineEnd(text: string): (n: nat)
    ensures n <= |text|
    ensures IsLine(text[..n])
    ensures n < |text| ==> text[n] == '\n'
  {
    if text == [] || text[0] == '\n' then 0
    else
      assert text[..1 + LineEnd(text[1..])] == [text[0]] + text[1..][..LineEnd(text[1..])];
      1 + LineEnd(text[1..])
  }

  function AfterLine(text: string): string {
    var n := LineEnd(text);
    if n < |text| then text[n + 1..] else ""
  }

  function SplitLines(text: string): seq<string>
    decreases |text|
  {
    if text == [] then [] else [text[..LineEnd(text)]] + SplitLines(AfterLine(text))
  }

  lemma {:induction false} EndOfFirst(l: string, rest: string)
    requires IsLine(l)
    ensures LineEnd(l + "\n" + rest) == |l|
  {
    var t := l + "\n" + rest;
    if l == [] {
    } else {
      assert t[1..] == l[1..] + "\n" + rest;
      EndOfFirst(l[1..], rest);
    }
  }

  lemma {:induction false} SplitOfText(lines: seq<string>)
    requires forall i :: 0 <= i < |lines| ==> IsLine(lines[i])
    ensures SplitLines(Text(lines)) == lines
  {
    if lines == [] {
    } else {
      var rest := Text(lines[1..]);
      EndOfFirst(lines[0], rest);
      assert (lines[0] + "\n" + rest)[..|lines[0]|] == lines[0];
      assert AfterLine(Text(lines)) == rest;
      SplitOfText(lines[1..]);
    }
  }

  // ── Parsing ───────────────────────────────────────────────────────────────

  /** Fields read so far, and how often each line was seen. */
  datatype Scan = Scan(man: Manifest, versions: nat, sizes: nat, shas: nat)

  const START := Scan(Manifest(0, 0, ""), 0, 0, 0)

  /** One trailing carriage return goes. */
  function Stripped(l: string): string {
    if l != [] && l[|l| - 1] == '\r' then l[..|l| - 1] else l
  }

  /** Take in one stripped, non-empty line. */
  function Taken(s: Scan, l: string): Option<Scan> {
    if |l| >= LINE_CAP then None
    else if "version=" <= l then
      match ParsedU32(l[8..])
      case None => None
      case Some(v) => Some(s.(man := s.man.(version := v), versions := s.versions + 1))
    else if "size=" <= l then
      match ParsedU32(l[5..])
      case None => None
      case Some(v) => Some(s.(man := s.man.(size := v), sizes := s.sizes + 1))
    else if "sha256=" <= l then
      if IsHex64(l[7..]) then Some(s.(man := s.man.(sha := l[7..]), shas := s.shas + 1)) else None
    else Some(s)
  }

  function ScanLine(s: Scan, l: string): Option<Scan> {
    if Stripped(l) == "" then Some(s) else Taken(s, Stripped(l))
  }

  function ScanLines(s: Scan, lines: seq<string>): Option<Scan>
    decreases |lines|
  {
    if lines == [] then Some(s)
    else
      match ScanLine(s, lines[0])
      case None => None
      case Some(s') => ScanLines(s', lines[1..])
  }

  function Verdict(s: Option<Scan>): Option<Manifest> {
    if s.Some? && s.value.versions == 1 && s.value.sizes == 1 && s.value.shas == 1 then Some(s.value.man) else None
  }

  function Parsed(text: string): Option<Manifest> {
    Verdict(ScanLines(START, SplitLines(text)))
  }

  // ── Writing ───────────────────────────────────────────────────────────────

  /** The manifest, or nothing for a malformed digest or a buffer it does not fit. */
  method BuildManifest(version: u32, size: u32, sha: string, cap: nat) returns (out: Option<string>)
    ensures out.Some? <==> IsHex64(sha) && |Text(LinesOf(Manifest(version, size, sha)))| + 1 <= cap
    ensures out.Some? ==> out.value == Text(LinesOf(Manifest(version, size, sha)))
  {
    if cap == 0 || !IsHex64(sha) {
      return None;
    }
    var v := WriteDecimal(version);
    var z := WriteDecimal(size);
    TextOfManifest(version, size, sha);
    hide Text, Decimal;
    var text := "version=" + v + "\n" + ("size=" + z + "\n" + ("sha256=" + sha + "\n"));
    if |text| + 1 > cap {
      return None;
    }
    return Some(text);
  }

  lemma TextOfManifest(version: u32, size: u32, sha: string)
    ensures Text(LinesOf(Manifest(version, size, sha))) ==
            "version=" + Decimal(version) + "\n" + ("size=" + Decimal(size) + "\n" + ("sha256=" + sha + "\n"))
  {
    hide Decimal;
    var lines := LinesOf(Manifest(version, size, sha));
    assert Text([ShaLine(sha)]) == ShaLine(sha) + "\n" by { assert [ShaLine(sha)][1..] == []; }
    assert lines[1..] == [SizeLine(size), ShaLine(sha)] &&
           lines[1..][1..] == [ShaLine(sha)] && lines[1..][1..][1..] == [];
  }

  lemma ManifestIsSmall(m: Manifest)
    requires |m.sha| == SHA_HEX_LEN
    ensures |Text(LinesOf(m))| <= 107
  {
    DecimalsFit(m);
    TextOfManifest(m.version, m.size, m.sha);
  }

  // ── Reading ───────────────────────────────────────────────────────────────

  lemma {:induction false} LineEndIs(text: string, n: nat)
    requires n <= |text| && IsLine(text[..n]) && (n < |text| ==> text[n] == '\n')
    ensures LineEnd(text) == n
  {
    if n == 0 {
    } else {
      assert text[0] == text[..n][0];
      assert forall c :: c in text[1..][..n - 1] ==> c in text[..n] by {
        assert text[1..][..n - 1] == text[..n][1..];
      }
      LineEndIs(text[1..], n - 1);
    }
  }

  lemma NextLine(s: Scan, text: string, start: nat, end: nat)
    requires start <= end <= |text| && start < |text|
    requires IsLine(text[start..end]) && (end < |text| ==> text[end] == '\n')
    ensures var after := if end < |text| then end + 1 else end;
            ScanLines(s, SplitLines(text[start..])) ==
            match ScanLine(s, text[start..end])
            case None => None
            case Some(s') => ScanLines(s', SplitLines(text[after..]))
  {
    var t := text[start..];
    assert t[..end - start] == text[start..end];
    LineEndIs(t, end - start);
    var after := if end < |text| then end + 1 else end;
    assert AfterLine(t) == text[after..];
    assert SplitLines(t) == [text[start..end]] + SplitLines(text[after..]);
  }

  lemma StripSlice(text: string, start: nat, len: nat)
    requires start + len <= |text|
    ensures Stripped(text[start..start + len]) ==
            if len > 0 && text[start + len - 1] == '\r' then text[start..start + len - 1] else text[start..start + len]
  {
    var l := text[start..start + len];
    if len > 0 {
      assert l[len - 1] == text[start + len - 1];
      assert l[..len - 1] == text[start..start + len - 1];
    }
  }

  method ParseManifest(text: string) returns (r: Option<Manifest>)
    ensures r == Parsed(text)
  {
    hide ScanLines, SplitLines, Taken, LineEnd;
    var s := START;
    var p := 0;
    assert text[0..] == text;
    while p < |text|
      invariant p <= |text|
      invariant ScanLines(START, SplitLines(text)) == ScanLines(s, SplitLines(text[p..]))
    {
      var start := p;
      while p < |text| && text[p] != '\n'
        invariant start <= p <= |text| && IsLine(text[start..p])
      {
        p := p + 1;
      }
      NextLine(s, text, start, p);
      var len := p - start;
      if p < |text| {
        p := p + 1;
      }
      StripSlice(text, start, len);
      if len > 0 && text[start + len - 1] == '\r' {
        len := len - 1;
      }
      if len != 0 {
        var t := TakeLine(s, text[start..start + len]);
        if t.None? {
          return None;
        }
        s := t.value;
      }
    }
    NothingLeft(s, text[p..]);
    return if s.versions == 1 && s.sizes == 1 && s.shas == 1 then Some(s.man) else None;
  }

  lemma NothingLeft(s: Scan, text: string)
    requires text == ""
    ensures ScanLines(s, SplitLines(text)) == Some(s)
  {
  }

  method TakeLine(s: Scan, line: string) returns (r: Option<Scan>)
    ensures r == Taken(s, line)
  {
    if |line| >= LINE_CAP {
      return None;
    }
    if "version=" <= line {
      var v := ParseU32(line[8..]);
      return if v.None? then None else Some(s.(man := s.man.(version := v.value), versions := s.versions + 1));
    } else if "size=" <= line {
      var v := ParseU32(line[5..]);
      return if v.None? then None else Some(s.(man := s.man.(size := v.value), sizes := s.sizes + 1));
    } else if "sha256=" <= line {
      return if IsHex64(line[7..]) then Some(s.(man := s.man.(sha := line[7..]), shas := s.shas + 1)) else None;
    }
    return Some(s);
  }

  // ── Round trip ────────────────────────────────────────────────────────────

  predicate Recognised(l: string) {
    "version=" <= l || "size=" <= l || "sha256=" <= l
  }

  /** The lines that mean something, carriage returns gone. */
  function Kept(lines: seq<string>): seq<string> {
    if lines == [] then []
    else (if Recognised(Stripped(lines[0])) then [Stripped(lines[0])] else []) + Kept(lines[1..])
  }

  predicate AllShort(lines: seq<string>) {
    forall i :: 0 <= i < |lines| ==> IsLine(lines[i]) && |Stripped(lines[i])| < LINE_CAP
  }

  function TakenAll(s: Scan, lines: seq<string>): Option<Scan>
    decreases |lines|
  {
    if lines == [] then Some(s)
    else
      match Taken(s, lines[0])
      case None => None
      case Some(s') => TakenAll(s', lines[1..])
  }

  lemma {:induction false} OnlyKeptCount(s: Scan, lines: seq<string>)
    requires AllShort(lines)
    ensures ScanLines(s, lines) == TakenAll(s, Kept(lines))
    decreases |lines|
  {
    if lines == [] {
    } else {
      var l := Stripped(lines[0]);
      var rest := Kept(lines[1..]);
      assert AllShort(lines[1..]);
      if Recognised(l) {
        assert Kept(lines)[0] == l && Kept(lines)[1..] == rest;
        assert l != "";
      } else {
        assert Kept(lines) == rest;
        assert ScanLine(s, lines[0]) == Some(s);
      }
      hide Taken, Kept;
      match ScanLine(s, lines[0]) {
        case None =>
        case Some(s') => OnlyKeptCount(s', lines[1..]);
      }
    }
  }

  /** Carriage returns at line ends, blank lines and unknown lines change nothing: the
    * outcome, success or failure, is that of the lines that are left without them. */
  lemma VerdictDependsOnKept(a: seq<string>, b: seq<string>)
    requires AllShort(a) && AllShort(b) && Kept(a) == Kept(b)
    ensures Parsed(Text(a)) == Parsed(Text(b))
  {
    SplitOfText(a);
    SplitOfText(b);
    OnlyKeptCount(START, a);
    OnlyKeptCount(START, b);
  }

  lemma {:induction false} KeptOfParts(a: seq<string>, b: seq<string>)
    ensures Kept(a + b) == Kept(a) + Kept(b)
  {
    hide Recognised, Stripped;
    if a == [] {
      assert a + b == b;
    } else {
      assert (a + b)[1..] == a[1..] + b;
      KeptOfParts(a[1..], b);
      var first := if Recognised(Stripped(a[0])) then [Stripped(a[0])] else [];
      assert Kept(a + b) == first + (Kept(a[1..]) + Kept(b));
      assert Kept(a) == first + Kept(a[1..]);
    }
  }

  lemma KeptOfInsert(a: seq<string>, l: string, b: seq<string>)
    ensures Kept(a + [l] + b) == Kept(a) + (if Recognised(Stripped(l)) then [Stripped(l)] else []) + Kept(b)
  {
    KeptOfParts(a, [l]);
    KeptOfParts(a + [l], b);
    assert [l][1..] == [];
    assert Kept([l]) == (if Recognised(Stripped(l)) then [Stripped(l)] else []);
  }

  lemma ShortParts(a: seq<string>, l: string, b: seq<string>)
    requires AllShort(a) && AllShort(b) && IsLine(l) && |Stripped(l)| < LINE_CAP
    ensures AllShort(a + [l] + b) && AllShort(a + b)
  {
    hide Stripped, IsLine;
  }

  /** A line that says nothing may come or go anywhere. */
  lemma IdleLineIsHarmless(a: seq<string>, l: string, b: seq<string>)
    requires AllShort(a) && AllShort(b) && IsLine(l) && |Stripped(l)| < LINE_CAP
    requires !Recognised(Stripped(l))
    ensures Parsed(Text(a + [l] + b)) == Parsed(Text(a + b))
  {
    KeptOfInsert(a, l, b);
    KeptOfParts(a, b);
    hide *;
    ShortParts(a, l, b);
    VerdictDependsOnKept(a + [l] + b, a + b);
  }

  /** A carriage return may be put at the end of any line that has none. */
  lemma CarriageReturnIsHarmless(a: seq<string>, l: string, b: seq<string>)
    requires AllShort(a) && AllShort(b) && IsLine(l) && |l| < LINE_CAP && Stripped(l) == l
    ensures Parsed(Text(a + [l + "\r"] + b)) == Parsed(Text(a + [l] + b))
  {
    var r := l + "\r";
    assert IsLine(r) && Stripped(r) == l;
    KeptOfInsert(a, l, b);
    KeptOfInsert(a, r, b);
    hide *;
    ShortParts(a, l, b);
    ShortParts(a, r, b);
    VerdictDependsOnKept(a + [r] + b, a + [l] + b);
  }

  lemma ManifestLinesAreTaken(m: Manifest)
    requires IsHex64(m.sha)
    ensures Verdict(TakenAll(START, LinesOf(m))) == Some(m)
  {
    DecimalsFit(m);
    var v, z, h := VersionLine(m.version), SizeLine(m.size), ShaLine(m.sha);
    assert v[8..] == Decimal(m.version) && z[5..] == Decimal(m.size) && h[7..] == m.sha;
    assert z[0] == 's' && h[0] == 's' && h[1] == 'h';
    assert !("version=" <= z) && !("version=" <= h) && !("size=" <= h);
    hide Decimal;
    var one := Scan(Manifest(m.version, 0, ""), 1, 0, 0);
    var two := Scan(Manifest(m.version, m.size, ""), 1, 1, 0);
    assert Taken(START, v) == Some(one);
    assert Taken(one, z) == Some(two);
    assert Taken(two, h) == Some(Scan(m, 1, 1, 1));
    assert LinesOf(m)[1..] == [z, h];
    var pair, last, none: seq<string> := [z, h], [h], [];
    assert pair[1..] == last && last[1..] == none;
    hide Taken;
    var all := Scan(m, 1, 1, 1);
    assert TakenAll(all, none) == Some(all);
    assert TakenAll(START, LinesOf(m)) == TakenAll(one, pair) == TakenAll(two, last) == TakenAll(all, none);
  }

  lemma DecimalsFit(m: Manifest)
    ensures |Decimal(m.version)| <= 10 && |Decimal(m.size)| <= 10
  {
    assert Power10(10) == 10_000_000_000 by { assert Power10(5) == 100_000; assert Power10(8) == 100_000_000; }
    DecimalIsShort(m.version, 10);
    DecimalIsShort(m.size, 10);
  }

  /** However a manifest is decorated, reading it gives back version, size and digest. */
  lemma ManifestReadsBack(m: Manifest, lines: seq<string>)
    requires IsHex64(m.sha)
    requires AllShort(lines) && Kept(lines) == LinesOf(m)
    ensures Parsed(Text(lines)) == Some(m)
  {
    SplitOfText(lines);
    OnlyKeptCount(START, lines);
    ManifestLinesAreTaken(m);
  }

  /** The plain case: what BuildManifest writes is what ParseManifest reads, and it always
    * fits the buffer the firmware gives it. */
  lemma BuildThenParse(m: Manifest)
    requires IsHex64(m.sha)
    ensures Parsed(Text(LinesOf(m))) == Some(m)
    ensures |Text(LinesOf(m))| + 1 <= 256
  {
    ManifestIsSmall(m);
    DecimalsFit(m);
    var v, z, h := VersionLine(m.version), SizeLine(m.size), ShaLine(m.sha);
    assert v[|v| - 1] == Decimal(m.version)[|Decimal(m.version)| - 1];
    assert z[|z| - 1] == Decimal(m.size)[|Decimal(m.size)| - 1];
    assert Stripped(v) == v && Stripped(z) == z && Stripped(h) == h;
    hide Decimal;
    assert IsLine(v) && IsLine(z) && IsLine(h);
    assert Kept([h]) == [h] by { assert [h][1..] == []; }
    assert Kept([z, h]) == [z, h] by { assert [z, h][1..] == [h]; }
    assert LinesOf(m)[1..] == [z, h];
    ManifestReadsBack(m, LinesOf(m));
  }

  lemma LiteralDecimals()
    ensures Decimal(7) == "7" && Decimal(120934) == "120934"
  {
    assert Decimal(12) == "12" && Decimal(120) == "120";
    assert Decimal(1209) == "1209" && Decimal(12093) == "12093";
  }

  lemma TextOfThree(a: string, b: string, c: string)
    ensures Text([a, b, c]) == a + "\n" + b + "\n" + c + "\n"
  {
    var all, two, one := [a, b, c], [b, c], [c];
    assert all[1..] == two && two[1..] == one && one[1..] == [];
    assert Text([]) == "" && Text(one) == c + "\n" && Text(two) == b + "\n" + (c + "\n");
    assert Text(all) == a + "\n" + Text(two);
  }

  /** The text itself, for any digest: three lines, numbers in plain decimal. */
  lemma ManifestText(h: string)
    ensures Text(LinesOf(Manifest(7, 120934, h))) == "version=7" + "\n" + "size=120934" + "\n" + ("sha256=" + h) + "\n"
  {
    LiteralDecimals();
    TextOfThree(VersionLine(7), SizeLine(120934), ShaLine(h));
    assert "version=" + "7" == "version=7" && "size=" + "120934" == "size=120934";
    hide Decimal, Text;
  }
}
