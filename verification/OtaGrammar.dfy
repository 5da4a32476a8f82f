/** Which texts are manifests, told without a scanner, and which value each field has.
  */
module OtaGrammar {
  import opened OtaManifest
  import opened Words

  const VERSION := "version="
  const SIZE := "size="
  const SHA := "sha256="

  /** What follows the prefix on a line that has it, a carriage return at the end not counted. */
  function Field(prefix: string, line: string): seq<string> {
    if prefix <= Stripped(line) then [Stripped(line)[|prefix|..]] else []
  }

  function Fields(prefix: string, lines: seq<string>): seq<string> {
    if lines == [] then [] else Field(prefix, lines[0]) + Fields(prefix, lines[1..])
  }

  /** A decimal number, however many zeros it begins with. */
  predicate ReadsAs(s: string, v: nat) {
    s != "" && AllDigits(s) && Value(s) == v
  }

  predicate IsNumber(s: string) {
    s != "" && AllDigits(s) && Value(s) < 0x1_0000_0000
  }

  predicate AllNumbers(fs: seq<string>) {
    forall i :: 0 <= i < |fs| ==> IsNumber(fs[i])
  }

  /** Sixty-four characters, each a hexadecimal digit in either case. */
  predicate IsDigest(s: string) {
    |s| == 64 && forall i :: 0 <= i < 64 ==> s[i] in "0123456789abcdefABCDEF"
  }

  predicate AllDigests(fs: seq<string>) {
    forall i :: 0 <= i < |fs| ==> IsDigest(fs[i])
  }

  predicate NoneLong(lines: seq<string>) {
    forall i :: 0 <= i < |lines| ==> |Stripped(lines[i])| < 128
  }

  lemma HexDigit(c: char)
    ensures IsHexChar(c) <==> c in "0123456789abcdefABCDEF"
  {
    var all := "0123456789abcdefABCDEF";
    if '0' <= c <= '9' {
      assert c == all[c as int - '0' as int];
    } else if 'a' <= c <= 'f' {
      assert c == all[c as int - 'a' as int + 10];
    } else if 'A' <= c <= 'F' {
      assert c == all[c as int - 'A' as int + 16];
    }
  }

  lemma DigestIsHex(s: string)
    ensures IsDigest(s) <==> IsHex64(s)
  {
    hide IsHexChar;
    forall c: char
      ensures IsHexChar(c) <==> c in "0123456789abcdefABCDEF"
    {
      HexDigit(c);
    }
  }

  // ── One line ──────────────────────────────────────────────────────────────

  lemma OnlyOne(l: string)
    ensures (VERSION <= l ==> !(SIZE <= l) && !(SHA <= l)) && (SIZE <= l ==> !(SHA <= l))
    ensures !(VERSION <= "") && !(SIZE <= "") && !(SHA <= "")
  {
    assert VERSION[0] == 'v' && SIZE[0] == 's' && SHA[0] == 's' && SIZE[1] == 'i' && SHA[1] == 'h';
  }

  lemma NumberIs(x: string)
    ensures IsNumber(x) <==> ParsedU32(x).Some?
    ensures IsNumber(x) ==> ReadsAs(x, ParsedU32(x).value)
  {
    hide Value, AllDigits;
  }

  lemma OneOrNone(x: string)
    ensures (AllNumbers([x]) <==> IsNumber(x)) && (AllDigests([x]) <==> IsDigest(x))
    ensures AllNumbers([]) && AllDigests([])
  {
    assert [x][0] == x;
    hide IsNumber, IsDigest;
  }

  /** A line is refused exactly for its length or a malformed field; otherwise it counts its field
    * and notes its value. */
  lemma LineIs(s: Scan, line: string)
    ensures var r := ScanLine(s, line);
            var v, z, h := Field(VERSION, line), Field(SIZE, line), Field(SHA, line);
            && (r.Some? <==> |Stripped(line)| < 128 && AllNumbers(v) && AllNumbers(z) && AllDigests(h))
            && (r.Some? ==>
                  && r.value.versions == s.versions + |v| && r.value.sizes == s.sizes + |z|
                  && r.value.shas == s.shas + |h|
                  && (if v == [] then r.value.man.version == s.man.version else ReadsAs(v[0], r.value.man.version))
                  && (if z == [] then r.value.man.size == s.man.size else ReadsAs(z[0], r.value.man.size))
                  && r.value.man.sha == if h == [] then s.man.sha else h[0])
  {
    var l := Stripped(line);
    OnlyOne(l);
    assert |VERSION| == 8 && |SIZE| == 5 && |SHA| == 7;
    OneOrNone("");
    hide Stripped, ParsedU32, AllNumbers, AllDigests, IsNumber, ReadsAs, IsHex64, IsDigest;
    if VERSION <= l {
      NumberIs(l[8..]);
      OneOrNone(l[8..]);
    } else if SIZE <= l {
      NumberIs(l[5..]);
      OneOrNone(l[5..]);
    } else if SHA <= l {
      DigestIsHex(l[7..]);
      OneOrNone(l[7..]);
    }
  }

  // ── All lines ─────────────────────────────────────────────────────────────

  /** What some fields make of the value noted before. */
  predicate Noted(fs: seq<string>, before: u32, after: u32) {
    (|fs| == 0 ==> after == before) && (|fs| == 1 ==> ReadsAs(fs[0], after))
  }

  predicate NotedSha(fs: seq<string>, before: string, after: string) {
    (|fs| == 0 ==> after == before) && (|fs| == 1 ==> after == fs[0])
  }

  lemma NotedThen(fs: seq<string>, gs: seq<string>, a: u32, b: u32, c: u32)
    requires |fs| <= 1 && Noted(fs, a, b) && Noted(gs, b, c)
    ensures Noted(fs + gs, a, c)
  {
    assert fs == [] ==> fs + gs == gs;
  }

  lemma NotedShaThen(fs: seq<string>, gs: seq<string>, a: string, b: string, c: string)
    requires |fs| <= 1 && NotedSha(fs, a, b) && NotedSha(gs, b, c)
    ensures NotedSha(fs + gs, a, c)
  {
    assert fs == [] ==> fs + gs == gs;
  }

  /** A text is read through exactly when no line is too long and no field malformed. */
  predicate Readable(lines: seq<string>) {
    && NoneLong(lines) && AllNumbers(Fields(VERSION, lines)) && AllNumbers(Fields(SIZE, lines))
    && AllDigests(Fields(SHA, lines))
  }

  predicate Sums(s: Scan, t: Scan, lines: seq<string>) {
    var v, z, h := Fields(VERSION, lines), Fields(SIZE, lines), Fields(SHA, lines);
    && t.versions == s.versions + |v| && t.sizes == s.sizes + |z| && t.shas == s.shas + |h|
    && Noted(v, s.man.version, t.man.version) && Noted(z, s.man.size, t.man.size)
    && NotedSha(h, s.man.sha, t.man.sha)
  }

  lemma NumbersTogether(fs: seq<string>, gs: seq<string>)
    ensures AllNumbers(fs + gs) <==> AllNumbers(fs) && AllNumbers(gs)
  {
    hide IsNumber;
    assert forall i :: 0 <= i < |fs| ==> (fs + gs)[i] == fs[i];
    assert forall i :: 0 <= i < |gs| ==> (fs + gs)[|fs| + i] == gs[i];
  }

  lemma DigestsTogether(fs: seq<string>, gs: seq<string>)
    ensures AllDigests(fs + gs) <==> AllDigests(fs) && AllDigests(gs)
  {
    hide IsDigest;
    assert forall i :: 0 <= i < |fs| ==> (fs + gs)[i] == fs[i];
    assert forall i :: 0 <= i < |gs| ==> (fs + gs)[|fs| + i] == gs[i];
  }

  predicate ReadableLine(line: string) {
    |Stripped(line)| < 128 && AllNumbers(Field(VERSION, line)) && AllNumbers(Field(SIZE, line))
    && AllDigests(Field(SHA, line))
  }

  lemma ReadableMore(lines: seq<string>)
    requires lines != []
    ensures Readable(lines) <==> ReadableLine(lines[0]) && Readable(lines[1..])
  {
    hide AllNumbers, AllDigests, Field, Stripped;
    NumbersTogether(Field(VERSION, lines[0]), Fields(VERSION, lines[1..]));
    NumbersTogether(Field(SIZE, lines[0]), Fields(SIZE, lines[1..]));
    DigestsTogether(Field(SHA, lines[0]), Fields(SHA, lines[1..]));
    assert forall i :: 0 < i < |lines| ==> lines[i] == lines[1..][i - 1];
  }

  lemma SumsMore(s: Scan, mid: Scan, t: Scan, lines: seq<string>)
    requires lines != [] && ScanLine(s, lines[0]) == Some(mid) && Sums(mid, t, lines[1..])
    ensures Sums(s, t, lines)
  {
    LineIs(s, lines[0]);
    FewFields(lines[0]);
    var l := lines[0];
    hide ScanLine, Field, ReadsAs, AllNumbers, AllDigests;
    NotedThen(Field(VERSION, l), Fields(VERSION, lines[1..]), s.man.version, mid.man.version, t.man.version);
    NotedThen(Field(SIZE, l), Fields(SIZE, lines[1..]), s.man.size, mid.man.size, t.man.size);
    NotedShaThen(Field(SHA, l), Fields(SHA, lines[1..]), s.man.sha, mid.man.sha, t.man.sha);
    hide Noted, NotedSha;
  }

  lemma FewFields(line: string)
    ensures |Field(VERSION, line)| <= 1 && |Field(SIZE, line)| <= 1 && |Field(SHA, line)| <= 1
  {
  }

  lemma {:induction false} LinesAre(s: Scan, lines: seq<string>)
    ensures ScanLines(s, lines).Some? <==> Readable(lines)
    ensures Readable(lines) ==> Sums(s, ScanLines(s, lines).value, lines)
    decreases |lines|
  {
    if lines != [] {
      LineIs(s, lines[0]);
      ReadableMore(lines);
      hide Readable, Sums, ScanLine, Field, ReadsAs, AllNumbers, AllDigests, Stripped;
      var r := ScanLine(s, lines[0]);
      if r.Some? {
        LinesAre(r.value, lines[1..]);
        if Readable(lines) {
          SumsMore(s, r.value, ScanLines(s, lines).value, lines);
        }
      }
    }
  }

  /** Exactly the texts with each field on exactly one line, well-formed, and no line too long are
    * manifests; order, other lines and carriage returns do not matter. The values are the
    * fields' own. */
  lemma ParsedIff(text: string, m: Manifest)
    ensures Parsed(text) == Some(m) <==>
            var lines := SplitLines(text);
            var v, z, h := Fields(VERSION, lines), Fields(SIZE, lines), Fields(SHA, lines);
            && NoneLong(lines)
            && |v| == 1 && ReadsAs(v[0], m.version) && |z| == 1 && ReadsAs(z[0], m.size)
            && h == [m.sha] && IsDigest(m.sha)
  {
    var lines := SplitLines(text);
    LinesAre(START, lines);
    hide SplitLines, Fields, NoneLong, ScanLines, Value, AllDigits, IsDigest;
  }

  // ── The last line ─────────────────────────────────────────────────────────

  lemma {:induction false} EndOfAll(l: string)
    requires IsLine(l)
    ensures LineEnd(l) == |l|
  {
    if l != [] {
      EndOfAll(l[1..]);
    }
  }

  lemma OneLine(last: string)
    requires IsLine(last) && last != ""
    ensures SplitLines(last) == [last]
  {
    EndOfAll(last);
    hide IsLine;
    assert last[..|last|] == last && AfterLine(last) == "";
    assert SplitLines("") == [];
  }

  lemma FirstLine(l: string, rest: string)
    requires IsLine(l)
    ensures SplitLines(l + "\n" + rest) == [l] + SplitLines(rest)
  {
    var all := l + "\n" + rest;
    EndOfFirst(l, rest);
    hide LineEnd;
    assert all[..|l|] == l && all[|l| + 1..] == rest;
  }

  lemma {:induction false} SplitUnended(lines: seq<string>, last: string)
    requires (forall i :: 0 <= i < |lines| ==> IsLine(lines[i])) && IsLine(last) && last != ""
    ensures SplitLines(Text(lines) + last) == lines + [last]
    decreases |lines|
  {
    hide SplitLines, IsLine;
    if lines == [] {
      OneLine(last);
      assert Text(lines) + last == last;
    } else {
      var rest := Text(lines[1..]) + last;
      assert Text(lines) + last == lines[0] + "\n" + rest;
      FirstLine(lines[0], rest);
      SplitUnended(lines[1..], last);
      assert lines == [lines[0]] + lines[1..];
    }
  }

  /** The last line need not be ended. */
  lemma LastFeedIsOptional(lines: seq<string>, last: string)
    requires (forall i :: 0 <= i < |lines| ==> IsLine(lines[i])) && IsLine(last) && last != ""
    ensures Parsed(Text(lines) + last) == Parsed(Text(lines + [last]))
  {
    SplitUnended(lines, last);
    SplitOfText(lines + [last]);
    hide SplitLines, Text, ScanLines;
  }
}
