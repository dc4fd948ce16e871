/** The keymap: redacted tokens for paths, and the file that maps them back, written and read again. */
module Keymap {
  import opened Common

  const WORD: nat := 0x1_0000_0000_0000_0000
  type Hash = n: nat | n < WORD
  type Byte = n: nat | n < 256
  type Salt = s: seq<Byte> | |s| == 32 witness seq(32, _ => 0)

  /** The keyed hash: any function of the normalized path and the salt. */
  type KeyedHash = (string, Salt) -> Hash

  // ---- tokens -------------------------------------------------------------------------------

  const MEDIA_EXTS: seq<string> := ["mp4", "mkv", "avi", "mov", "webm", "ts", "m4v", "wmv", "flv"]

  function Normalized(path: string): (n: string)
    ensures |n| == |path|
    ensures forall i :: 0 <= i < |n| ==> n[i] == if path[i] == '\\' then '/' else path[i]
  {
    seq(|path|, i requires 0 <= i < |path| => if path[i] == '\\' then '/' else path[i])
  }

  /** What follows the last separator. */
  function FileName(path: string): string {
    if path == "" then ""
    else if path[|path| - 1] in {'/', '\\'} then ""
    else FileName(path[..|path| - 1]) + [path[|path| - 1]]
  }

  /** What follows the last dot; nothing if there is none. */
  function Extension(name: string): Option<string> {
    if name == "" then None
    else if name[|name| - 1] == '.' then Some("")
    else
      var e := Extension(name[..|name| - 1]);
      if e.None? then None else Some(e.value + [name[|name| - 1]])
  }

  function Lower(c: char): char {
    if 'A' <= c <= 'Z' then c - 'A' + 'a' else c
  }

  function LowerCase(s: string): string {
    seq(|s|, i requires 0 <= i < |s| => Lower(s[i]))
  }

  function MediaExt(path: string): string {
    var e := Extension(FileName(path));
    var lower := LowerCase(if e.None? then "" else e.value);
    if lower in MEDIA_EXTS then lower else "bin"
  }

  function HexChar(d: nat): (c: char)
    requires d < 16
    ensures '0' <= c <= '9' || 'a' <= c <= 'f'
  {
    if d < 10 then '0' + d as char else 'a' + (d - 10) as char
  }

  predicate IsHexChar(c: char) {
    '0' <= c <= '9' || 'a' <= c <= 'f'
  }

  /** The last `n` hexadecimal digits. */
  function HexDigits(h: nat, n: nat): (s: string)
    ensures |s| == n
    ensures forall c :: c in s ==> IsHexChar(c)
  {
    if n == 0 then "" else HexDigits(h / 16, n - 1) + [HexChar(h % 16)]
  }

  function Token(h: Hash, path: string): string {
    HexDigits(h, 16) + "." + MediaExt(path)
  }

  function RedactWithSalt(hash: KeyedHash, path: string, salt: Salt): string {
    Token(hash(Normalized(path), salt), Normalized(path))
  }

  // ---- the file -----------------------------------------------------------------------------

  const HEADER_TITLE := " vidcull keymap v1 \U{2014} "
  const HEADER_NOTE := "LOCAL ONLY, never submit. "
  const HEADER_USE := "Maps redacted token -> real path."
  const HEADER := "#" + HEADER_TITLE + HEADER_NOTE + HEADER_USE
  const SALT_PREFIX := "salt "

  function SaltHex(salt: seq<Byte>): (s: string)
    ensures |s| == 2 * |salt|
    ensures forall c :: c in s ==> IsHexChar(c)
  {
    if salt == [] then "" else HexDigits(salt[0], 2) + SaltHex(salt[1..])
  }

  function HeadText(salt: Salt): string {
    HEADER + "\n" + SALT_PREFIX + SaltHex(salt) + "\n"
  }

  function EntryLine(tok: string, path: string): string {
    tok + "\t" + path
  }

  /** The position of the first `c`, or the end. */
  function Find(s: string, c: char): (i: nat)
    ensures i <= |s|
  {
    if s == "" || s[0] == c then 0 else 1 + Find(s[1..], c)
  }

  lemma {:induction false} FindIsFirst(s: string, c: char)
    ensures forall k :: 0 <= k < Find(s, c) ==> s[k] != c
    ensures Find(s, c) < |s| ==> s[Find(s, c)] == c
  {
    if s != "" && s[0] != c {
      FindIsFirst(s[1..], c);
      assert forall k :: 1 <= k < |s| ==> s[k] == s[1..][k - 1];
    }
  }

  function StripCr(line: string): string {
    if line != "" && line[|line| - 1] == '\r' then line[..|line| - 1] else line
  }

  /** The lines of a text, without "\n" or "\r\n"; a last line need not be terminated. */
  function Lines(text: string): seq<string>
    decreases |text|
  {
    if text == "" then []
    else
      var i := Find(text, '\n');
      if i == |text| then [text] else [StripCr(text[..i])] + Lines(text[i + 1..])
  }

  function HexValue(c: char): Option<nat> {
    if '0' <= c <= '9' then Some((c - '0') as nat)
    else if 'a' <= c <= 'f' then Some((c - 'a') as nat + 10)
    else if 'A' <= c <= 'F' then Some((c - 'A') as nat + 10)
    else None
  }

  function ParseDigits(s: string): Option<nat> {
    if s == "" then Some(0)
    else
      var p, d := ParseDigits(s[..|s| - 1]), HexValue(s[|s| - 1]);
      if p.Some? && d.Some? then Some(16 * p.value + d.value) else None
  }

  /** from_str_radix(_, 16) of an unsigned type: one leading plus sign, at least one digit, no overflow. */
  function ParseHex(s: string, limit: nat): (r: Option<nat>)
    ensures r.Some? ==> r.value < limit
  {
    var digits := if s != "" && s[0] == '+' then s[1..] else s;
    if digits == "" then None
    else
      var v := ParseDigits(digits);
      if v.Some? && v.value < limit then v else None
  }

  predicate IsSpace(c: char) {
    c in {' ', '\t', '\n', '\r', '\U{0b}', '\U{0c}'}
  }

  function Trim(s: string): string
    decreases |s|
  {
    if s == "" then s
    else if IsSpace(s[0]) then Trim(s[1..])
    else if IsSpace(s[|s| - 1]) then Trim(s[..|s| - 1])
    else s
  }

  function ParseByte(s: string): Option<Byte> {
    var r := ParseHex(s, 256);
    if r.Some? then Some(r.value) else None
  }

  /** Byte after byte, two characters each. */
  function ParsePairs(byte: string -> Option<Byte>, hex: string): (r: Option<seq<Byte>>)
    requires |hex| % 2 == 0
    ensures r.Some? ==> 2 * |r.value| == |hex|
  {
    if hex == "" then Some([])
    else
      var n := |hex| - 2;
      var init, last := ParsePairs(byte, hex[..n]), byte(hex[n..]);
      if init.Some? && last.Some? then Some(init.value + [last.value]) else None
  }

  function ParseSalt(text: string): Option<Salt> {
    var hex := Trim(text);
    if |hex| != 64 then None else ParsePairs(ParseByte, hex)
  }

  datatype Loaded = Loaded(salt: Option<Salt>, seen: set<Hash>)

  /** What one line adds to what has been read so far. */
  function ReadLine(l: Loaded, line: string): Loaded {
    if line == "" || line[0] == '#' then l
    else if SALT_PREFIX <= line then l.(salt := ParseSalt(line[|SALT_PREFIX|..]))
    else
      var tab := Find(line, '\t');
      if tab == |line| then l
      else
        var tok := line[..tab];
        var h := ParseHex(tok[..Find(tok, '.')], WORD);
        if h.Some? then l.(seen := l.seen + {h.value}) else l
  }

  function Fold<L, T>(step: (L, T) -> L, l: L, items: seq<T>): L
    decreases |items|
  {
    if items == [] then l else step(Fold(step, l, items[..|items| - 1]), items[|items| - 1])
  }

  function ReadLines(l: Loaded, lines: seq<string>): Loaded {
    Fold(ReadLine, l, lines)
  }

  /** Some(salt and hashes) if the text holds a salt. */
  function Load(text: string): Option<(Salt, set<Hash>)> {
    var l := ReadLines(Loaded(None, {}), Lines(text));
    if l.salt.None? then None else Some((l.salt.value, l.seen))
  }

  // ---- the redactor -------------------------------------------------------------------------

  class KeymapFile {
    var text: Option<string>    // None: there is no such file

    constructor ()
      ensures text == None
    {
      text := None;
    }
  }

  method ParseSaltHex(text: string) returns (result: Option<Salt>)
    ensures result == ParseSalt(text)
  {
    hide Trim, ParseByte, ParseHex, ParsePairs;
    var hex := Trim(text);
    if |hex| != 64 {
      return None;
    }
    var salt := new Byte[32](_ => 0);
    var i := 0;
    NoPairs(ParseByte, hex);
    assert salt[..0] == [];
    while i < 32
      invariant 0 <= i <= 32
      invariant ParsePairs(ParseByte, hex[..2 * i]) == Some(salt[..i])
    {
      OneMorePair(ParseByte, hex, i, salt[..i]);
      var byte := ParseByte(hex[2 * i..2 * i + 2]);
      if byte.None? {
        BrokenPrefix(ParseByte, hex, 2 * i + 2);
        return None;
      }
      ghost var before := salt[..i];
      salt[i] := byte.value;
      assert salt[..i + 1] == before + [byte.value];
      i := i + 1;
    }
    assert hex[..64] == hex && salt[..32] == salt[..];
    return Some(salt[..]);
  }

  lemma NoPairs(byte: string -> Option<Byte>, hex: string)
    ensures hex[..0] == "" && ParsePairs(byte, "") == Some([])
  {
  }

  lemma OneMorePair(byte: string -> Option<Byte>, hex: string, i: nat, bytes: seq<Byte>)
    requires 2 * i + 2 <= |hex| && ParsePairs(byte, hex[..2 * i]) == Some(bytes)
    ensures var b := byte(hex[2 * i..2 * i + 2]);
            ParsePairs(byte, hex[..2 * i + 2]) == if b.Some? then Some(bytes + [b.value]) else None
  {
    var prefix := hex[..2 * i + 2];
    assert prefix[..2 * i] == hex[..2 * i] && prefix[2 * i..] == hex[2 * i..2 * i + 2];
  }

  lemma {:induction false} BrokenPrefix(byte: string -> Option<Byte>, hex: string, n: nat)
    requires |hex| % 2 == 0 && n % 2 == 0 && n <= |hex| && ParsePairs(byte, hex[..n]) == None
    ensures ParsePairs(byte, hex) == None
    decreases |hex|
  {
    if n == |hex| {
      assert hex[..n] == hex;
    } else {
      var shorter := hex[..|hex| - 2];
      assert shorter[..n] == hex[..n];
      BrokenPrefix(byte, shorter, n);
    }
  }

  method LoadKeymap(file: KeymapFile) returns (result: Option<(Salt, set<Hash>)>)
    ensures result == if file.text.None? then None else Load(file.text.value)
  {
    if file.text.None? {
      return None;
    }
    var lines := Lines(file.text.value);
    var salt: Option<Salt> := None;
    var seen: set<Hash> := {};
    var k := 0;
    while k < |lines|
      invariant 0 <= k <= |lines|
      invariant Loaded(salt, seen) == ReadLines(Loaded(None, {}), lines[..k])
    {
      var line := lines[k];
      assert lines[..k + 1][..k] == lines[..k];
      k := k + 1;
      if line == "" || line[0] == '#' {
        continue;
      }
      if SALT_PREFIX <= line {
        salt := ParseSaltHex(line[|SALT_PREFIX|..]);
        continue;
      }
      var tab := Find(line, '\t');
      if tab < |line| {
        var tok := line[..tab];
        var h := ParseHex(tok[..Find(tok, '.')], WORD);
        if h.Some? {
          seen := seen + {h.value};
        }
      }
    }
    assert lines[..k] == lines;
    return if salt.None? then None else Some((salt.value, seen));
  }

  /** How creating the file goes: it may be impossible, or break off with part of the head written. */
  datatype Creation = Works | Impossible | BreaksOff(written: nat)

  /** How writing a line goes: all of it, or only the first characters. */
  datatype Write = Whole | Torn(written: nat)

  function Prefix(s: string, n: nat): string {
    s[..Min(n, |s|)]
  }

  class Redactor {
    const hash: KeyedHash
    const file: KeymapFile
    const salt: Salt
    var seen: set<Hash>
    var writing: bool        // there is an open file to append to

    /** open_or_create: without a readable file a new one with a fresh salt, or none at all. */
    constructor OpenOrCreate(file: KeymapFile, hash: KeyedHash, newSalt: Salt, appendable: bool, creation: Creation)
      modifies file
      ensures this.file == file && this.hash == hash
      ensures var loaded := if old(file.text).None? then None else Load(old(file.text.value));
              if loaded.Some?
              then file.text == old(file.text) && salt == loaded.value.0 && seen == loaded.value.1 && writing == appendable
              else
                && salt == newSalt && seen == {} && (writing <==> creation.Works?)
                && file.text == match creation
                   case Works => Some(HeadText(newSalt))
                   case Impossible => old(file.text)
                   case BreaksOff(n) => Some(Prefix(HeadText(newSalt), n))
      ensures writing ==> file.text.Some?
    {
      this.file, this.hash := file, hash;
      var loaded := LoadKeymap(file);
      if loaded.Some? {
        salt, seen, writing := loaded.value.0, loaded.value.1, appendable;
      } else {
        salt, seen, writing := newSalt, {}, creation.Works?;
      }
      new;
      if loaded.None? {
        var head := HEADER + "\n" + SALT_PREFIX + SaltHex(newSalt) + "\n";
        match creation {
          case Works => file.text := Some(head);
          case Impossible =>
          case BreaksOff(n) => file.text := Some(Prefix(head, n));
        }
      }
    }

    /** The token comes back whatever happens to the file; the first failed write is the last one tried. */
    method Redact(path: string, write: Write) returns (tok: string)
      requires writing ==> file.text.Some?
      modifies this, file
      ensures tok == RedactWithSalt(hash, path, salt)
      ensures seen == old(seen) + {hash(Normalized(path), salt)}
      ensures var h := hash(Normalized(path), salt);
              var line := EntryLine(tok, Normalized(path)) + "\n";
              if h in old(seen) || !old(writing) then file.text == old(file.text) && writing == old(writing)
              else match write
                case Whole => file.text == Some(old(file.text.value) + line) && writing
                case Torn(n) => file.text == Some(old(file.text.value) + Prefix(line, n)) && !writing
      ensures writing ==> file.text.Some?
    {
      var normalized := Normalized(path);
      var h := hash(normalized, salt);
      tok := Token(h, normalized);
      if h !in seen {
        seen := seen + {h};
        if writing {
          var line := tok + "\t" + normalized + "\n";
          match write {
            case Whole => file.text := Some(file.text.value + line);
            case Torn(n) =>
              file.text := Some(file.text.value + Prefix(line, n));
              writing := false;
          }
        }
      }
    }
  }

  // ---- hexadecimal there and back -------------------------------------------------------------

  function Pow16(n: nat): (p: nat)
    ensures p > 0
  {
    if n == 0 then 1 else 16 * Pow16(n - 1)
  }

  lemma {:induction false} ParseHexDigits(h: nat, n: nat)
    requires h < Pow16(n)
    ensures ParseDigits(HexDigits(h, n)) == Some(h)
  {
    if n > 0 {
      ParseHexDigits(h / 16, n - 1);
      var s := HexDigits(h, n);
      assert s[..|s| - 1] == HexDigits(h / 16, n - 1);
      assert HexValue(HexChar(h % 16)) == Some(h % 16);
    }
  }

  lemma HexRoundTrip(h: nat, n: nat, limit: nat)
    requires n > 0 && h < Pow16(n) && h < limit
    ensures ParseHex(HexDigits(h, n), limit) == Some(h)
  {
    ParseHexDigits(h, n);
    assert HexDigits(h, n)[0] in HexDigits(h, n);
  }

  lemma SixteenDigits()
    ensures Pow16(16) == WORD
    ensures Pow16(2) == 256
  {
    assert Pow16(4) == 0x1_0000;
    assert Pow16(8) == 0x1_0000_0000;
    assert Pow16(12) == 0x1_0000_0000_0000;
  }

  lemma {:induction false} SaltHexSnoc(salt: seq<Byte>, b: Byte)
    ensures SaltHex(salt + [b]) == SaltHex(salt) + HexDigits(b, 2)
  {
    if salt == [] {
      assert salt + [b] == [b] && [b][1..] == [];
      assert SaltHex([b]) == HexDigits(b, 2) + "";
    } else {
      assert (salt + [b])[1..] == salt[1..] + [b];
      SaltHexSnoc(salt[1..], b);
    }
  }

  lemma {:induction false} SaltRoundTrip(salt: seq<Byte>)
    ensures ParsePairs(ParseByte, SaltHex(salt)) == Some(salt)
  {
    if salt != [] {
      var init, b := salt[..|salt| - 1], salt[|salt| - 1];
      assert salt == init + [b];
      SaltHexSnoc(init, b);
      SaltRoundTrip(init);
      var hex := SaltHex(salt);
      assert hex[..|hex| - 2] == SaltHex(init) && hex[|hex| - 2..] == HexDigits(b, 2);
      SixteenDigits();
      HexRoundTrip(b, 2, 256);
    }
  }

  lemma SaltTextRoundTrip(salt: Salt)
    ensures ParseSalt(SaltHex(salt)) == Some(salt)
  {
    var hex := SaltHex(salt);
    assert hex[0] in hex && hex[63] in hex;
    assert Trim(hex) == hex;
    SaltRoundTrip(salt);
  }

  // ---- lines there and back -------------------------------------------------------------------

  predicate OneLine(s: string) {
    '\n' !in s
  }

  lemma FindSkips(s: string, t: string, c: char)
    requires c !in s
    ensures Find(s + [c] + t, c) == |s|
  {
    var u := s + [c] + t;
    assert u[|s|] == c;
    FindIsFirst(u, c);
    assert forall k :: 0 <= k < |s| ==> u[k] == s[k] && s[k] in s;
  }

  lemma FirstLine(line: string, rest: string)
    requires OneLine(line)
    ensures Lines(line + "\n" + rest) == [StripCr(line)] + Lines(rest)
  {
    var text := line + "\n" + rest;
    FindSkips(line, rest, '\n');
    assert text[..|line|] == line && text[|line| + 1..] == rest;
  }

  lemma SplitFirst(text: string) returns (first: string, rest: string)
    requires text != "" && text[|text| - 1] == '\n'
    ensures OneLine(first) && text == first + "\n" + rest
    ensures rest == "" || rest[|rest| - 1] == '\n'
  {
    FindIsFirst(text, '\n');
    var i := Find(text, '\n');
    first, rest := text[..i], text[i + 1..];
  }

  lemma MoreAtTheEnd(first: string, rest: string, more: string)
    ensures first + "\n" + rest + more == first + "\n" + (rest + more)
  {
  }

  /** Appending a terminated line to a text that ends in one appends exactly one line. */
  lemma {:induction false} LinesAppend(text: string, line: string)
    requires OneLine(line) && (text == "" || text[|text| - 1] == '\n')
    ensures Lines(text + (line + "\n")) == Lines(text) + [StripCr(line)]
    decreases |text|
  {
    if text == "" {
      assert text + (line + "\n") == line + "\n" + "";
      FirstLine(line, "");
    } else {
      var first, rest := SplitFirst(text);
      MoreAtTheEnd(first, rest, line + "\n");
      FirstLine(first, rest + (line + "\n"));
      FirstLine(first, rest);
      LinesAppend(rest, line);
    }
  }

  lemma ReadOneMore(lines: seq<string>, line: string)
    ensures ReadLines(Loaded(None, {}), lines + [line]) == ReadLine(ReadLines(Loaded(None, {}), lines), line)
  {
    assert (lines + [line])[..|lines|] == lines;
  }

  // ---- what is written is what is read ----------------------------------------------------------

  predicate Plain(s: string) {
    forall c :: c in s ==> 'a' <= c <= 'z' || '0' <= c <= '9'
  }

  lemma KnownExtIsPlain(i: nat)
    requires i < |MEDIA_EXTS|
    ensures Plain(MEDIA_EXTS[i])
  {
  }

  lemma ExtIsPlain(path: string)
    ensures Plain(MediaExt(path))
  {
    var e := Extension(FileName(path));
    var lower := LowerCase(if e.None? then "" else e.value);
    if lower in MEDIA_EXTS {
      var i :| 0 <= i < |MEDIA_EXTS| && MEDIA_EXTS[i] == lower;
      KnownExtIsPlain(i);
    }
  }

  /** What a reader makes of a token: the digits before its dot. */
  lemma TokenIsRead(h: Hash, ext: string)
    requires Plain(ext)
    ensures var tok := HexDigits(h, 16) + "." + ext;
            && '\t' !in tok && IsHexChar(tok[0])
            && ParseHex(tok[..Find(tok, '.')], WORD) == Some(h)
  {
    var hex := HexDigits(h, 16);
    var tok := hex + "." + ext;
    assert forall c :: c in tok ==> c in hex || c == '.' || c in ext;
    FindSkips(hex, ext, '.');
    assert tok[..16] == hex && tok[0] == hex[0] && hex[0] in hex;
    SixteenDigits();
    HexRoundTrip(h, 16, WORD);
  }

  /** A line that starts with such a token and a tab is read as its hash, whatever follows. */
  lemma TokenLineIsRead(l: Loaded, tok: string, tail: string, h: Hash)
    requires tok != "" && '\t' !in tok && IsHexChar(tok[0])
    requires ParseHex(tok[..Find(tok, '.')], WORD) == Some(h)
    ensures ReadLine(l, tok + "\t" + tail) == l.(seen := l.seen + {h})
  {
    var line := tok + "\t" + tail;
    FindSkips(tok, tail, '\t');
    assert line[..|tok|] == tok;
    assert line[0] == tok[0] && SALT_PREFIX[0] == 's';
  }

  /** A written entry is read as its hash and nothing else, whatever the path, tabs and a final "\r" included. */
  lemma EntryIsRead(l: Loaded, h: Hash, tok: string, path: string)
    requires tok == Token(h, path)
    ensures ReadLine(l, StripCr(EntryLine(tok, path))) == l.(seen := l.seen + {h})
  {
    ExtIsPlain(path);
    TokenIsRead(h, MediaExt(path));
    var tail := if path == "" then "" else StripCr(path);
    StripOfEntry(tok, path);
    TokenLineIsRead(l, tok, tail, h);
  }

  lemma StripOfEntry(tok: string, path: string)
    ensures StripCr(EntryLine(tok, path)) == tok + "\t" + (if path == "" then "" else StripCr(path))
  {
  }

  lemma EntryIsOneLine(h: Hash, path: string)
    requires OneLine(path)
    ensures OneLine(EntryLine(Token(h, path), path))
  {
    ExtIsPlain(path);
    var hex, ext := HexDigits(h, 16), MediaExt(path);
    assert forall c :: c in EntryLine(Token(h, path), path) ==> c in hex || c == '.' || c in ext || c == '\t' || c in path;
  }

  lemma HeadEndsInNewline(salt: Salt)
    ensures HeadText(salt) != "" && HeadText(salt)[|HeadText(salt)| - 1] == '\n'
  {
  }

  lemma TwoLines(a: string, b: string)
    requires OneLine(a) && OneLine(b)
    ensures Lines(a + "\n" + b + "\n") == [StripCr(a), StripCr(b)]
  {
    assert a + "\n" + b + "\n" == a + "\n" + (b + "\n" + "");
    FirstLine(a, b + "\n" + "");
    FirstLine(b, "");
  }

  lemma ReadTwo(a: string, b: string)
    ensures ReadLines(Loaded(None, {}), [a, b]) == ReadLine(ReadLine(Loaded(None, {}), a), b)
  {
    assert [a, b][..1] == [a] && [a][..0] == [];
    ReadOneMore([a], b);
    ReadOneMore([], a);
    assert [] + [a] == [a] && [a] + [b] == [a, b];
  }

  lemma SaltLineIsRead(l: Loaded, salt: Salt)
    ensures var line := SALT_PREFIX + SaltHex(salt);
            OneLine(line) && StripCr(line) == line && ReadLine(l, line) == l.(salt := Some(salt))
  {
    var hex := SaltHex(salt);
    var line := SALT_PREFIX + hex;
    assert line[|line| - 1] == hex[63] && hex[63] in hex;
    assert line[|SALT_PREFIX|..] == hex;
    assert line[0] == SALT_PREFIX[0] == 's';
    assert forall c :: c in line ==> c in SALT_PREFIX || c in hex;
    assert '\n' !in SALT_PREFIX;
    SaltTextRoundTrip(salt);
  }

  lemma HeaderIsSkipped(l: Loaded)
    ensures OneLine(HEADER) && StripCr(HEADER) == HEADER && ReadLine(l, HEADER) == l
  {
    assert HEADER[0] == '#';
    assert OneLine(HEADER_TITLE) && OneLine(HEADER_NOTE) && OneLine(HEADER_USE);
    assert HEADER[|HEADER| - 1] == HEADER_USE[|HEADER_USE| - 1] == '.';
  }

  lemma HeadIsRead(salt: Salt)
    ensures Lines(HeadText(salt)) == [HEADER, SALT_PREFIX + SaltHex(salt)]
    ensures ReadLines(Loaded(None, {}), Lines(HeadText(salt))) == Loaded(Some(salt), {})
  {
    var none := Loaded(None, {});
    HeaderIsSkipped(none);
    SaltLineIsRead(none, salt);
    HeadIsTwo(salt);
    TwoLines(HEADER, SALT_PREFIX + SaltHex(salt));
    ReadTwo(HEADER, SALT_PREFIX + SaltHex(salt));
  }

  lemma HeadIsTwo(salt: Salt)
    ensures HeadText(salt) == HEADER + "\n" + (SALT_PREFIX + SaltHex(salt)) + "\n"
  {
  }

  // ---- whole runs ---------------------------------------------------------------------------

  /**
   * The parts of the format that a run does not look into: the keyed hash, the token of a hash and
   * a path, the head of a new file, and how one line is read.
   */
  datatype Format = Format(hash: KeyedHash, token: (Hash, string) -> string, head: Salt -> string, read: (Loaded, string) -> Loaded)

  function Vidcull(hash: KeyedHash): Format {
    Format(hash, Token, HeadText, ReadLine)
  }

  function Add(l: Loaded, h: Hash): Loaded {
    l.(seen := l.seen + {h})
  }

  /** A line that is read as one hash, whatever was read before. */
  ghost predicate ReadsAs(line: string, h: Hash) {
    forall l :: ReadLine(l, line) == Add(l, h)
  }

  predicate Terminated(text: string) {
    text != "" && text[|text| - 1] == '\n'
  }

  ghost predicate HeadReads(text: string, salt: Salt) {
    Terminated(text) && ReadLines(Loaded(None, {}), Lines(text)) == Loaded(Some(salt), {})
  }

  ghost predicate Proper(entry: (string, Hash) -> bool, line: string, h: Hash) {
    OneLine(line) && entry(StripCr(line), h)
  }

  /** `entry` names the lines an entry may be; nothing else about them matters to a run. */
  ghost predicate Sound(f: Format, entry: (string, Hash) -> bool) {
    && (forall salt :: HeadReads(f.head(salt), salt))
    && (forall h, path :: OneLine(path) ==> Proper(entry, EntryLine(f.token(h, path), path), h))
    && (forall m, line, h :: entry(line, h) ==> f.read(m, line) == Add(m, h))
    && f.read == ReadLine
  }

  /** The file and the redactor in use; `hashes` and `lines` record what was written, in order. */
  datatype State = State(file: Option<string>, salt: Salt, seen: set<Hash>, hashes: seq<Hash>, lines: seq<string>)

  /** The program starts anew and opens the keymap, or redacts a path. `newSalt` is used only if a file is made. */
  datatype Op = Reopen(newSalt: Salt) | Redact(path: string)

  function Created(f: Format, newSalt: Salt): State {
    State(Some(f.head(newSalt)), newSalt, {}, [], [])
  }

  /** What the constructor and the method above do. */
  function Step(f: Format, s: State, op: Op): State
    requires s.file.Some?
  {
    match op
    case Reopen(newSalt) =>
      var loaded := Load(s.file.value);
      if loaded.Some? then s.(salt := loaded.value.0, seen := loaded.value.1) else Created(f, newSalt)
    case Redact(path) =>
      var h := f.hash(Normalized(path), s.salt);
      if h in s.seen then s else Written(s, h, EntryLine(f.token(h, Normalized(path)), Normalized(path)))
  }

  function Written(s: State, h: Hash, line: string): State
    requires s.file.Some?
  {
    State(Some(s.file.value + (line + "\n")), s.salt, s.seen + {h}, s.hashes + [h], s.lines + [line])
  }

  function Run(f: Format, s: State, ops: seq<Op>): State
    requires s.file.Some?
    decreases |ops|
  {
    if ops == [] then s else Run(f, Step(f, s, ops[0]), ops[1..])
  }

  /** Terminated lines below a head. */
  function Text(head: string, lines: seq<string>): string {
    if lines == [] then head else Text(head, lines[..|lines| - 1]) + (lines[|lines| - 1] + "\n")
  }

  /** The lines, as a reader gets them. */
  function Stripped(lines: seq<string>): (r: seq<string>)
    ensures |r| == |lines|
    ensures forall i :: 0 <= i < |lines| ==> r[i] == StripCr(lines[i])
  {
    seq(|lines|, i requires 0 <= i < |lines| => StripCr(lines[i]))
  }

  function Elements(hashes: seq<Hash>): set<Hash> {
    set h | h in hashes
  }

  ghost predicate Distinct(hashes: seq<Hash>) {
    forall i, j :: 0 <= i < j < |hashes| ==> hashes[i] != hashes[j]
  }

  ghost predicate Inv(f: Format, entry: (string, Hash) -> bool, s: State) {
    && s.file == Some(Text(f.head(s.salt), s.lines))
    && |s.lines| == |s.hashes| && (forall i :: 0 <= i < |s.lines| ==> Proper(entry, s.lines[i], s.hashes[i]))
    && s.seen == Elements(s.hashes) && Distinct(s.hashes)
  }

  /** The lines of a text built line by line, for any splitting that adds a line at a time. */
  lemma {:induction false} TextLines(split: string -> seq<string>, head: string, lines: seq<string>)
    requires forall text, line :: Terminated(text) && OneLine(line) ==> split(text + (line + "\n")) == split(text) + [StripCr(line)]
    requires Terminated(head) && forall i :: 0 <= i < |lines| ==> OneLine(lines[i])
    ensures Terminated(Text(head, lines))
    ensures split(Text(head, lines)) == split(head) + Stripped(lines)
  {
    if lines == [] {
      assert split(head) + Stripped(lines) == split(head);
    } else {
      var n := |lines| - 1;
      TextLines(split, head, lines[..n]);
      assert Stripped(lines) == Stripped(lines[..n]) + [StripCr(lines[n])];
      assert split(head) + Stripped(lines) == split(head) + Stripped(lines[..n]) + [StripCr(lines[n])];
    }
  }

  lemma {:induction false} FoldAppend<L, T>(step: (L, T) -> L, l: L, head: seq<T>, items: seq<T>)
    ensures Fold(step, l, head + items) == Fold(step, Fold(step, l, head), items)
  {
    if items == [] {
      assert head + items == head;
    } else {
      var n := |items| - 1;
      FoldAppend(step, l, head, items[..n]);
      assert (head + items)[..|head| + n] == head + items[..n];
    }
  }

  /** Two folds over paired items agree when their steps do. */
  lemma {:induction false} FoldPairs<L(!new), S(!new), T(!new)>(f: (L, S) -> L, g: (L, T) -> L, paired: (S, T) -> bool, l: L, xs: seq<S>, ys: seq<T>)
    requires forall m, x, y :: paired(x, y) ==> f(m, x) == g(m, y)
    requires |xs| == |ys| && forall i :: 0 <= i < |xs| ==> paired(xs[i], ys[i])
    ensures Fold(f, l, xs) == Fold(g, l, ys)
  {
    if xs != [] {
      var n := |xs| - 1;
      FoldPairs(f, g, paired, l, xs[..n], ys[..n]);
      assert paired(xs[n], ys[n]);
    }
  }

  lemma {:induction false} AddAll(l: Loaded, hashes: seq<Hash>)
    ensures Fold(Add, l, hashes) == l.(seen := l.seen + Elements(hashes))
  {
    if hashes != [] {
      var n := |hashes| - 1;
      AddAll(l, hashes[..n]);
      assert Elements(hashes) == Elements(hashes[..n]) + {hashes[n]};
    }
  }

  /** Reading entry lines below a head collects their hashes. */
  lemma EntriesAreRead(read: (Loaded, string) -> Loaded, entry: (string, Hash) -> bool, l: Loaded, salt: Salt,
      head: seq<string>, lines: seq<string>, hashes: seq<Hash>)
    requires forall m, line, h :: entry(line, h) ==> read(m, line) == Add(m, h)
    requires Fold(read, l, head) == Loaded(Some(salt), {})
    requires |lines| == |hashes| && forall i :: 0 <= i < |lines| ==> entry(lines[i], hashes[i])
    ensures Fold(read, l, head + lines) == Loaded(Some(salt), Elements(hashes))
  {
    FoldAppend(read, l, head, lines);
    FoldPairs(read, Add, entry, Loaded(Some(salt), {}), lines, hashes);
    AddAll(Loaded(Some(salt), {}), hashes);
  }

  lemma FileIsRead(f: Format, entry: (string, Hash) -> bool, s: State)
    requires Sound(f, entry) && Inv(f, entry, s)
    ensures Lines(s.file.value) == Lines(f.head(s.salt)) + Stripped(s.lines)
    ensures Load(s.file.value) == Some((s.salt, s.seen))
  {
    assert HeadReads(f.head(s.salt), s.salt);
    forall i | 0 <= i < |s.lines|
      ensures OneLine(s.lines[i])
    {
      assert Proper(entry, s.lines[i], s.hashes[i]);
    }
    forall text, line | Terminated(text) && OneLine(line)
      ensures Lines(text + (line + "\n")) == Lines(text) + [StripCr(line)]
    {
      LinesAppend(text, line);
    }
    TextLines(Lines, f.head(s.salt), s.lines);
    EntriesAreRead(f.read, entry, Loaded(None, {}), s.salt, Lines(f.head(s.salt)), Stripped(s.lines), s.hashes);
  }

  lemma WrittenKeepsInv(f: Format, entry: (string, Hash) -> bool, s: State, h: Hash, line: string)
    requires Inv(f, entry, s) && Proper(entry, line, h) && h !in s.seen
    ensures Inv(f, entry, Written(s, h, line))
  {
    assert (s.lines + [line])[..|s.lines|] == s.lines;
    assert forall i :: 0 <= i < |s.hashes| ==> s.hashes[i] in s.seen;
  }

  lemma StepKeepsInv(f: Format, entry: (string, Hash) -> bool, s: State, op: Op)
    requires Sound(f, entry) && Inv(f, entry, s) && (op.Redact? ==> OneLine(op.path))
    ensures Inv(f, entry, Step(f, s, op))
    ensures Step(f, s, op).salt == s.salt
    ensures Step(f, s, op).seen == s.seen + (if op.Redact? then {f.hash(Normalized(op.path), s.salt)} else {})
  {
    match op
    case Reopen(_) => FileIsRead(f, entry, s);
    case Redact(path) =>
      var n := Normalized(path);
      var h := f.hash(n, s.salt);
      assert OneLine(n);
      if h !in s.seen {
        WrittenKeepsInv(f, entry, s, h, EntryLine(f.token(h, n), n));
      } else {
        assert s.seen + {h} == s.seen;
      }
  }

  /** The hashes of the paths redacted by the operations. */
  function HashesOf(hash: KeyedHash, salt: Salt, ops: seq<Op>): (hs: set<Hash>)
    ensures forall h :: h in hs <==> exists i :: 0 <= i < |ops| && ops[i].Redact? && hash(Normalized(ops[i].path), salt) == h
  {
    set i | 0 <= i < |ops| && ops[i].Redact? :: hash(Normalized(ops[i].path), salt)
  }

  lemma HashesOfFirst(hash: KeyedHash, salt: Salt, ops: seq<Op>)
    requires ops != []
    ensures HashesOf(hash, salt, ops) == (if ops[0].Redact? then {hash(Normalized(ops[0].path), salt)} else {}) + HashesOf(hash, salt, ops[1..])
  {
    forall h | h in HashesOf(hash, salt, ops[1..])
      ensures h in HashesOf(hash, salt, ops)
    {
      var i :| 0 <= i < |ops[1..]| && ops[1..][i].Redact? && hash(Normalized(ops[1..][i].path), salt) == h;
      assert ops[i + 1] == ops[1..][i];
    }
    forall h | h in HashesOf(hash, salt, ops)
      ensures (ops[0].Redact? && h == hash(Normalized(ops[0].path), salt)) || h in HashesOf(hash, salt, ops[1..])
    {
      var i :| 0 <= i < |ops| && ops[i].Redact? && hash(Normalized(ops[i].path), salt) == h;
      assert i > 0 ==> ops[1..][i - 1] == ops[i];
    }
  }

  lemma {:induction false} RunKeepsInv(f: Format, entry: (string, Hash) -> bool, s: State, ops: seq<Op>)
    requires Sound(f, entry) && Inv(f, entry, s) && forall op :: op in ops && op.Redact? ==> OneLine(op.path)
    ensures Inv(f, entry, Run(f, s, ops))
    ensures Run(f, s, ops).salt == s.salt
    ensures Run(f, s, ops).seen == s.seen + HashesOf(f.hash, s.salt, ops)
    decreases |ops|
  {
    if ops == [] {
      assert HashesOf(f.hash, s.salt, ops) == {};
    } else {
      assert ops[0] in ops && forall op :: op in ops[1..] ==> op in ops;
      StepKeepsInv(f, entry, s, ops[0]);
      RunKeepsInv(f, entry, Step(f, s, ops[0]), ops[1..]);
      HashesOfFirst(f.hash, s.salt, ops);
    }
  }

  lemma {:induction false} DistinctAreAsMany(hashes: seq<Hash>)
    requires Distinct(hashes)
    ensures |Elements(hashes)| == |hashes|
  {
    if hashes != [] {
      var n := |hashes| - 1;
      DistinctAreAsMany(hashes[..n]);
      assert Elements(hashes) == Elements(hashes[..n]) + {hashes[n]};
    }
  }

  /** The printer's lines are the parser's lines. */
  lemma VidcullIsSound(hash: KeyedHash)
    ensures Sound(Vidcull(hash), (line: string, h: Hash) => ReadsAs(line, h))
  {
    var f := Vidcull(hash);
    forall salt
      ensures HeadReads(f.head(salt), salt)
    {
      HeadEndsInNewline(salt);
      HeadIsRead(salt);
    }
    forall h, path | OneLine(path)
      ensures Proper((line: string, h: Hash) => ReadsAs(line, h), EntryLine(f.token(h, path), path), h)
    {
      EntryIsOneLine(h, path);
      forall l
        ensures ReadLine(l, StripCr(EntryLine(Token(h, path), path))) == l.(seen := l.seen + {h})
      {
        EntryIsRead(l, h, Token(h, path), path);
      }
    }
  }

  lemma RunFromCreated(f: Format, entry: (string, Hash) -> bool, newSalt: Salt, ops: seq<Op>) returns (s: State)
    requires Sound(f, entry) && forall op :: op in ops && op.Redact? ==> OneLine(op.path)
    ensures s == Run(f, Created(f, newSalt), ops)
    ensures Inv(f, entry, s) && s.salt == newSalt && s.seen == HashesOf(f.hash, newSalt, ops)
  {
    RunKeepsInv(f, entry, Created(f, newSalt), ops);
    s := Run(f, Created(f, newSalt), ops);
  }

  lemma RunIsRead(f: Format, entry: (string, Hash) -> bool, newSalt: Salt, ops: seq<Op>)
    requires Sound(f, entry) && forall op :: op in ops && op.Redact? ==> OneLine(op.path)
    ensures var s := Run(f, Created(f, newSalt), ops);
            s.file.Some? && Load(s.file.value) == Some((newSalt, HashesOf(f.hash, newSalt, ops)))
  {
    var s := RunFromCreated(f, entry, newSalt, ops);
    FileIsRead(f, entry, s);
  }

  /**
   * The round trip: after any redactions of newline-free paths over any number of reopenings,
   * reading the file gives back the salt it was created with and exactly the hashes redacted.
   */
  lemma KeymapRoundTrip(hash: KeyedHash, newSalt: Salt, ops: seq<Op>)
    requires forall op :: op in ops && op.Redact? ==> OneLine(op.path)
    ensures var f := Vidcull(hash);
            var s := Run(f, Created(f, newSalt), ops);
            s.file.Some? && Load(s.file.value) == Some((newSalt, HashesOf(hash, newSalt, ops)))
  {
    VidcullIsSound(hash);
    RunIsRead(Vidcull(hash), (line: string, h: Hash) => ReadsAs(line, h), newSalt, ops);
  }

  /** Below the head the file has one line for each hash redacted, and no other line. */
  lemma OneLinePerHash(hash: KeyedHash, newSalt: Salt, ops: seq<Op>)
    requires forall op :: op in ops && op.Redact? ==> OneLine(op.path)
    ensures var f := Vidcull(hash);
            var s := Run(f, Created(f, newSalt), ops);
            && s.file.Some? && Lines(s.file.value) == Lines(f.head(newSalt)) + Stripped(s.lines)
            && |s.lines| == |s.hashes| == |HashesOf(hash, newSalt, ops)|
            && Elements(s.hashes) == HashesOf(hash, newSalt, ops)
            && forall i :: 0 <= i < |s.lines| ==> ReadsAs(StripCr(s.lines[i]), s.hashes[i])
  {
    var f := Vidcull(hash);
    ghost var entry := (line: string, h: Hash) => ReadsAs(line, h);
    VidcullIsSound(hash);
    RunKeepsInv(f, entry, Created(f, newSalt), ops);
    var s := Run(f, Created(f, newSalt), ops);
    FileIsRead(f, entry, s);
    DistinctAreAsMany(s.hashes);
    forall i | 0 <= i < |s.lines|
      ensures ReadsAs(StripCr(s.lines[i]), s.hashes[i])
    {
      assert Proper(entry, s.lines[i], s.hashes[i]);
    }
  }

  /** Reopening, with whatever fresh salt was at hand, changes nothing, and so no token of any path. */
  lemma TokensSurviveReopening(hash: KeyedHash, newSalt: Salt, ops: seq<Op>, another: Salt, path: string)
    requires forall op :: op in ops && op.Redact? ==> OneLine(op.path)
    ensures var s := Run(Vidcull(hash), Created(Vidcull(hash), newSalt), ops);
            && s.file.Some? && Step(Vidcull(hash), s, Reopen(another)) == s
            && RedactWithSalt(hash, path, s.salt) == RedactWithSalt(hash, path, newSalt)
  {
    var f := Vidcull(hash);
    ghost var entry := (line: string, h: Hash) => ReadsAs(line, h);
    VidcullIsSound(hash);
    RunKeepsInv(f, entry, Created(f, newSalt), ops);
    FileIsRead(f, entry, Run(f, Created(f, newSalt), ops));
  }
}
