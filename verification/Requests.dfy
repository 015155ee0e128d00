/**
 The text of a descriptor request: what `unix_socket_send_request` prints and what
 `unix_socket_process_request` extracts from its string stream.
 */
module Requests {
  import opened Wrappers
  import opened Files
  import opened Decimal

  const SPACE: byte := 32
  const MINUS: byte := 45
  const PLUS: byte := 43
  const OPEN := 0
  const MAX_REQUEST := 1024

  predicate IsInt(n: int) {
    -0x8000_0000 <= n < 0x8000_0000
  }

  /** `isspace` in the C locale. */
  predicate IsSpace(b: byte) {
    b == SPACE || 9 <= b <= 13
  }

  ghost predicate NoSpace(s: seq<byte>) {
    forall i :: 0 <= i < |s| ==> !IsSpace(s[i])
  }

  /** `operator<<` of an int. */
  function IntText(n: int): seq<byte> {
    if n < 0 then [MINUS] + Digits(-n) else Digits(n)
  }

  function Printed(command: int, path: seq<byte>, mode: int): seq<byte> {
    IntText(command) + [SPACE] + path + [SPACE] + IntText(mode)
  }

  function SkipSpace(s: seq<byte>): (r: seq<byte>)
    ensures |r| <= |s| && (r != [] ==> !IsSpace(r[0]))
  {
    if s != [] && IsSpace(s[0]) then SkipSpace(s[1..]) else s
  }

  /** The length of the leading run without whitespace. */
  function WordRun(s: seq<byte>): (k: nat)
    ensures k <= |s| && NoSpace(s[..k]) && (k < |s| ==> IsSpace(s[k])) && (s != [] && !IsSpace(s[0]) ==> k > 0)
  {
    if s == [] || IsSpace(s[0]) then 0
    else
      var k := WordRun(s[1..]);
      assert s[..1 + k] == [s[0]] + s[1..][..k];
      1 + k
  }

  /** `operator>>` into a string: no value if nothing is left. */
  function ExtractWord(s: seq<byte>): (Option<seq<byte>>, seq<byte>) {
    var t := SkipSpace(s);
    var k := WordRun(t);
    (if k == 0 then None else Some(t[..k]), t[k..])
  }

  function Signed(negative: bool, v: nat): int {
    if negative then -1 * v else v
  }

  /** Digits after the sign: no value without digits or out of range. */
  function Number(negative: bool, body: seq<byte>): (Option<int>, seq<byte>) {
    var k := DigitRun(body);
    var v := Signed(negative, ValueOf(body[..k]));
    (if k == 0 || !IsInt(v) then None else Some(v), body[k..])
  }

  /** `operator>>` into an int: an optional sign and digits. */
  function ExtractInt(s: seq<byte>): (Option<int>, seq<byte>) {
    var t := SkipSpace(s);
    if t != [] && (t[0] == MINUS || t[0] == PLUS) then Number(t[0] == MINUS, t[1..]) else Number(false, t)
  }

  datatype Request = BadOpcode | Unknown(op: int) | BadArguments | Open(path: seq<byte>, mode: int)

  /** The arguments of an OPEN. */
  function ParseArguments(s: seq<byte>): Request {
    var (path, rest) := ExtractWord(s);
    var (mode, _) := ExtractInt(rest);
    if path.None? || mode.None? then BadArguments else Open(path.value, mode.value)
  }

  function Parse(s: seq<byte>): Request {
    var (op, rest) := ExtractInt(s);
    if op.None? then BadOpcode
    else if op.value != OPEN then Unknown(op.value)
    else ParseArguments(rest)
  }

  /** The server reads a request with one `read` into a buffer of 1024 bytes. */
  function Received(s: seq<byte>): seq<byte> {
    if |s| <= MAX_REQUEST then s else s[..MAX_REQUEST]
  }

  // ----- extraction -----

  /** What is extracted as a word never is empty and never contains whitespace. */
  lemma WordShape(s: seq<byte>)
    requires ExtractWord(s).0.Some?
    ensures ExtractWord(s).0.value != [] && NoSpace(ExtractWord(s).0.value)
  {
  }

  lemma {:induction false} WordStops(a: seq<byte>, b: seq<byte>)
    requires NoSpace(a) && (b != [] ==> IsSpace(b[0]))
    ensures WordRun(a + b) == |a|
  {
    if a == [] {
      assert a + b == b;
    } else {
      assert (a + b)[1..] == a[1..] + b;
      WordStops(a[1..], b);
    }
  }

  lemma SkipOne(s: seq<byte>)
    requires s != [] ==> !IsSpace(s[0])
    ensures SkipSpace([SPACE] + s) == s
  {
    assert ([SPACE] + s)[1..] == s;
  }

  lemma WordBack(word: seq<byte>, rest: seq<byte>)
    requires NoSpace(word) && (rest != [] ==> IsSpace(rest[0]))
    requires word != [] || rest == []
    ensures ExtractWord([SPACE] + word + rest) == (if word == [] then None else Some(word), rest)
  {
    assert [SPACE] + word + rest == [SPACE] + (word + rest);
    SkipOne(word + rest);
    WordStops(word, rest);
    assert (word + rest)[..|word|] == word && (word + rest)[|word|..] == rest;
  }

  lemma NumberBack(negative: bool, digits: seq<byte>, rest: seq<byte>)
    requires AllDigits(digits) && (rest != [] ==> !IsDigit(rest[0]))
    ensures var v := Signed(negative, ValueOf(digits));
            Number(negative, digits + rest) == (if digits == [] || !IsInt(v) then None else Some(v), rest)
  {
    RunStops(digits, rest);
    assert (digits + rest)[..|digits|] == digits && (digits + rest)[|digits|..] == rest;
  }

  /** A sign, if any, and digits are read as the number they write. */
  lemma IntBack(negative: bool, digits: seq<byte>, rest: seq<byte>)
    requires AllDigits(digits) && (rest != [] ==> !IsDigit(rest[0]))
    requires digits == [] ==> rest == []
    ensures var text := (if negative then [MINUS] else []) + digits + rest;
            var v := Signed(negative, ValueOf(digits));
            ExtractInt(text) == (if digits == [] || !IsInt(v) then None else Some(v), rest)
  {
    var body := digits + rest;
    var text := (if negative then [MINUS] else []) + digits + rest;
    assert text == if negative then [MINUS] + body else body;
    assert text != [] ==> !IsSpace(text[0]);
    assert ExtractInt(text) == Number(negative, body);
    NumberBack(negative, digits, rest);
  }

  lemma SpaceFirst(s: seq<byte>)
    requires s != [] ==> !IsSpace(s[0])
    ensures ExtractInt([SPACE] + s) == ExtractInt(s)
  {
    SkipOne(s);
  }

  // ----- the round trip -----

  /** A nonempty proper prefix of a number's digits writes another number. */
  lemma PrefixDiffers(n: nat, j: nat)
    requires j < |Digits(n)|
    ensures ValueOf(Digits(n)[..j]) != n || j == 0
  {
    var text := Digits(n);
    assert text == text[..j] + text[j..];
    ValueAppend(text[..j], text[j..]);
    DigitsRoundTrip(n);
    ShiftedGrows(ValueOf(text[..j]), |text| - j);
    LengthIff(n, 1);
  }

  lemma {:induction false} ShiftedGrows(v: nat, n: nat)
    requires n > 0
    ensures Shifted(v, n) >= 10 * v
  {
    if n > 1 { ShiftedGrows(v, n - 1); }
  }

  /** The first `j` characters of an int's text are read as that int exactly if they are all of it. */
  lemma IntPrefix(n: int, j: nat)
    requires IsInt(n) && j <= |IntText(n)|
    ensures ExtractInt([SPACE] + IntText(n)[..j]).0 == Some(n) <==> j == |IntText(n)|
  {
    var text := IntText(n);
    DigitsRoundTrip(Abs(n));
    SpaceFirst(text[..j]);
    if n < 0 && j == 0 {
      assert text[..j] == [];
    } else {
      var d := if n < 0 then j - 1 else j;
      assert text[..j] == Sign(n) + Digits(Abs(n))[..d];
      DigitPrefix(n, d);
    }
  }

  function Abs(n: int): nat {
    if n < 0 then -n else n
  }

  function Sign(n: int): seq<byte> {
    if n < 0 then [MINUS] else []
  }

  lemma DigitPrefix(n: int, d: nat)
    requires IsInt(n) && d <= |Digits(Abs(n))|
    ensures ExtractInt(Sign(n) + Digits(Abs(n))[..d]).0 == Some(n) <==> d == |Digits(Abs(n))|
  {
    var digits := Digits(Abs(n));
    DigitsRoundTrip(Abs(n));
    IntBack(n < 0, digits[..d], []);
    assert Sign(n) + digits[..d] == (if n < 0 then [MINUS] else []) + digits[..d] + [];
    if d < |digits| {
      PrefixDiffers(Abs(n), d);
    } else {
      assert digits[..d] == digits;
    }
  }

  /** The opcode is read and what follows it is left. */
  lemma OpcodeBack(rest: seq<byte>)
    requires rest != [] ==> IsSpace(rest[0])
    ensures ExtractInt(IntText(OPEN) + rest) == (Some(OPEN), rest)
  {
    IntBack(false, Digits(0), rest);
    DigitsRoundTrip(0);
    assert IntText(OPEN) + rest == [] + Digits(0) + rest;
  }

  /** A request that arrives up to `j` characters of its mode. */
  lemma CutInMode(path: seq<byte>, mode: int, j: nat)
    requires IsInt(mode) && path != [] && NoSpace(path) && j <= |IntText(mode)|
    ensures Parse(IntText(OPEN) + ([SPACE] + path + ([SPACE] + IntText(mode)[..j]))) == Open(path, mode) <==> j == |IntText(mode)|
  {
    var s2 := [SPACE] + IntText(mode)[..j];
    OpcodeBack([SPACE] + path + s2);
    WordBack(path, s2);
    IntPrefix(mode, j);
  }

  /** A request that breaks off before the mode gives no open at all. */
  lemma CutInPath(path: seq<byte>)
    requires NoSpace(path)
    ensures Parse(IntText(OPEN)) == Parse(IntText(OPEN) + ([SPACE] + path)) == BadArguments
  {
    OpcodeBack([]);
    assert IntText(OPEN) + [] == IntText(OPEN);
    OpcodeBack([SPACE] + path);
    WordBack(path, []);
    assert [SPACE] + path + [] == [SPACE] + path;
    assert ExtractInt([]).0 == None;
  }

  /**
   A printed OPEN request that the server reads is parsed to the same path and mode
   exactly if the path is a nonempty word and the text fits the server's buffer.
   */
  lemma RoundTripIff(path: seq<byte>, mode: int)
    requires IsInt(mode)
    ensures (Parse(Received(Printed(OPEN, path, mode))) == Open(path, mode)) ==
            (path != [] && NoSpace(path) && |Printed(OPEN, path, mode)| <= 1024)
  {
    var text := Printed(OPEN, path, mode);
    var got := Received(text);
    if path == [] || !NoSpace(path) {
      ParsedPath(got);
    } else if |got| < |path| + 3 {
      CutBeforeMode(path, mode, got);
    } else {
      CutAfterPath(path, mode, got);
      assert got == text <==> |text| <= MAX_REQUEST;
    }
  }

  lemma CutAfterPath(path: seq<byte>, mode: int, got: seq<byte>)
    requires IsInt(mode) && path != [] && NoSpace(path)
    requires got <= Printed(OPEN, path, mode) && |got| >= |path| + 3
    ensures Parse(got) == Open(path, mode) <==> got == Printed(OPEN, path, mode)
  {
    var j := |got| - |path| - 3;
    var text := Printed(OPEN, path, mode);
    assert |text| == |path| + 3 + |IntText(mode)| by { Pieces(path, IntText(mode), 0); }
    var cut := IntText(OPEN) + ([SPACE] + path + ([SPACE] + IntText(mode)[..j]));
    assert got == cut by {
      assert got == text[..|got|];
      Pieces(path, IntText(mode), j);
    }
    assert got == text <==> |got| == |text|;
    CutInMode(path, mode, j);
  }

  /** What a request means: the opcode 0, a word and a number, each after one space. */
  lemma ParseOpen(path: seq<byte>, digits: seq<byte>, negative: bool)
    requires path != [] && NoSpace(path) && digits != [] && AllDigits(digits)
    ensures var v := if negative then 0 - ValueOf(digits) else ValueOf(digits);
            Parse([48, 32] + path + [32] + (if negative then [45] else []) + digits)
              == if -0x8000_0000 <= v < 0x8000_0000 then Open(path, v) else BadArguments
  {
    var number := (if negative then [MINUS] else []) + digits;
    OpenPieces(path, digits, negative);
    ParsePieces(path, number);
    NumberRead(negative, digits);
  }

  lemma OpenPieces(path: seq<byte>, digits: seq<byte>, negative: bool)
    ensures [48, 32] + path + [32] + (if negative then [45] else []) + digits
         == IntText(OPEN) + ([SPACE] + path + ([SPACE] + ((if negative then [MINUS] else []) + digits)))
  {
    assert IntText(OPEN) == [48];
  }

  lemma NumberRead(negative: bool, digits: seq<byte>)
    requires digits != [] && AllDigits(digits)
    ensures var v, number := Signed(negative, ValueOf(digits)), (if negative then [MINUS] else []) + digits;
            ExtractInt([SPACE] + number).0 == if IsInt(v) then Some(v) else None
  {
    var number := (if negative then [MINUS] else []) + digits;
    IntBack(negative, digits, []);
    assert number == (if negative then [MINUS] else []) + digits + [];
    assert IsDigit(digits[0]) && !IsSpace(number[0]);
    SpaceFirst(number);
  }

  lemma ParsePieces(path: seq<byte>, number: seq<byte>)
    requires path != [] && NoSpace(path)
    ensures var mode := ExtractInt([SPACE] + number).0;
            Parse(IntText(OPEN) + ([SPACE] + path + ([SPACE] + number))) == if mode.Some? then Open(path, mode.value) else BadArguments
  {
    OpcodeBack([SPACE] + path + ([SPACE] + number));
    WordBack(path, [SPACE] + number);
  }

  /** Any other number is an unknown opcode, and text without a number at its start a bad one. */
  lemma ParseOther(digits: seq<byte>, rest: seq<byte>)
    requires AllDigits(digits) && (rest != [] ==> !IsDigit(rest[0])) && (digits == [] ==> rest == [])
    ensures digits == [] || ValueOf(digits) >= 0x8000_0000 ==> Parse(digits + rest) == BadOpcode
    ensures digits != [] && 0 < ValueOf(digits) < 0x8000_0000 ==> Parse(digits + rest) == Unknown(ValueOf(digits))
  {
    OpcodeRead(digits, rest);
  }

  lemma OpcodeRead(digits: seq<byte>, rest: seq<byte>)
    requires AllDigits(digits) && (rest != [] ==> !IsDigit(rest[0])) && (digits == [] ==> rest == [])
    ensures ExtractInt(digits + rest) == (if digits == [] || !IsInt(ValueOf(digits)) then None else Some(ValueOf(digits)), rest)
  {
    var text := digits + rest;
    assert text != [] ==> text[0] == digits[0] && IsDigit(text[0]);
    assert SkipSpace(text) == text;
    assert ExtractInt(text) == Number(false, text);
    NumberBack(false, digits, rest);
  }

  lemma Pieces(path: seq<byte>, mode: seq<byte>, j: nat)
    requires j <= |mode|
    ensures var text := IntText(OPEN) + [SPACE] + path + [SPACE] + mode;
            && |text| == |path| + 3 + |mode|
            && text[..|path| + 3 + j] == IntText(OPEN) + ([SPACE] + path + ([SPACE] + mode[..j]))
  {
  }

  lemma CutBeforeMode(path: seq<byte>, mode: int, got: seq<byte>)
    requires NoSpace(path) && got <= Printed(OPEN, path, mode) && 2 <= |got| < |path| + 3
    ensures Parse(got) == BadArguments
  {
    var word := got[2..];
    assert got == IntText(OPEN) + ([SPACE] + word);
    assert word == path[..|got| - 2];
    CutInPath(word);
  }

  /** Whatever text arrives, the path of an open is a nonempty word. */
  lemma ParsedPath(s: seq<byte>)
    ensures Parse(s).Open? ==> Parse(s).path != [] && NoSpace(Parse(s).path)
  {
    var (op, s1) := ExtractInt(s);
    if ExtractWord(s1).0.Some? { WordShape(s1); }
  }
}
