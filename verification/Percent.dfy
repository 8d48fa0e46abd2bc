/** Percent-encoding (section 2.1 of RFC 3986) as the browser's functions do it. Text is its
    UTF-8 bytes, one character per byte. */
module Percent {
  import opened Wrappers

  type Byte = c: char | c as int < 256

  type Text = seq<Byte>

  /** What encodeURIComponent leaves as it is. */
  predicate Unreserved(c: Byte) {
    'A' <= c <= 'Z' || 'a' <= c <= 'z' || '0' <= c <= '9' || c in {'-', '_', '.', '!', '~', '*', '\'', '(', ')'}
  }

  function Hex(n: nat): Byte
    requires n < 16
  {
    if n < 10 then ('0' as int + n) as char else ('A' as int + n - 10) as char
  }

  function HexValue(c: Byte): (value: Option<nat>)
    ensures value.Some? ==> value.value < 16
  {
    if '0' <= c <= '9' then Some(c as int - '0' as int)
    else if 'A' <= c <= 'F' then Some(c as int - 'A' as int + 10)
    else if 'a' <= c <= 'f' then Some(c as int - 'a' as int + 10)
    else None
  }

  /** encodeURIComponent. */
  function Encode(t: Text): Text {
    if t == [] then []
    else
      (if Unreserved(t[0]) then [t[0]] else ['%', Hex(t[0] as int / 16), Hex(t[0] as int % 16)]) + Encode(t[1..])
  }

  /** The byte escaped at the start of the text, if one is. */
  function EscapeAt(t: Text): Option<Byte> {
    if |t| >= 3 && t[0] == '%' && HexValue(t[1]).Some? && HexValue(t[2]).Some? then
      Some((HexValue(t[1]).value * 16 + HexValue(t[2]).value) as char)
    else None
  }

  /** The decoding of a query string: a plus is a space, and a malformed escape stands for
      itself. */
  function FormDecode(t: Text): Text {
    if t == [] then []
    else if t[0] == '+' then [' '] + FormDecode(t[1..])
    else if EscapeAt(t).Some? then [EscapeAt(t).value] + FormDecode(t[3..])
    else [t[0]] + FormDecode(t[1..])
  }

  /** The bytes of `n` escapes at the start of the text. */
  function EscapesAt(t: Text, n: nat): Option<Text> {
    if n == 0 then Some([])
    else if EscapeAt(t).None? || EscapesAt(t[3..], n - 1).None? then None
    else Some([EscapeAt(t).value] + EscapesAt(t[3..], n - 1).value)
  }

  /** How many bytes a UTF-8 character has, by its first (section 4 of RFC 3629). */
  function CharLength(c: Byte): nat {
    var b := c as int;
    if b < 0x80 then 1 else if 0xC2 <= b <= 0xDF then 2 else if 0xE0 <= b <= 0xEF then 3
    else if 0xF0 <= b <= 0xF4 then 4 else 0
  }

  predicate Between(c: Byte, low: int, high: int) {
    low <= c as int <= high
  }

  /** One well-formed UTF-8 character (section 4 of RFC 3629). */
  predicate Utf8Char(t: Text) {
    t != [] && |t| == CharLength(t[0]) && (forall i :: 2 <= i < |t| ==> Between(t[i], 0x80, 0xBF)) &&
    (|t| >= 2 ==>
      match t[0] as int
      case 0xE0 => Between(t[1], 0xA0, 0xBF)
      case 0xED => Between(t[1], 0x80, 0x9F)
      case 0xF0 => Between(t[1], 0x90, 0xBF)
      case 0xF4 => Between(t[1], 0x80, 0x8F)
      case _ => Between(t[1], 0x80, 0xBF))
  }

  /** decodeURIComponent: None where it throws, at an escape that is malformed or does not
      start the escapes of one character. */
  function Decode(t: Text): Option<Text> {
    if t == [] then Some([])
    else if t[0] != '%' then
      if Decode(t[1..]).None? then None else Some([t[0]] + Decode(t[1..]).value)
    else if EscapeAt(t).None? then None
    else
      var n := CharLength(EscapeAt(t).value);
      var run := EscapesAt(t, n);
      if n == 0 || run.None? || !Utf8Char(run.value) || |t| < 3 * n || Decode(t[3 * n..]).None? then None
      else Some(run.value + Decode(t[3 * n..]).value)
  }

  // ----- What decodes -----

  predicate HexDigit(c: Byte) {
    '0' <= c <= '9' || 'A' <= c <= 'F' || 'a' <= c <= 'f'
  }

  /** One percent sign and two hexadecimal digits. */
  predicate IsEscape(t: Text) {
    |t| == 3 && t[0] == '%' && HexDigit(t[1]) && HexDigit(t[2])
  }

  /** The bytes a run of escapes stands for. */
  function Bytes(run: seq<Text>): Text
    requires forall i :: 0 <= i < |run| ==> IsEscape(run[i])
  {
    if run == [] then []
    else
      assert IsEscape(run[0]);
      [EscapeAt(run[0]).value] + Bytes(run[1..])
  }

  function Concat(parts: seq<Text>): Text {
    if parts == [] then [] else parts[0] + Concat(parts[1..])
  }

  /** A byte that is no percent sign, or the escapes of one UTF-8 character. */
  datatype Piece = Plain(c: Byte) | Escaped(run: seq<Text>)

  ghost predicate IsPiece(p: Piece) {
    match p
    case Plain(c) => c != '%'
    case Escaped(run) => (forall i :: 0 <= i < |run| ==> IsEscape(run[i])) && Utf8Char(Bytes(run))
  }

  function Spelled(p: Piece): Text {
    match p
    case Plain(c) => [c]
    case Escaped(run) => Concat(run)
  }

  function Meant(p: Piece): Text
    requires p.Escaped? ==> forall i :: 0 <= i < |p.run| ==> IsEscape(p.run[i])
  {
    match p
    case Plain(c) => [c]
    case Escaped(run) => Bytes(run)
  }

  ghost predicate ArePieces(ps: seq<Piece>) {
    forall i :: 0 <= i < |ps| ==> IsPiece(ps[i])
  }

  function SpelledAll(ps: seq<Piece>): Text {
    if ps == [] then [] else Spelled(ps[0]) + SpelledAll(ps[1..])
  }

  ghost function MeantAll(ps: seq<Piece>): Text
    requires ArePieces(ps)
  {
    if ps == [] then [] else Meant(ps[0]) + MeantAll(ps[1..])
  }

  lemma EscapeRead(t: Text, rest: Text)
    requires IsEscape(t)
    ensures EscapeAt(t).Some? && EscapeAt(t + rest) == EscapeAt(t) && (t + rest)[3..] == rest
  {
  }

  lemma {:induction false} RunRead(run: seq<Text>, rest: Text)
    requires forall i :: 0 <= i < |run| ==> IsEscape(run[i])
    ensures EscapesAt(Concat(run) + rest, |run|) == Some(Bytes(run))
    ensures |Concat(run)| == 3 * |run| && |Bytes(run)| == |run| && (Concat(run) + rest)[3 * |run|..] == rest
  {
    if run != [] {
      RunRead(run[1..], rest);
      EscapeRead(run[0], Concat(run[1..]) + rest);
      ConcatFirst(run, rest);
    }
  }

  /** A text spelled by pieces decodes, to what they mean. */
  lemma {:induction false} PiecesDecode(ps: seq<Piece>)
    requires ArePieces(ps)
    ensures Decode(SpelledAll(ps)) == Some(MeantAll(ps))
  {
    if ps != [] {
      PiecesDecode(ps[1..]);
      var rest := SpelledAll(ps[1..]);
      assert IsPiece(ps[0]);
      match ps[0]
      case Plain(c) =>
        assert ([c] + rest)[1..] == rest;
      case Escaped(run) =>
        RunDecodes(run, rest);
    }
  }

  lemma RunDecodes(run: seq<Text>, rest: Text)
    requires (forall i :: 0 <= i < |run| ==> IsEscape(run[i])) && Utf8Char(Bytes(run)) && Decode(rest).Some?
    ensures Decode(Concat(run) + rest) == Some(Bytes(run) + Decode(rest).value)
  {
    hide Decode, EscapesAt, Utf8Char, CharLength, IsEscape, Concat, Bytes;
    RunRead(run, rest);
    RunLength(run);
    RunStarts(run, rest);
    DecodeRun(Concat(run) + rest, |run|);
  }

  /** The first byte of a UTF-8 character says how many it has. */
  lemma RunLength(run: seq<Text>)
    requires (forall i :: 0 <= i < |run| ==> IsEscape(run[i])) && Utf8Char(Bytes(run))
    ensures |run| > 0 && EscapeAt(run[0]).Some? && CharLength(EscapeAt(run[0]).value) == |run|
  {
    BytesLength(run);
    hide CharLength;
    assert run != [] && IsEscape(run[0]);
  }

  lemma {:induction false} BytesLength(run: seq<Text>)
    requires forall i :: 0 <= i < |run| ==> IsEscape(run[i])
    ensures |Bytes(run)| == |run|
  {
    if run != [] { BytesLength(run[1..]); }
  }

  lemma RunStarts(run: seq<Text>, rest: Text)
    requires |run| > 0 && forall i :: 0 <= i < |run| ==> IsEscape(run[i])
    ensures Concat(run) + rest != [] && (Concat(run) + rest)[0] == '%'
    ensures EscapeAt(Concat(run) + rest) == EscapeAt(run[0])
  {
    assert IsEscape(run[0]) && |run[0]| == 3 && run[0][0] == '%';
    hide IsEscape, EscapeAt, Bytes;
    EscapeRead(run[0], Concat(run[1..]) + rest);
    ConcatFirst(run, rest);
  }

  lemma ConcatFirst(run: seq<Text>, rest: Text)
    requires |run| > 0
    ensures Concat(run) + rest == run[0] + (Concat(run[1..]) + rest)
  {
  }

  /** One step of decoding escapes. */
  lemma DecodeRun(t: Text, n: nat)
    requires t != [] && t[0] == '%' && EscapeAt(t).Some? && n > 0 && n == CharLength(EscapeAt(t).value)
    requires EscapesAt(t, n).Some? && Utf8Char(EscapesAt(t, n).value) && |t| >= 3 * n && Decode(t[3 * n..]).Some?
    ensures Decode(t) == Some(EscapesAt(t, n).value + Decode(t[3 * n..]).value)
  {
    hide EscapesAt, Utf8Char, CharLength, EscapeAt;
  }

  lemma PieceFirst(p: Piece, ps: seq<Piece>)
    requires IsPiece(p) && ArePieces(ps)
    ensures ArePieces([p] + ps) && SpelledAll([p] + ps) == Spelled(p) + SpelledAll(ps)
  {
    hide IsPiece, Spelled;
    assert ([p] + ps)[1..] == ps;
  }

  lemma EscapesFirst(t: Text)
    requires t != [] && t[0] == '%' && Decode(t).Some?
    ensures EscapeAt(t).Some?
    ensures var n := CharLength(EscapeAt(t).value);
            n > 0 && EscapesAt(t, n).Some? && Utf8Char(EscapesAt(t, n).value) &&
            |t| >= 3 * n && Decode(t[3 * n..]).Some?
  {
    hide Utf8Char, EscapesAt, CharLength, EscapeAt;
  }

  /** A text that decodes is spelled by pieces. */
  lemma {:induction false} DecodesPieces(t: Text) returns (ps: seq<Piece>)
    requires Decode(t).Some?
    ensures ArePieces(ps) && SpelledAll(ps) == t
  {
    hide ArePieces, Utf8Char, EscapesAt, EscapeAt, CharLength, IsEscape, Concat, Bytes;
    if t == [] {
      ps := [];
      assert ArePieces([]) by { NoPieces(); }
    } else if t[0] != '%' {
      var rest := DecodesPieces(t[1..]);
      PieceFirst(Plain(t[0]), rest);
      ps := [Plain(t[0])] + rest;
      assert [t[0]] + t[1..] == t;
    } else {
      EscapesFirst(t);
      var n := CharLength(EscapeAt(t).value);
      var run := RunOf(t, n);
      var rest := DecodesPieces(t[3 * n..]);
      PieceFirst(Escaped(run), rest);
      ps := [Escaped(run)] + rest;
      assert t[..3 * n] + t[3 * n..] == t;
    }
  }

  lemma NoPieces()
    ensures ArePieces([])
  {
  }

  lemma {:induction false} RunOf(t: Text, n: nat) returns (run: seq<Text>)
    requires EscapesAt(t, n).Some?
    ensures |t| >= 3 * n && |run| == n && Concat(run) == t[..3 * n]
    ensures (forall i :: 0 <= i < |run| ==> IsEscape(run[i])) && Bytes(run) == EscapesAt(t, n).value
  {
    if n == 0 {
      run := [];
    } else {
      var rest := RunOf(t[3..], n - 1);
      run := [t[..3]] + rest;
      assert run[1..] == rest;
      assert t[..3] + t[3..][..3 * (n - 1)] == t[..3 * n];
      EscapeRead(t[..3], t[3..]);
      assert t[..3] + t[3..] == t;
    }
  }

  ghost predicate WellSpelled(t: Text) {
    exists ps :: ArePieces(ps) && SpelledAll(ps) == t
  }

  /** A name decodes exactly when it is made of bytes other than the percent sign and of the
      escapes of whole UTF-8 characters. */
  lemma DecodesWhen(t: Text)
    ensures Decode(t).Some? <==> WellSpelled(t)
  {
    if Decode(t).Some? {
      var ps := DecodesPieces(t);
    }
    if ps :| ArePieces(ps) && SpelledAll(ps) == t {
      PiecesDecode(ps);
    }
  }

  /** What is encoded is read back. */
  lemma {:induction false} EncodeDecodes(t: Text)
    ensures FormDecode(Encode(t)) == t
  {
    if t != [] {
      EncodeDecodes(t[1..]);
      var c := t[0];
      var rest := Encode(t[1..]);
      if Unreserved(c) {
        assert Encode(t)[1..] == rest;
      } else {
        assert Encode(t)[3..] == rest;
        assert EscapeAt(Encode(t)) == Some(c);
      }
    }
  }

  /** An encoded text holds no byte that separates a query's parts. */
  lemma {:induction false} EncodeUnseparated(t: Text, c: Byte)
    requires c in {'&', '=', '+', '?'}
    ensures c !in Encode(t)
  {
    if t != [] { EncodeUnseparated(t[1..], c); }
  }

  lemma {:induction false} EscapesRead(t: Text, n: nat)
    requires EscapesAt(t, n).Some?
    ensures |t| >= 3 * n && FormDecode(t) == EscapesAt(t, n).value + FormDecode(t[3 * n..])
    ensures '+' !in t[..3 * n] && |EscapesAt(t, n).value| == n
  {
    if n > 0 {
      EscapesRead(t[3..], n - 1);
      assert t[3..][3 * (n - 1)..] == t[3 * n..];
      assert t[..3 * n] == t[..3] + t[3..][..3 * (n - 1)];
    }
  }

  /** Where decodeURIComponent decodes, a query is read the same, up to plus signs. */
  lemma {:induction false} DecodersAgree(t: Text)
    requires Decode(t).Some?
    ensures '+' !in t ==> FormDecode(t) == Decode(t).value
    ensures '+' in t ==> '+' in Decode(t).value && ' ' in FormDecode(t)
  {
    if t != [] {
      if t[0] != '%' {
        DecodersAgree(t[1..]);
      } else {
        var n := CharLength(EscapeAt(t).value);
        EscapesRead(t, n);
        DecodersAgree(t[3 * n..]);
        assert t == t[..3 * n] + t[3 * n..];
      }
    }
  }

  /** Text that is neither escaped nor a plus is read as it stands. */
  lemma {:induction false} PlainDecodes(t: Text)
    requires '%' !in t && '+' !in t
    ensures FormDecode(t) == t && Decode(t) == Some(t)
  {
    if t != [] { PlainDecodes(t[1..]); }
  }

  // ----- The bytes of a character -----

  /** A Unicode scalar value: a code point that is no surrogate. */
  predicate IsScalar(c: nat) {
    c < 0xD800 || 0xE000 <= c < 0x11_0000
  }

  function ByteOf(n: nat): Byte
    requires n < 256
  {
    n as char
  }

  /** The UTF-8 encoding of a scalar value: six bits to each later byte. */
  function Utf8(c: nat): Text
    requires IsScalar(c)
  {
    if c < 0x80 then [ByteOf(c)]
    else if c < 0x800 then [ByteOf(0xC0 + c / 64), ByteOf(0x80 + c % 64)]
    else if c < 0x1_0000 then [ByteOf(0xE0 + c / 64 / 64), ByteOf(0x80 + c / 64 % 64), ByteOf(0x80 + c % 64)]
    else [ByteOf(0xF0 + c / 64 / 64 / 64), ByteOf(0x80 + c / 64 / 64 % 64), ByteOf(0x80 + c / 64 % 64),
          ByteOf(0x80 + c % 64)]
  }

  lemma EncodedIsChar(c: nat)
    requires IsScalar(c)
    ensures Utf8Char(Utf8(c))
  {
  }

  lemma LastBits(q: nat, r: nat)
    requires r < 64
    ensures (64 * q + r) / 64 == q && (64 * q + r) % 64 == r
  {
  }

  /** The scalar value a character's bytes encode. */
  function Scalar(t: Text): nat
    requires Utf8Char(t)
  {
    var b := t[0] as int;
    if |t| == 1 then b
    else if |t| == 2 then 64 * (b - 0xC0) + (t[1] as int - 0x80)
    else if |t| == 3 then 64 * (64 * (b - 0xE0) + (t[1] as int - 0x80)) + (t[2] as int - 0x80)
    else 64 * (64 * (64 * (b - 0xF0) + (t[1] as int - 0x80)) + (t[2] as int - 0x80)) + (t[3] as int - 0x80)
  }

  lemma TwoBytes(a: nat, x: nat)
    requires 2 <= a < 32 && x < 64
    ensures var c := 64 * a + x;
            IsScalar(c) && Utf8(c) == [ByteOf(0xC0 + a), ByteOf(0x80 + x)]
  {
    LastBits(a, x);
  }

  lemma ThreeBytes(a: nat, x: nat, y: nat)
    requires a < 16 && x < 64 && y < 64 && (a == 0 ==> x >= 32) && (a == 13 ==> x < 32)
    ensures var c := 64 * (64 * a + x) + y;
            IsScalar(c) && Utf8(c) == [ByteOf(0xE0 + a), ByteOf(0x80 + x), ByteOf(0x80 + y)]
  {
    LastBits(a, x);
    LastBits(64 * a + x, y);
  }

  lemma FourBytes(a: nat, x: nat, y: nat, z: nat)
    requires a < 5 && x < 64 && y < 64 && z < 64 && (a == 0 ==> x >= 16) && (a == 4 ==> x < 16)
    ensures var c := 64 * (64 * (64 * a + x) + y) + z;
            IsScalar(c) && Utf8(c) == [ByteOf(0xF0 + a), ByteOf(0x80 + x), ByteOf(0x80 + y), ByteOf(0x80 + z)]
  {
    LastBits(a, x);
    LastBits(64 * a + x, y);
    LastBits(64 * (64 * a + x) + y, z);
  }

  lemma CharIsEncoded(t: Text)
    requires Utf8Char(t)
    ensures IsScalar(Scalar(t)) && t == Utf8(Scalar(t))
  {
    hide Utf8, IsScalar;
    var b := t[0] as int;
    if |t| == 1 {
      OneByte(b);
    } else if |t| == 2 {
      TwoBytes(b - 0xC0, t[1] as int - 0x80);
    } else if |t| == 3 {
      ThreeBytes(b - 0xE0, t[1] as int - 0x80, t[2] as int - 0x80);
    } else {
      FourBytes(b - 0xF0, t[1] as int - 0x80, t[2] as int - 0x80, t[3] as int - 0x80);
    }
  }

  lemma OneByte(b: nat)
    requires b < 0x80
    ensures IsScalar(b) && Utf8(b) == [ByteOf(b)]
  {
  }

  /** The byte sequences taken for a character are exactly the UTF-8 encodings of scalar
      values. */
  lemma Utf8Exactly(t: Text)
    ensures Utf8Char(t) <==> exists c: nat :: IsScalar(c) && t == Utf8(c)
  {
    if Utf8Char(t) { CharIsEncoded(t); }
    forall c: nat | IsScalar(c) && t == Utf8(c)
      ensures Utf8Char(t)
    {
      EncodedIsChar(c);
    }
  }

  // ----- Byte by byte -----

  const HEX_DIGITS: Text := "0123456789ABCDEF"

  lemma HexWritten(n: nat)
    requires n < 16
    ensures Hex(n) == HEX_DIGITS[n] && HexValue(Hex(n)) == Some(n)
    ensures n >= 10 ==> HexValue((Hex(n) as int + 0x20) as char) == Some(n)
  {
  }

  /** A byte is written as it is when it is a letter, a digit or one of nine marks, and else as a
      percent sign and its two digits. */
  lemma EncodesByte(c: Byte, rest: Text)
    ensures Encode([c] + rest) ==
      (if 'a' <= c <= 'z' || 'A' <= c <= 'Z' || '0' <= c <= '9' || c == '-' || c == '_' || c == '.' || c == '!' ||
          c == '~' || c == '*' || c == '\'' || c == '(' || c == ')'
       then [c] else ['%', HEX_DIGITS[c as int / 16], HEX_DIGITS[c as int % 16]]) + Encode(rest)
    ensures Encode([]) == []
  {
    assert ([c] + rest)[1..] == rest;
    HexWritten(c as int / 16);
    HexWritten(c as int % 16);
  }

  /** A query is read byte by byte: a plus is a space, a percent sign and two digits the byte
      they write, a percent sign before anything else itself, and so is every other byte. */
  lemma FormReads(c: Byte, rest: Text)
    ensures FormDecode([c] + rest) ==
      if c == '+' then [' '] + FormDecode(rest)
      else if c == '%' && TwoHex(rest) then [HexByte(rest)] + FormDecode(rest[2..])
      else [c] + FormDecode(rest)
    ensures FormDecode([]) == []
  {
    var t := [c] + rest;
    assert t[0] == c && t[1..] == rest && (|rest| >= 2 ==> t[1] == rest[0] && t[2] == rest[1] && t[3..] == rest[2..]);
    HexIsEscape(rest);
    hide EscapeAt, TwoHex, HexByte;
  }

  predicate TwoHex(t: Text) {
    |t| >= 2 && HexDigit(t[0]) && HexDigit(t[1])
  }

  /** The byte two hexadecimal digits write. */
  function HexByte(t: Text): Byte
    requires TwoHex(t)
  {
    ByteOf(16 * HexValue(t[0]).value + HexValue(t[1]).value)
  }

  lemma HexIsEscape(rest: Text)
    ensures EscapeAt(['%'] + rest).Some? <==> TwoHex(rest)
    ensures TwoHex(rest) ==> EscapeAt(['%'] + rest) == Some(HexByte(rest))
    ensures forall c: Byte :: c != '%' ==> EscapeAt([c] + rest).None?
  {
  }
}
