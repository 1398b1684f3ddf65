/**
 * The base64 encoding of section 4 of RFC 4648, as the browser's `btoa`
 * applies it to a string whose characters are all in the Latin-1 range
 * (each character is one byte), and the matching decoder, against which
 * the encoder is proved.
 */
module Base64 {
  import opened Wrappers
  import opened Json

  type Byte = x: int | 0 <= x < 256
  type Sextet = x: int | 0 <= x < 64

  /** The character for a 6-bit value: A-Z, a-z, 0-9, '+', '/' (RFC 4648, Table 1). */
  function SextetChar(v: Sextet): char {
    if v < 26 then ('A' as int + v) as char
    else if v < 52 then ('a' as int + (v - 26)) as char
    else if v < 62 then ('0' as int + (v - 52)) as char
    else if v == 62 then '+'
    else '/'
  }

  /** The 6-bit value of an alphabet character, if it is one. */
  function CharSextet(c: char): Option<Sextet> {
    if 'A' <= c <= 'Z' then Some(c as int - 'A' as int)
    else if 'a' <= c <= 'z' then Some(c as int - 'a' as int + 26)
    else if '0' <= c <= '9' then Some(c as int - '0' as int + 52)
    else if c == '+' then Some(62)
    else if c == '/' then Some(63)
    else None
  }

  lemma CharOfSextet(v: Sextet)
    ensures CharSextet(SextetChar(v)) == Some(v)
    ensures SextetChar(v) != '='
  {
  }

  lemma DivMod64(x: int, y: int)
    requires 0 <= y < 64
    ensures (x * 64 + y) / 64 == x && (x * 64 + y) % 64 == y
  {
  }

  lemma DivMod256(x: int, y: int)
    requires 0 <= y < 256
    ensures (x * 256 + y) / 256 == x && (x * 256 + y) % 256 == y
  {
  }

  /** The 24-bit group of three bytes, most significant first. */
  function Group(b0: Byte, b1: Byte, b2: Byte): (n: int)
    ensures 0 <= n < 0x100_0000
  {
    (b0 as int * 256 + b1 as int) * 256 + b2 as int
  }

  /** The three bytes of a 24-bit group. */
  function Ungroup(n: int): seq<Byte>
    requires 0 <= n < 0x100_0000
  {
    [(n / 256) / 256, (n / 256) % 256, n % 256]
  }

  lemma UngroupGroup(b0: Byte, b1: Byte, b2: Byte)
    ensures Ungroup(Group(b0, b1, b2)) == [b0, b1, b2]
  {
    DivMod256(b0 as int * 256 + b1 as int, b2 as int);
    DivMod256(b0 as int, b1 as int);
  }

  /** Four characters for the 24-bit group `n`, six bits each, most significant first. */
  function Quad(n: int): string
    requires 0 <= n < 0x100_0000
  {
    [SextetChar(((n / 64) / 64) / 64), SextetChar(((n / 64) / 64) % 64),
     SextetChar((n / 64) % 64), SextetChar(n % 64)]
  }

  /** RFC 4648 section 4: three bytes to four characters, a final group of one or two bytes padded with '='. */
  function Encode(b: seq<Byte>): (s: string)
    ensures |s| == 4 * ((|b| + 2) / 3)
    decreases |b|
  {
    if |b| >= 3 then
      GroupsStep(|b|);
      Quad(Group(b[0], b[1], b[2])) + Encode(b[3..])
    else if |b| == 2 then Quad(Group(b[0], b[1], 0))[..3] + "="
    else if |b| == 1 then Quad(Group(b[0], 0, 0))[..2] + "=="
    else ""
  }

  /** One group of three bytes more is one quad more. */
  lemma GroupsStep(n: nat)
    requires n >= 3
    ensures (n + 2) / 3 == (n - 3 + 2) / 3 + 1
  {
    assert n + 2 == (n - 3 + 2) + 3;
  }

  /** The 24-bit value of four alphabet characters. */
  function Unquad(s: string): (r: Option<int>)
    requires |s| == 4
    ensures r.Some? ==> 0 <= r.value < 0x100_0000
  {
    match (CharSextet(s[0]), CharSextet(s[1]), CharSextet(s[2]), CharSextet(s[3]))
    case (Some(a), Some(b), Some(c), Some(d)) => Some(((a as int * 64 + b as int) * 64 + c as int) * 64 + d as int)
    case _ => None
  }

  /** The decoder of RFC 4648 section 4, for padded input. */
  function Decode(s: string): Option<seq<Byte>>
    decreases |s|
  {
    if s == "" then Some([])
    else if |s| < 4 then None
    else if |s| == 4 && s[2] == '=' && s[3] == '=' then
      match Unquad(s[..2] + "AA")
      case Some(n) => Some(Ungroup(n)[..1])
      case None => None
    else if |s| == 4 && s[3] == '=' then
      match Unquad(s[..3] + "A")
      case Some(n) => Some(Ungroup(n)[..2])
      case None => None
    else
      match (Unquad(s[..4]), Decode(s[4..]))
      case (Some(n), Some(rest)) => Some(Ungroup(n) + rest)
      case _ => None
  }

  lemma UnquadQuad(n: int)
    requires 0 <= n < 0x100_0000
    ensures Unquad(Quad(n)) == Some(n)
  {
    var n1 := n / 64;
    var n2 := n1 / 64;
    CharOfSextet(n2 / 64);
    CharOfSextet(n2 % 64);
    CharOfSextet(n1 % 64);
    CharOfSextet(n % 64);
    assert n2 == (n2 / 64) * 64 + n2 % 64;
    assert n1 == n2 * 64 + n1 % 64;
    assert n == n1 * 64 + n % 64;
  }

  /** A group whose low bits are zero decodes from its leading characters padded with 'A'. */
  lemma UnquadPrefix(n: int, k: nat)
    requires 0 <= n < 0x100_0000 && (k == 2 || k == 3)
    requires k == 2 ==> (n / 64) % 64 == 0 && n % 64 == 0
    requires k == 3 ==> n % 64 == 0
    ensures Unquad(Quad(n)[..k] + (if k == 2 then "AA" else "A")) == Some(n)
  {
    var q := Quad(n);
    var p := if k == 2 then "AA" else "A";
    assert SextetChar(0) == 'A';
    assert q[..k] + p == Quad(n);
    UnquadQuad(n);
  }

  lemma {:induction false} DecodeEncode(b: seq<Byte>)
    ensures Decode(Encode(b)) == Some(b)
    decreases |b|
  {
    if |b| >= 3 {
      DecodeEncode(b[3..]);
      DecodeFullGroup(b[0], b[1], b[2], Encode(b[3..]), b[3..]);
      assert [b[0], b[1], b[2]] + b[3..] == b;
    } else if |b| == 2 {
      DecodeEncodeTwo(b[0], b[1]);
      assert [b[0], b[1]] == b;
    } else if |b| == 1 {
      DecodeEncodeOne(b[0]);
      assert [b[0]] == b;
    }
  }

  /** A full quad in front of text that decodes adds its three bytes in front. */
  lemma DecodeFullGroup(b0: Byte, b1: Byte, b2: Byte, rest: string, tail: seq<Byte>)
    requires Decode(rest) == Some(tail)
    ensures Decode(Quad(Group(b0, b1, b2)) + rest) == Some([b0, b1, b2] + tail)
  {
    var n := Group(b0, b1, b2);
    var q := Quad(n);
    var s := q + rest;
    assert s[..4] == q && s[4..] == rest;
    UnquadQuad(n);
    UngroupGroup(b0, b1, b2);
    CharOfSextet(n % 64);
    assert s[3] != '=';
  }

  /** Two bytes encode to three characters and one '=', which decode back to them. */
  lemma DecodeEncodeTwo(b0: Byte, b1: Byte)
    ensures Decode(Encode([b0, b1])) == Some([b0, b1])
  {
    var n := Group(b0, b1, 0);
    var s := Quad(n)[..3] + "=";
    assert Encode([b0, b1]) == s;
    assert n == ((b0 as int * 256 + b1 as int) * 4) * 64 + 0;
    DivMod64((b0 as int * 256 + b1 as int) * 4, 0);
    CharOfSextet((n / 64) % 64);
    assert s[..3] + "A" == Quad(n)[..3] + "A";
    assert s[2] != '=';
    assert n % 64 == 0;
    UnquadPrefix(n, 3);
    UngroupGroup(b0, b1, 0);
    assert Unquad(s[..3] + "A") == Some(n);
    assert Ungroup(n)[..2] == [b0, b1];
  }

  /** One byte encodes to two characters and "==", which decode back to it. */
  lemma DecodeEncodeOne(b0: Byte)
    ensures Decode(Encode([b0])) == Some([b0])
  {
    var n := Group(b0, 0, 0);
    var s := Quad(n)[..2] + "==";
    assert Encode([b0]) == s;
    var x := b0 as int;
    assert n == (x * 1024) * 64 + 0;
    DivMod64(x * 1024, 0);
    assert n / 64 == (x * 16) * 64 + 0;
    DivMod64(x * 16, 0);
    assert s[..2] + "AA" == Quad(n)[..2] + "AA";
    UnquadPrefix(n, 2);
    UngroupGroup(b0, 0, 0);
    assert Ungroup(n)[..1] == [b0];
  }

  /** The characters of a string as bytes, when every one of them is in the Latin-1 range. */
  function Latin1Bytes(s: string): (r: Option<seq<Byte>>)
    ensures r.Some? <==> forall i :: 0 <= i < |s| ==> s[i] as int < 256
    ensures r.Some? ==> |r.value| == |s| && forall i :: 0 <= i < |s| ==> r.value[i] == s[i] as int
  {
    if forall i :: 0 <= i < |s| ==> s[i] as int < 256 then
      Some(seq(|s|, i requires 0 <= i < |s| => s[i] as int as Byte))
    else None
  }

  /** The message `btoa` throws when a character is outside Latin-1. */
  const BtoaRangeMessage: string :=
    "Failed to execute 'btoa' on 'Window': The string to be encoded contains characters outside of the Latin1 range."

  /**
   * `btoa(s)`: the base64 text of the string's bytes; a character outside
   * Latin-1 makes it throw an InvalidCharacterError.
   */
  function Btoa(s: string): (r: Result<string, JsError>)
    ensures r.Ok? <==> forall i :: 0 <= i < |s| ==> s[i] as int < 256
    ensures r.Ok? ==> |r.value| == 4 * ((|s| + 2) / 3)
  {
    match Latin1Bytes(s)
    case Some(b) => Ok(Encode(b))
    case None => Err(JsError("InvalidCharacterError", BtoaRangeMessage))
  }

  /** `btoa` loses nothing: decoding its output gives back the character codes of the input. */
  lemma BtoaDecodes(s: string)
    requires Btoa(s).Ok?
    ensures Decode(Btoa(s).value) == Latin1Bytes(s)
    ensures Latin1Bytes(s).Some? && |Latin1Bytes(s).value| == |s|
    ensures forall i :: 0 <= i < |s| ==> Latin1Bytes(s).value[i] == s[i] as int
  {
    DecodeEncode(Latin1Bytes(s).value);
  }
}
