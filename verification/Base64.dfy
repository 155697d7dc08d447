// Standard base64 with padding (section 4 of RFC 4648), decoded as Go does:
// line breaks are skipped and the unused trailing bits are not checked.
module Base64 {
  import opened Text

  function EncodeChar(v: nat): char
    requires v < 64
  {
    if v < 26 then 'A' + v as char
    else if v < 52 then 'a' + (v - 26) as char
    else if v < 62 then '0' + (v - 52) as char
    else if v == 62 then '+' else '/'
  }

  function DecodeChar(c: char): (r: Option<nat>)
    ensures r.Some? ==> r.value < 64
  {
    if 'A' <= c <= 'Z' then Some((c - 'A') as nat)
    else if 'a' <= c <= 'z' then Some((c - 'a') as nat + 26)
    else if '0' <= c <= '9' then Some((c - '0') as nat + 52)
    else if c == '+' then Some(62)
    else if c == '/' then Some(63)
    else None
  }

  function ToByte(v: nat): Byte
    requires v < 256
  {
    v as char
  }

  function One(x: Byte): string {
    [EncodeChar(x as nat / 4), EncodeChar(x as nat % 4 * 16), '=', '=']
  }

  function Two(x: Byte, y: Byte): string {
    [EncodeChar(x as nat / 4), EncodeChar(x as nat % 4 * 16 + y as nat / 16), EncodeChar(y as nat % 16 * 4), '=']
  }

  function Three(x: Byte, y: Byte, z: Byte): string {
    [EncodeChar(x as nat / 4), EncodeChar(x as nat % 4 * 16 + y as nat / 16),
     EncodeChar(y as nat % 16 * 4 + z as nat / 64), EncodeChar(z as nat % 64)]
  }

  function Group(b: Bytes): string
    requires 1 <= |b| <= 3
  {
    if |b| == 1 then One(b[0]) else if |b| == 2 then Two(b[0], b[1]) else Three(b[0], b[1], b[2])
  }

  function Encode(b: Bytes): string {
    if b == [] then "" else if |b| <= 3 then Group(b) else Group(b[..3]) + Encode(b[3..])
  }

  // Four symbols; padding may stand only in the last group.
  function DecodeQuad(q: string, last: bool): Option<Bytes>
    requires |q| == 4
  {
    var v0, v1, v2, v3 := DecodeChar(q[0]), DecodeChar(q[1]), DecodeChar(q[2]), DecodeChar(q[3]);
    if v0.None? || v1.None? then None
    else
      var first := ToByte(v0.value * 4 + v1.value / 16);
      if q[2] == '=' then (if q[3] == '=' && last then Some([first]) else None)
      else if v2.None? then None
      else
        var second := ToByte(v1.value % 16 * 16 + v2.value / 4);
        if q[3] == '=' then (if last then Some([first, second]) else None)
        else if v3.None? then None
        else Some([first, second, ToByte(v2.value % 4 * 64 + v3.value)])
  }

  function DecodeQuads(s: string): Option<Bytes> {
    if s == "" then Some([])
    else if |s| < 4 then None
    else
      match DecodeQuad(s[..4], |s| == 4)
      case None => None
      case Some(head) =>
        match DecodeQuads(s[4..])
        case None => None
        case Some(rest) => Some(head + rest)
  }

  function SkipLineBreaks(s: string): string {
    if s == "" then ""
    else if s[0] == '\n' || s[0] == '\r' then SkipLineBreaks(s[1..])
    else [s[0]] + SkipLineBreaks(s[1..])
  }

  function Decode(s: string): Option<Bytes> { DecodeQuads(SkipLineBreaks(s)) }

  lemma DecodeEncodeChar(v: nat)
    requires v < 64
    ensures DecodeChar(EncodeChar(v)) == Some(v)
    ensures EncodeChar(v) != '=' && EncodeChar(v) != '\n' && EncodeChar(v) != '\r'
  {
  }

  // Regrouping three bytes into four sextets loses nothing.
  lemma Regroup(x: nat, y: nat, z: nat)
    requires x < 256 && y < 256 && z < 256
    ensures x / 4 < 64 && x % 4 * 16 + y / 16 < 64 && y % 16 * 4 + z / 64 < 64 && z % 64 < 64
    ensures x / 4 * 4 + (x % 4 * 16 + y / 16) / 16 == x
    ensures (x % 4 * 16 + y / 16) % 16 * 16 + (y % 16 * 4 + z / 64) / 4 == y
    ensures (y % 16 * 4 + z / 64) % 4 * 64 + z % 64 == z
  {
  }

  // The digits of section 4 of RFC 4648.
  lemma InAlphabet(v: nat)
    requires v < 64
    ensures EncodeChar(v) == if v < 26 then "ABCDEFGHIJKLMNOPQRSTUVWXYZ"[v]
      else if v < 52 then "abcdefghijklmnopqrstuvwxyz"[v - 26]
      else "0123456789+/"[v - 52]
  {
  }

  // Three bytes and their four digits are the same number, high digit first;
  // the digits before the padding of a shorter group are those of the group
  // filled up with zeros.
  lemma SameNumber(x: Byte, y: Byte, z: Byte) returns (v: seq<nat>)
    ensures |v| == 4 && forall i :: 0 <= i < 4 ==> v[i] < 64 && Three(x, y, z)[i] == EncodeChar(v[i])
    ensures ((v[0] * 64 + v[1]) * 64 + v[2]) * 64 + v[3] == (x as nat * 256 + y as nat) * 256 + z as nat
  {
    Regroup(x as nat, y as nat, z as nat);
    v := [x as nat / 4, x as nat % 4 * 16 + y as nat / 16, y as nat % 16 * 4 + z as nat / 64, z as nat % 64];
  }

  lemma Padded(x: Byte, y: Byte)
    ensures Two(x, y) == Three(x, y, 0 as char)[..3] + "=" && One(x) == Three(x, 0 as char, 0 as char)[..2] + "=="
  {
  }

  lemma DecodeOne(x: Byte)
    ensures DecodeQuad(One(x), true) == Some([x])
  {
    Regroup(x as nat, 0, 0);
    DecodeEncodeChar(x as nat / 4);
    DecodeEncodeChar(x as nat % 4 * 16);
  }

  lemma DecodeTwo(x: Byte, y: Byte)
    ensures DecodeQuad(Two(x, y), true) == Some([x, y])
  {
    Regroup(x as nat, y as nat, 0);
    DecodeEncodeChar(x as nat / 4);
    DecodeEncodeChar(x as nat % 4 * 16 + y as nat / 16);
    DecodeEncodeChar(y as nat % 16 * 4);
  }

  lemma DecodeThree(x: Byte, y: Byte, z: Byte, last: bool)
    ensures DecodeQuad(Three(x, y, z), last) == Some([x, y, z])
  {
    hide EncodeChar, DecodeQuad;
    var (v0, v1, v2, v3) := (x as nat / 4, x as nat % 4 * 16 + y as nat / 16,
          y as nat % 16 * 4 + z as nat / 64, z as nat % 64);
    assert v0 < 64 && v1 < 64 && v2 < 64 && v3 < 64
      && v0 * 4 + v1 / 16 == x as nat && v1 % 16 * 16 + v2 / 4 == y as nat && v2 % 4 * 64 + v3 == z as nat by {
      Regroup(x as nat, y as nat, z as nat);
    }
    assert DecodeQuad([EncodeChar(v0), EncodeChar(v1), EncodeChar(v2), EncodeChar(v3)], last)
      == Some([ToByte(x as nat), ToByte(y as nat), ToByte(z as nat)]) by { DecodeSextets(v0, v1, v2, v3, last); }
  }

  lemma DecodeSextets(v0: nat, v1: nat, v2: nat, v3: nat, last: bool)
    requires v0 < 64 && v1 < 64 && v2 < 64 && v3 < 64
    ensures DecodeQuad([EncodeChar(v0), EncodeChar(v1), EncodeChar(v2), EncodeChar(v3)], last)
            == Some([ToByte(v0 * 4 + v1 / 16), ToByte(v1 % 16 * 16 + v2 / 4), ToByte(v2 % 4 * 64 + v3)])
  {
    DecodeEncodeChar(v0);
    DecodeEncodeChar(v1);
    DecodeEncodeChar(v2);
    DecodeEncodeChar(v3);
  }

  // A group in front of anything decodable.
  lemma DecodeGroup(q: string, code: string, head: Bytes)
    requires |q| == 4 && DecodeQuad(q, |code| == 0) == Some(head) && DecodeQuads(code).Some?
    ensures DecodeQuads(q + code) == Some(head + DecodeQuads(code).value)
  {
    assert (q + code)[..4] == q && (q + code)[4..] == code;
  }

  lemma {:induction false} DecodeQuadsEncode(b: Bytes)
    ensures DecodeQuads(Encode(b)) == Some(b)
  {
    if |b| > 3 {
      DecodeQuadsEncode(b[3..]);
      GroupDecodes(b[..3], false);
      DecodeGroup(Group(b[..3]), Encode(b[3..]), b[..3]);
      assert b == b[..3] + b[3..];
    } else if b != [] {
      GroupDecodes(b, true);
      DecodeGroup(Group(b), "", b);
      assert Group(b) + "" == Group(b) && b + [] == b;
    }
  }

  lemma GroupDecodes(b: Bytes, last: bool)
    requires 1 <= |b| <= 3 && (|b| < 3 ==> last)
    ensures |Group(b)| == 4 && DecodeQuad(Group(b), last) == Some(b)
  {
    if |b| == 1 {
      DecodeOne(b[0]);
      assert b == [b[0]];
    } else if |b| == 2 {
      DecodeTwo(b[0], b[1]);
      assert b == [b[0], b[1]];
    } else {
      DecodeThree(b[0], b[1], b[2], last);
      assert b == [b[0], b[1], b[2]];
    }
  }

  lemma {:induction false} EncodeHasNoLineBreaks(b: Bytes)
    ensures '\n' !in Encode(b) && '\r' !in Encode(b)
  {
    if |b| > 3 {
      EncodeHasNoLineBreaks(b[3..]);
    }
  }

  lemma {:induction false} NothingToSkip(s: string)
    requires '\n' !in s && '\r' !in s
    ensures SkipLineBreaks(s) == s
  {
    if s != "" {
      NothingToSkip(s[1..]);
      assert s == [s[0]] + s[1..];
    }
  }

  lemma DecodeEncode(b: Bytes)
    ensures Decode(Encode(b)) == Some(b)
  {
    DecodeQuadsEncode(b);
    EncodeHasNoLineBreaks(b);
    NothingToSkip(Encode(b));
  }
}
