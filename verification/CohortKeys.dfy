/**
 Cohort keys: printed as base64 of "version snap-id seconds signature", parsed
 back by splitting on spaces, and signed with an HMAC (section 2 of RFC 2104)
 over the version byte and the snap id. The HMAC is a parameter.
 */
module CohortKeys {
  import opened Text
  import Base64

  type Uint8 = v: nat | v < 0x100
  type Int64 = z: int | -TWO_TO_63 <= z < TWO_TO_63

  datatype Time = Time(unix: Int64, nanos: nat)

  datatype CohortKey = CohortKey(version: Uint8, snapID: Bytes, createdAt: Time, signature: Bytes)

  datatype ParseError = NotBase64 | NotFourParts | BadVersion | BadTimestamp

  datatype Result<T, E> = Success(value: T) | Failure(error: E)

  function Plain(ck: CohortKey): string {
    PrintNat(ck.version) + " " + ck.snapID + " " + PrintInt(ck.createdAt.unix) + " " + ck.signature
  }

  lemma PlainIsBytes(ck: CohortKey)
    ensures IsBytes(Plain(ck))
  {
    var a, b := PrintNat(ck.version), PrintInt(ck.createdAt.unix);
    assert forall i :: 0 <= i < |a| ==> IsDigit(a[i]);
    assert forall i :: 0 <= i < |b| ==> IsDigit(b[i]) || b[i] == '-';
  }

  function ToString(ck: CohortKey): string {
    PlainIsBytes(ck);
    Base64.Encode(Plain(ck))
  }

  function FromString(e: string): Result<CohortKey, ParseError> {
    match Base64.Decode(e)
    case None => Failure(NotBase64)
    case Some(b) =>
      PartsAreBytes(b, ' ');
      FromParts(Split(b, ' '))
  }

  predicate IsBytes(s: string) { forall i :: 0 <= i < |s| ==> s[i] as int < 0x100 }

  lemma {:induction false} PartsAreBytes(s: Bytes, sep: char)
    ensures forall i :: 0 <= i < |Split(s, sep)| ==> IsBytes(Split(s, sep)[i])
  {
    if s != [] {
      PartsAreBytes(s[1..], sep);
    }
  }

  function FromParts(parts: seq<string>): Result<CohortKey, ParseError>
    requires forall i :: 0 <= i < |parts| ==> IsBytes(parts[i])
  {
    if |parts| != 4 then Failure(NotFourParts)
    else
      var version := ParseUint(parts[0], 0x100);
      if version.None? then Failure(BadVersion)
      else
        var unix := ParseInt64(parts[2]);
        if unix.None? then Failure(BadTimestamp)
        else
          assert IsBytes(parts[1]) && IsBytes(parts[3]);
          Success(CohortKey(version.value, parts[1], Time(unix.value, 0), parts[3]))
  }

  function Truncated(ck: CohortKey): CohortKey { ck.(createdAt := Time(ck.createdAt.unix, 0)) }

  lemma SplitText(version: nat, id: string, unix: int, signature: string)
    ensures Split(PrintNat(version) + " " + id + " " + PrintInt(unix) + " " + signature, ' ')
            == [PrintNat(version)] + Split(id, ' ') + [PrintInt(unix)] + Split(signature, ' ')
  {
    var v, t := PrintNat(version), PrintInt(unix);
    assert ' ' !in v by { assert forall i :: 0 <= i < |v| ==> IsDigit(v[i]); }
    assert ' ' !in t by { assert forall i :: 0 <= i < |t| ==> IsDigit(t[i]) || t[i] == '-'; }
    SplitPlain(v, ' ');
    SplitPlain(t, ' ');
    SplitConcat(v + [' '] + id + [' '] + t, signature, ' ');
    SplitConcat(v + [' '] + id, t, ' ');
    SplitConcat(v, id, ' ');
    assert v + " " + id + " " + t + " " + signature == v + [' '] + id + [' '] + t + [' '] + signature;
  }

  // What the base64 of a text in this format is read as.
  lemma ParsesText(text: Bytes, version: nat, id: Bytes, unix: int, signature: Bytes)
    requires text == PrintNat(version) + " " + id + " " + PrintInt(unix) + " " + signature
    ensures FromString(Base64.Encode(text)) ==
      if ' ' in id || ' ' in signature then Failure(NotFourParts)
      else if version >= 256 then Failure(BadVersion)
      else if unix < -TWO_TO_63 || unix >= TWO_TO_63 then Failure(BadTimestamp)
      else Success(CohortKey(version, id, Time(unix, 0), signature))
  {
    Base64.DecodeEncode(text);
    SplitText(version, id, unix, signature);
    OnePart(id, ' ');
    OnePart(signature, ' ');
    if ' ' !in id && ' ' !in signature {
      SplitPlain(id, ' ');
      SplitPlain(signature, ' ');
      ParseUintPrintNat(version, 0x100);
      ParseInt64PrintInt(unix);
    }
  }

  // A key is printed in that format.
  lemma PrintsText(ck: CohortKey)
    ensures Base64.Decode(ToString(ck))
            == Some(PrintNat(ck.version) + " " + ck.snapID + " " + PrintInt(ck.createdAt.unix) + " " + ck.signature)
  {
    PlainIsBytes(ck);
    Base64.DecodeEncode(Plain(ck));
  }

  // Printing then parsing gives the key back, with its time cut to seconds,
  // exactly when neither the snap id nor the signature holds a space; with a
  // space in either the printed key is rejected.
  lemma RoundTrip(ck: CohortKey)
    ensures FromString(ToString(ck))
            == if ' ' !in ck.snapID && ' ' !in ck.signature then Success(Truncated(ck)) else Failure(NotFourParts)
  {
    PlainIsBytes(ck);
    ParsesText(Plain(ck), ck.version, ck.snapID, ck.createdAt.unix, ck.signature);
  }

  // ---- Signing ----

  type Mac = (Bytes, Bytes) -> Bytes

  function HexDigit(v: nat): Byte
    requires v < 16
  {
    if v < 10 then '0' + v as char else 'a' + (v - 10) as char
  }

  function Hex(b: Bytes): Bytes {
    if b == [] then [] else [HexDigit(b[0] as nat / 16), HexDigit(b[0] as nat % 16)] + Hex(b[1..])
  }

  lemma {:induction false} HexIsPlain(b: Bytes)
    ensures |Hex(b)| == 2 * |b| && ' ' !in Hex(b)
  {
    if b != [] {
      HexIsPlain(b[1..]);
    }
  }

  // Each byte is spelled by its high digit and then its low one.
  lemma {:induction false} HexAt(b: Bytes, i: nat)
    requires i < |b|
    ensures |Hex(b)| == 2 * |b|
    ensures Hex(b)[2 * i] == "0123456789abcdef"[b[i] as nat / 16]
    ensures Hex(b)[2 * i + 1] == "0123456789abcdef"[b[i] as nat % 16]
  {
    HexIsPlain(b);
    if i == 0 {
      HexDigitIs(b[0] as nat / 16);
      HexDigitIs(b[0] as nat % 16);
    } else {
      HexAt(b[1..], i - 1);
      assert Hex(b)[2..] == Hex(b[1..]);
      assert Hex(b)[2..][2 * (i - 1)] == Hex(b)[2 * i] && Hex(b)[2..][2 * (i - 1) + 1] == Hex(b)[2 * i + 1];
    }
  }

  lemma HexDigitIs(v: nat)
    requires v < 16
    ensures HexDigit(v) == "0123456789abcdef"[v]
  {
  }

  lemma {:induction false} HexInjective(a: Bytes, b: Bytes)
    requires Hex(a) == Hex(b)
    ensures a == b
  {
    HexIsPlain(a);
    HexIsPlain(b);
    if a != [] {
      assert Hex(a)[0] == Hex(b)[0] && Hex(a)[1] == Hex(b)[1];
      assert Hex(a)[2..] == Hex(a[1..]) && Hex(b)[2..] == Hex(b[1..]);
      HexInjective(a[1..], b[1..]);
      assert a == [a[0]] + a[1..] && b == [b[0]] + b[1..];
    }
  }

  function Signed(mac: Mac, secret: Bytes, ck: CohortKey): CohortKey {
    ck.(signature := Hex(mac(secret, [ck.version as char] + ck.snapID)))
  }

  // An unsigned key is an error rather than a refusal.
  function Verify(mac: Mac, secret: Bytes, ck: CohortKey): Option<bool> {
    if ck.signature == [] then None else Some(ck.signature == Signed(mac, secret, ck).signature)
  }

  // A key that was signed, printed and parsed verifies and still names its
  // snap, whenever its id has no space; SHA-1 makes the digest 20 bytes long.
  lemma SignedKeyVerifies(mac: Mac, secret: Bytes, ck: CohortKey)
    requires |mac(secret, [ck.version as char] + ck.snapID)| == 20
    ensures ' ' !in ck.snapID <==> FromString(ToString(Signed(mac, secret, ck))).Success?
    ensures ' ' !in ck.snapID ==>
      var back := FromString(ToString(Signed(mac, secret, ck))).value;
      back.snapID == ck.snapID && back.createdAt.unix == ck.createdAt.unix && Verify(mac, secret, back) == Some(true)
  {
    HexIsPlain(mac(secret, [ck.version as char] + ck.snapID));
    RoundTrip(Signed(mac, secret, ck));
  }

  // Verification accepts a key exactly when its signature spells the digest of
  // its version and snap id.
  lemma VerifyExactly(mac: Mac, secret: Bytes, ck: CohortKey, digest: Bytes)
    requires digest != [] && ck.signature == Hex(digest)
    ensures Verify(mac, secret, ck) == Some(digest == mac(secret, [ck.version as char] + ck.snapID))
  {
    HexIsPlain(digest);
    if Hex(digest) == Hex(mac(secret, [ck.version as char] + ck.snapID)) {
      HexInjective(digest, mac(secret, [ck.version as char] + ck.snapID));
    }
  }
}
