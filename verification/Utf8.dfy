/** UTF-8 over Unicode scalar values, as in section 3 of RFC 3629. */
module Utf8 {
  import opened Prelude

  type Byte = b: int | 0 <= b < 256

  function Width(c: char): (w: nat)
    ensures 1 <= w <= 4
  {
    var code := c as int;
    if code < 0x80 then 1 else if code < 0x800 then 2 else if code < 0x1_0000 then 3 else 4
  }

  function EncodeChar(c: char): (r: seq<Byte>)
    ensures |r| == Width(c)
  {
    var code := c as int;
    if code < 0x80 then [code]
    else if code < 0x800 then [0xC0 + code / 64, 0x80 + code % 64]
    else if code < 0x1_0000 then [0xE0 + code / 4096, 0x80 + (code / 64) % 64, 0x80 + code % 64]
    else [0xF0 + code / 262144, 0x80 + (code / 4096) % 64, 0x80 + (code / 64) % 64, 0x80 + code % 64]
  }

  /** `value.encode("utf-8")`. */
  function Encode(value: string): seq<Byte> {
    if value == "" then [] else EncodeChar(value[0]) + Encode(value[1..])
  }

  /** The number of bytes of the encoding. */
  function Size(value: string): nat {
    if value == "" then 0 else Width(value[0]) + Size(value[1..])
  }

  predicate IsTail(b: Byte) { 0x80 <= b < 0xC0 }

  predicate IsScalar(code: int) { 0 <= code < 0xD800 || 0xE000 <= code < 0x11_0000 }

  function Two(a: int, b: int): int { (a - 0xC0) * 64 + (b - 0x80) }

  function Three(a: int, b: int, c: int): int { (a - 0xE0) * 4096 + (b - 0x80) * 64 + (c - 0x80) }

  function Four(a: int, b: int, c: int, d: int): int {
    (a - 0xF0) * 262144 + (b - 0x80) * 4096 + (c - 0x80) * 64 + (d - 0x80)
  }

  /** The scalar value that a well-formed sequence at the front denotes. */
  function DecodeFirst(bytes: seq<Byte>): (r: Option<char>)
    ensures r.Some? ==> Width(r.value) <= |bytes|
  {
    if bytes == [] then None
    else
      var b := bytes[0];
      if b < 0x80 then Some(b as char)
      else if 0xC2 <= b < 0xE0 && |bytes| >= 2 && IsTail(bytes[1]) then
        Some(Two(b, bytes[1]) as char)
      else if 0xE0 <= b < 0xF0 && |bytes| >= 3 && IsTail(bytes[1]) && IsTail(bytes[2]) then
        var code := Three(b, bytes[1], bytes[2]);
        if code >= 0x800 && IsScalar(code) then Some(code as char) else None
      else if 0xF0 <= b < 0xF5 && |bytes| >= 4 && IsTail(bytes[1]) && IsTail(bytes[2]) && IsTail(bytes[3]) then
        var code := Four(b, bytes[1], bytes[2], bytes[3]);
        if 0x1_0000 <= code < 0x11_0000 then Some(code as char) else None
      else None
  }

  /** `bytes.decode("utf-8", errors="ignore")`: bytes that start nothing well-formed are skipped. */
  function Decode(bytes: seq<Byte>): string
    decreases |bytes|
  {
    if bytes == [] then ""
    else match DecodeFirst(bytes)
      case Some(c) => [c] + Decode(bytes[Width(c)..])
      case None => Decode(bytes[1..])
  }

  // ---------------------------------------------------------------- round trip

  lemma DecodeFirstOfEncoded(c: char, rest: seq<Byte>)
    ensures DecodeFirst(EncodeChar(c) + rest) == Some(c)
  {
    var code := c as int;
    var bytes := EncodeChar(c) + rest;
    if code < 0x80 {
    } else if code < 0x800 {
      assert Two(bytes[0], bytes[1]) == code;
    } else if code < 0x1_0000 {
      ThreeDigits(code);
      assert Three(bytes[0], bytes[1], bytes[2]) == code;
    } else {
      FourDigits(code);
      assert Four(bytes[0], bytes[1], bytes[2], bytes[3]) == code;
    }
  }

  lemma ThreeDigits(code: int)
    requires code >= 0
    ensures (code / 4096) * 4096 + ((code / 64) % 64) * 64 + code % 64 == code
  {
    assert code / 4096 == (code / 64) / 64;
  }

  lemma FourDigits(code: int)
    requires code >= 0
    ensures (code / 262144) * 262144 + ((code / 4096) % 64) * 4096 + ((code / 64) % 64) * 64 + code % 64 == code
  {
    assert code / 4096 == (code / 64) / 64;
    assert code / 262144 == ((code / 64) / 64) / 64;
  }

  lemma {:induction false} SizeIsLength(value: string)
    ensures |Encode(value)| == Size(value)
  {
    if value != "" { SizeIsLength(value[1..]); }
  }

  lemma {:induction false} SizeJoin(a: string, b: string)
    ensures Size(a + b) == Size(a) + Size(b)
  {
    if a == "" {
      assert a + b == b;
    } else {
      assert (a + b)[0] == a[0] && (a + b)[1..] == a[1..] + b;
      SizeJoin(a[1..], b);
    }
  }

  // ---------------------------------------------------------------- truncation

  /** How many characters at the front fit into `limit` bytes. */
  function FitLength(value: string, limit: int): (n: nat)
    ensures n <= |value|
  {
    if value == "" || Width(value[0]) > limit then 0 else 1 + FitLength(value[1..], limit - Width(value[0]))
  }

  /** The longest prefix that fits. */
  function Fitting(value: string, limit: int): string {
    value[..FitLength(value, limit)]
  }

  /** The prefix fits, and one more character would not. */
  lemma {:induction false} FittingIsLongest(value: string, limit: int)
    requires limit >= 0
    ensures Size(Fitting(value, limit)) <= limit
    ensures forall k | FitLength(value, limit) < k <= |value| :: Size(value[..k]) > limit
    ensures Size(value) <= limit <==> Fitting(value, limit) == value
    ensures Fitting(value, limit) != value ==> Size(Fitting(value, limit)) + 4 > limit
    decreases |value|
  {
    if value == "" {
    } else if Width(value[0]) > limit {
      forall k | 0 < k <= |value| ensures Size(value[..k]) > limit {
        assert value[..k][0] == value[0];
      }
      assert value[..|value|] == value;
    } else {
      var rest := limit - Width(value[0]);
      FittingIsLongest(value[1..], rest);
      var n := FitLength(value[1..], rest);
      assert value[..n + 1][0] == value[0] && value[..n + 1][1..] == value[1..][..n];
      forall k | n + 1 < k <= |value| ensures Size(value[..k]) > limit {
        assert value[..k][0] == value[0] && value[..k][1..] == value[1..][..k - 1];
      }
      assert value == [value[0]] + value[1..];
      assert Fitting(value, limit) == [value[0]] + Fitting(value[1..], rest);
    }
  }

  /** Nothing is cut exactly when all of it fits; a negative limit cuts everything. */
  lemma FittingIsWhole(value: string, limit: int)
    ensures Fitting(value, limit) == value <==> Size(value) <= limit || value == ""
    ensures limit < 0 ==> Fitting(value, limit) == ""
  {
    if limit >= 0 {
      FittingIsLongest(value, limit);
    }
  }

  /** What is left of a cut character decodes to nothing. */
  lemma CutCharIsIgnored(c: char, k: nat)
    requires k < Width(c)
    ensures Decode(EncodeChar(c)[..k]) == ""
  {
    var cut := EncodeChar(c)[..k];
    TailsAreTails(c);
    if k >= 1 {
      assert DecodeFirst(cut) == None;
      TailsAreIgnored(cut[1..]);
    }
  }

  lemma TailsAreTails(c: char)
    ensures forall i | 1 <= i < Width(c) :: IsTail(EncodeChar(c)[i])
  {
  }

  lemma {:induction false} TailsAreIgnored(bytes: seq<Byte>)
    requires forall b | b in bytes :: IsTail(b)
    ensures Decode(bytes) == ""
    decreases |bytes|
  {
    if bytes != [] {
      assert IsTail(bytes[0]);
      TailsAreIgnored(bytes[1..]);
    }
  }

  /** Cutting the encoding and decoding what is left gives the longest prefix that fits. */
  lemma {:induction false} DecodeOfCut(value: string, limit: nat)
    requires limit <= Size(value)
    ensures |Encode(value)| == Size(value)
    ensures Decode(Encode(value)[..limit]) == Fitting(value, limit)
    decreases |value|
  {
    SizeIsLength(value);
    if value != "" {
      var c := value[0];
      var cut := Encode(value)[..limit];
      if Width(c) > limit {
        assert cut == EncodeChar(c)[..limit];
        CutCharIsIgnored(c, limit);
      } else {
        var rest := limit - Width(c);
        SizeIsLength(value[1..]);
        assert cut == EncodeChar(c) + Encode(value[1..])[..rest];
        DecodeFirstOfEncoded(c, Encode(value[1..])[..rest]);
        assert cut[Width(c)..] == Encode(value[1..])[..rest];
        DecodeOfCut(value[1..], rest);
        assert Fitting(value, limit) == [c] + Fitting(value[1..], rest);
      }
    }
  }

  /** Decoding undoes encoding. */
  lemma RoundTrip(value: string)
    ensures Decode(Encode(value)) == value
  {
    SizeIsLength(value);
    DecodeOfCut(value, Size(value));
    FittingIsLongest(value, Size(value));
    assert Encode(value)[..Size(value)] == Encode(value);
  }

  // ---------------------------------------------------------------- splitting

  /** A part of at most `limit` bytes, or else one character, and the rest. */
  function SplitUtf8(value: string, limit: int): (string, string) {
    if limit <= 0 then ("", value)
    else if |Encode(value)| <= limit then (value, "")
    else
      var part := Decode(Encode(value)[..limit]);
      SizeIsLength(value);
      DecodeOfCut(value, limit);
      if part == "" then (value[..1], value[1..]) else (part, value[|part|..])
  }

  lemma SplitAtFit(value: string, limit: int)
    requires limit >= 1 && Size(value) > limit
    ensures value != ""
    ensures var n := FitLength(value, limit);
      SplitUtf8(value, limit) == if n == 0 then (value[..1], value[1..]) else (value[..n], value[n..])
  {
    hide Decode, Encode, EncodeChar;
    SizeIsLength(value);
    DecodeOfCut(value, limit);
    assert Decode(Encode(value)[..limit]) == value[..FitLength(value, limit)];
  }

  /** The parts rejoin, the first one makes progress, and it is over the limit only as a single character. */
  lemma SplitMakesProgress(value: string, limit: int)
    requires limit >= 1 && value != ""
    ensures var (part, rest) := SplitUtf8(value, limit);
      && part + rest == value && part != ""
      && (Size(part) <= limit || |part| == 1)
      && (Size(part) <= limit && rest != "" ==> Size(part) + Width(rest[0]) > limit)
  {
    hide SplitUtf8, Encode, Decode, Size, FitLength;
    if Size(value) > limit {
      SplitAtFit(value, limit);
      FittingIsLongest(value, limit);
      var n := FitLength(value, limit);
      JoinsAt(value, n);
      JoinsAt(value, 1);
      if n > 0 { NextOverflows(value, n, limit); }
    } else {
      WholeWhenSmall(value, limit);
    }
  }

  lemma WholeWhenSmall(value: string, limit: int)
    requires limit >= 1 && Size(value) <= limit
    ensures SplitUtf8(value, limit) == (value, "") && value + "" == value
  {
    hide Encode, Size;
    SizeIsLength(value);
  }

  lemma JoinsAt(value: string, n: nat)
    requires n <= |value|
    ensures value[..n] + value[n..] == value && value[..|value|] == value
    ensures n < |value| ==> value[n..][0] == value[n]
  {
  }

  /** A prefix that cannot take the next character. */
  lemma NextOverflows(value: string, n: nat, limit: int)
    requires n < |value| && Size(value[..n + 1]) > limit
    ensures Size(value[..n]) + Width(value[n]) > limit
  {
    hide Width;
    assert value[..n + 1] == value[..n] + [value[n]];
    SizeJoin(value[..n], [value[n]]);
    assert Size([value[n]]) == Width(value[n]) + Size([value[n]][1..]) && Size([value[n]][1..]) == 0;
  }
}
