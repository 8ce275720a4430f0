/** Truncating a transaction description to a byte budget without splitting a UTF-8 character.

    Encoding and strict decoding follow sections 3 and 4 of RFC 3629. */
module Utf8 {
  import opened Options

  type Byte = b: nat | b < 256

  type Scalar = c: nat | c < 0x11_0000 && !(0xD800 <= c < 0xE000)

  type Text = seq<Scalar>

  // ------------------------------------------------------------------
  // The encoding
  // ------------------------------------------------------------------

  function Length(c: Scalar): (n: nat)
    ensures 1 <= n <= 4
  {
    if c < 0x80 then 1 else if c < 0x800 then 2 else if c < 0x1_0000 then 3 else 4
  }

  function EncodeChar(c: Scalar): (bytes: seq<Byte>)
    ensures |bytes| == Length(c)
  {
    if c < 0x80 then [c]
    else if c < 0x800 then [0xC0 + c / 64, 0x80 + c % 64]
    else if c < 0x1_0000 then [0xE0 + c / 64 / 64, 0x80 + c / 64 % 64, 0x80 + c % 64]
    else [0xF0 + c / 64 / 64 / 64, 0x80 + c / 64 / 64 % 64, 0x80 + c / 64 % 64, 0x80 + c % 64]
  }

  function Encode(text: Text): seq<Byte>
  {
    if text == [] then [] else EncodeChar(text[0]) + Encode(text[1..])
  }

  /** The length a lead byte announces; 0 for a byte that cannot lead. */
  function Announced(b: Byte): nat {
    if b < 0x80 then 1
    else if 0xC2 <= b < 0xE0 then 2
    else if 0xE0 <= b < 0xF0 then 3
    else if 0xF0 <= b < 0xF5 then 4
    else 0
  }

  predicate IsTail(b: Byte) { 0x80 <= b < 0xC0 }

  function Low(b: Byte): int { b as int - 0x80 }

  /** The value of a complete sequence; surrogates, overlong and out of range forms are refused. */
  function DecodeChar(bytes: seq<Byte>): (c: Option<Scalar>) {
    if |bytes| == 1 then
      if bytes[0] < 0x80 then Some(bytes[0]) else None
    else if |bytes| == 2 then
      var v: int := (bytes[0] as int - 0xC0) * 64 + Low(bytes[1]);
      if IsTail(bytes[1]) && 0x80 <= v < 0x800 then Some(v) else None
    else if |bytes| == 3 then
      var v: int := (bytes[0] as int - 0xE0) * 4096 + Low(bytes[1]) * 64 + Low(bytes[2]);
      if IsTail(bytes[1]) && IsTail(bytes[2]) && 0x800 <= v < 0x1_0000 && !(0xD800 <= v < 0xE000) then Some(v) else None
    else if |bytes| == 4 then
      var v: int := (bytes[0] as int - 0xF0) * 262144 + Low(bytes[1]) * 4096 + Low(bytes[2]) * 64 + Low(bytes[3]);
      if IsTail(bytes[1]) && IsTail(bytes[2]) && IsTail(bytes[3]) && 0x1_0000 <= v < 0x11_0000 then Some(v) else None
    else None
  }

  function Decode(bytes: seq<Byte>): Option<Text>
  {
    if bytes == [] then Some([])
    else
      var n := Announced(bytes[0]);
      if n == 0 || |bytes| < n then None
      else
        var first := DecodeChar(bytes[..n]);
        var rest := Decode(bytes[n..]);
        if first.Some? && rest.Some? then Some([first.value] + rest.value) else None
  }

  lemma LeadAnnounces(c: Scalar)
    ensures Announced(EncodeChar(c)[0]) == Length(c)
  {
  }

  lemma CharRoundTrips(c: Scalar)
    ensures DecodeChar(EncodeChar(c)) == Some(c)
  {
    var a := c / 64;
    var b := a / 64;
    var d := b / 64;
    assert c == a * 64 + c % 64 && a == b * 64 + a % 64 && b == d * 64 + b % 64;
  }

  // ------------------------------------------------------------------
  // Where an encoding may be cut
  // ------------------------------------------------------------------

  /** How many whole characters fit into n bytes. */
  function Fit(text: Text, n: nat): (k: nat)
    ensures k <= |text|
  {
    if text == [] || Length(text[0]) > n then 0 else 1 + Fit(text[1..], n - Length(text[0]))
  }

  function Size(text: Text): nat { |Encode(text)| }

  lemma {:induction false} SizeOfPrefix(text: Text, k: nat)
    requires k <= |text|
    ensures Size(text[..k]) <= Size(text) && Encode(text)[..Size(text[..k])] == Encode(text[..k])
  {
    if k == 0 {
    } else {
      assert text[..k][0] == text[0] && text[..k][1..] == text[1..][..k - 1];
      SizeOfPrefix(text[1..], k - 1);
    }
  }

  /** Exactly the characters counted by Fit fit, and what is left is less than a character. */
  lemma {:induction false} FitIsLongest(text: Text, n: nat)
    ensures Size(text[..Fit(text, n)]) <= n
    ensures Fit(text, n) < |text| ==> n < Size(text[..Fit(text, n) + 1])
    ensures n <= Size(text) ==> n - Size(text[..Fit(text, n)]) <= 3
  {
    if text == [] || Length(text[0]) > n {
      assert text[..0] == [];
      if text != [] {
        assert text[..1] == [text[0]];
        assert Encode([text[0]]) == EncodeChar(text[0]) + Encode([]);
      }
    } else {
      var k := Fit(text[1..], n - Length(text[0]));
      FitIsLongest(text[1..], n - Length(text[0]));
      assert text[..k + 1][0] == text[0] && text[..k + 1][1..] == text[1..][..k];
      if k + 1 < |text| {
        assert text[..k + 2][0] == text[0] && text[..k + 2][1..] == text[1..][..k + 1];
      }
    }
  }

  lemma DecodeWhole(c: Scalar, rest: seq<Byte>)
    ensures Decode(EncodeChar(c) + rest) ==
            if Decode(rest).Some? then Some([c] + Decode(rest).value) else None
  {
    var bytes := EncodeChar(c) + rest;
    LeadAnnounces(c);
    CharRoundTrips(c);
    assert bytes[..Length(c)] == EncodeChar(c) && bytes[Length(c)..] == rest;
  }

  lemma DecodePartial(c: Scalar, bytes: seq<Byte>)
    requires bytes != [] && |bytes| < Length(c) && bytes[0] == EncodeChar(c)[0]
    ensures Decode(bytes) == None
  {
    LeadAnnounces(c);
  }

  /** A cut decodes exactly when it falls between two characters, and then to the characters before it. */
  lemma {:induction false} DecodeCut(text: Text, n: nat)
    requires n <= Size(text)
    ensures Decode(Encode(text)[..n]) ==
            if Size(text[..Fit(text, n)]) == n then Some(text[..Fit(text, n)]) else None
  {
    if n == 0 {
      assert text[..Fit(text, 0)] == [];
    } else {
      var c, rest := text[0], text[1..];
      var m := Length(c);
      if n < m {
        DecodePartial(c, Encode(text)[..n]);
        assert text[..0] == [];
      } else {
        DecodeCut(rest, n - m);
        DecodeWhole(c, Encode(rest)[..n - m]);
        assert Encode(text)[..n] == EncodeChar(c) + Encode(rest)[..n - m];
        var k := Fit(rest, n - m);
        assert text[..k + 1][0] == c && text[..k + 1][1..] == rest[..k];
        assert [c] + rest[..k] == text[..k + 1];
      }
    }
  }

  // ------------------------------------------------------------------
  // The truncation
  // ------------------------------------------------------------------

  const DOT: Scalar := 0x2E
  const ELLIPSIS: Text := [DOT, DOT, DOT]

  /** Drops trailing characters of a given set. */
  function RStrip(text: Text, spaces: set<Scalar>): (t: Text)
    ensures t <= text
  {
    if text == [] || text[|text| - 1] !in spaces then text else RStrip(text[..|text| - 1], spaces)
  }

  function Dots(n: nat): Text { seq(n, _ => DOT) }

  /** `_truncate_utf8`; `spaces` are the characters that strip at the end of a string. */
  function Truncated(value: Text, maxBytes: nat, spaces: set<Scalar>): Text {
    if Size(value) <= maxBytes then value
    else if maxBytes <= 3 then Dots(maxBytes)
    else RStrip(value[..Fit(value, maxBytes - 3)], spaces) + ELLIPSIS
  }

  /** The loop shortens a byte prefix until it decodes; `dropped` counts its rounds. */
  method LongestDecodable(value: Text, n: nat) returns (kept: Text, dropped: nat)
    requires n <= Size(value)
    ensures kept == value[..Fit(value, n)] && dropped <= 3
  {
    var encoded := Encode(value);
    var prefix := encoded[..n];
    dropped := 0;
    ghost var cut := Size(value[..Fit(value, n)]);
    FitIsLongest(value, n);
    while prefix != []
      invariant |prefix| <= n && prefix == encoded[..|prefix|]
      invariant cut <= |prefix| && dropped == n - |prefix|
    {
      CutOrDrop(value, n, |prefix|);
      var decoded := Decode(prefix);
      if decoded.Some? {
        return decoded.value, dropped;
      }
      prefix := prefix[..|prefix| - 1];
      dropped := dropped + 1;
    }
    SameFit(value, n, 0);
    NothingFits(value);
    return [], dropped;
  }

  lemma NothingFits(value: Text)
    ensures value[..Fit(value, 0)] == []
  {
  }

  method TruncateUtf8(value: Text, maxBytes: int, spaces: set<Scalar>) returns (text: Text, dropped: nat)
    ensures text == Truncated(value, if maxBytes > 0 then maxBytes else 0, spaces)
    ensures dropped <= 3
  {
    var limit: nat := if maxBytes > 0 then maxBytes else 0;
    if |Encode(value)| <= limit {
      return value, 0;
    }
    if limit == 0 {
      return [], 0;
    }
    if limit <= 3 {
      return Dots(limit), 0;
    }
    var kept, n := LongestDecodable(value, limit - 3);
    return RStrip(kept, spaces) + ELLIPSIS, n;
  }

  lemma CutOrDrop(value: Text, n: nat, m: nat)
    requires Size(value[..Fit(value, n)]) <= m <= n <= Size(value)
    ensures Decode(Encode(value)[..m]) ==
            if m == Size(value[..Fit(value, n)]) then Some(value[..Fit(value, n)]) else None
  {
    SameFit(value, n, m);
    DecodeCut(value, m);
  }

  /** Dropping bytes down to the last boundary does not change which characters fit. */
  lemma {:induction false} SameFit(text: Text, n: nat, m: nat)
    requires Size(text[..Fit(text, n)]) <= m <= n
    ensures Fit(text, m) == Fit(text, n)
  {
    if text != [] && Length(text[0]) <= n {
      var k := Fit(text[1..], n - Length(text[0]));
      assert text[..k + 1][0] == text[0] && text[..k + 1][1..] == text[1..][..k];
      SameFit(text[1..], n - Length(text[0]), m - Length(text[0]));
    }
  }

  // ------------------------------------------------------------------
  // Results
  // ------------------------------------------------------------------

  lemma {:induction false} SizeOfConcat(a: Text, b: Text)
    ensures Size(a + b) == Size(a) + Size(b)
  {
    if a == [] {
      assert a + b == b;
    } else {
      assert (a + b)[1..] == a[1..] + b;
      SizeOfConcat(a[1..], b);
    }
  }

  lemma {:induction false} SizeOfDots(n: nat)
    ensures Size(Dots(n)) == n
  {
    if n > 0 {
      assert Dots(n)[1..] == Dots(n - 1);
      SizeOfDots(n - 1);
    }
  }

  /** The result never exceeds the budget. */
  lemma NeverTooLong(value: Text, maxBytes: nat, spaces: set<Scalar>)
    ensures Size(Truncated(value, maxBytes, spaces)) <= maxBytes
  {
    SizeOfDots(maxBytes);
    SizeOfDots(3);
    assert Dots(3) == ELLIPSIS;
    if Size(value) > maxBytes > 3 {
      var kept := value[..Fit(value, maxBytes - 3)];
      var stripped := RStrip(kept, spaces);
      FitIsLongest(value, maxBytes - 3);
      SizeOfPrefix(kept, |stripped|);
      assert kept[..|stripped|] == stripped;
      SizeOfConcat(stripped, ELLIPSIS);
    }
  }

  /** A longer text keeps the longest prefix of whole characters that leaves room for the dots. */
  lemma KeepsTheLongestPrefix(value: Text, maxBytes: nat, spaces: set<Scalar>) returns (k: nat)
    requires Size(value) > maxBytes > 3
    ensures k < |value| && Truncated(value, maxBytes, spaces) == RStrip(value[..k], spaces) + ELLIPSIS
    ensures Size(value[..k]) <= maxBytes - 3 < Size(value[..k + 1])
  {
    k := Fit(value, maxBytes - 3);
    FitIsLongest(value, maxBytes - 3);
    assert value[..|value|] == value;
  }

  /** Strict decoding undoes encoding. */
  lemma DecodeEncode(text: Text)
    ensures Decode(Encode(text)) == Some(text)
  {
    var n := Size(text);
    DecodeCut(text, n);
    WholeFits(text);
    assert Encode(text)[..n] == Encode(text);
    assert text[..|text|] == text;
  }

  lemma {:induction false} WholeFits(text: Text)
    ensures Fit(text, Size(text)) == |text|
  {
    if text != [] {
      WholeFits(text[1..]);
    }
  }
}
