/** base64.StdEncoding as the proxy uses it (section 4 of RFC 4648): EncodeToString and DecodeString. */
module Base64 {
  import opened Options
  import opened GoBytes

  const PAD: byte := 61

  /** The alphabet, as symbol of a value and value of a symbol. */
  function Symbol(v: int): byte
    requires 0 <= v < 64
  {
    if v < 26 then 65 + v else if v < 52 then 97 + (v - 26) else if v < 62 then 48 + (v - 52)
    else if v == 62 then 43 else 47
  }

  function Value(b: byte): Option<int> {
    if 65 <= b <= 90 then Some(b - 65)
    else if 97 <= b <= 122 then Some(b - 97 + 26)
    else if 48 <= b <= 57 then Some(b - 48 + 52)
    else if b == 43 then Some(62)
    else if b == 47 then Some(63)
    else None
  }

  function Encode(data: Bytes): Bytes {
    if data == [] then []
    else if |data| == 1 then
      [Symbol(data[0] / 4), Symbol(data[0] % 4 * 16), PAD, PAD]
    else if |data| == 2 then
      [Symbol(data[0] / 4), Symbol(data[0] % 4 * 16 + data[1] / 16), Symbol(data[1] % 16 * 4), PAD]
    else
      [Symbol(data[0] / 4), Symbol(data[0] % 4 * 16 + data[1] / 16),
       Symbol(data[1] % 16 * 4 + data[2] / 64), Symbol(data[2] % 64)] + Encode(data[3..])
  }

  /** DecodeString skips line breaks wherever they stand. */
  function Decode(text: Bytes): Option<Bytes> {
    DecodeGroups(WithoutBreaks(text))
  }

  function WithoutBreaks(text: Bytes): Bytes {
    if text == [] then []
    else (if text[0] == CR || text[0] == LF then [] else [text[0]]) + WithoutBreaks(text[1..])
  }

  /** Groups of four symbols; only the last may be padded, and surplus bits are ignored. */
  function DecodeGroups(s: Bytes): Option<Bytes> {
    if s == [] then Some([])
    else if |s| < 4 then None
    else
      var a, b, c, d := Value(s[0]), Value(s[1]), Value(s[2]), Value(s[3]);
      if a.None? || b.None? then None
      else if s[3] == PAD && |s| == 4 then
        if s[2] == PAD then Some([a.value * 4 + b.value / 16])
        else if c.None? then None
        else Some([a.value * 4 + b.value / 16, b.value % 16 * 16 + c.value / 4])
      else if c.None? || d.None? then None
      else
        var rest := DecodeGroups(s[4..]);
        if rest.None? then None
        else
          var x, y, z := a.value * 4 + b.value / 16, b.value % 16 * 16 + c.value / 4, c.value % 4 * 64 + d.value;
          Some([x, y, z] + rest.value)
  }

  lemma CapitalSymbols(v: int)
    requires 0 <= v < 26
    ensures Symbol(v) == "ABCDEFGHIJKLMNOPQRSTUVWXYZ"[v] as int
  {
  }

  lemma SmallSymbols(v: int)
    requires 0 <= v < 26
    ensures Symbol(v + 26) == "abcdefghijklmnopqrstuvwxyz"[v] as int
  {
  }

  /** The symbols are those of the standard alphabet in its order: capitals, small letters, digits, plus and slash. */
  lemma SymbolsAreAlphabet(v: int)
    requires 0 <= v < 64
    ensures v < 26 ==> Symbol(v) == "ABCDEFGHIJKLMNOPQRSTUVWXYZ"[v] as int
    ensures 26 <= v < 52 ==> Symbol(v) == "abcdefghijklmnopqrstuvwxyz"[v - 26] as int
    ensures 52 <= v < 62 ==> Symbol(v) == "0123456789"[v - 52] as int
    ensures v == 62 ==> Symbol(v) == '+' as int
    ensures v == 63 ==> Symbol(v) == '/' as int
  {
    if v < 26 {
      CapitalSymbols(v);
    } else if v < 52 {
      SmallSymbols(v - 26);
    }
  }

  lemma ValueIff(b: byte, v: int)
    ensures Value(b) == Some(v) <==> 0 <= v < 64 && Symbol(v) == b
  {
  }

  lemma {:induction false} WithoutBreaksConcat(a: Bytes, c: Bytes)
    ensures WithoutBreaks(a + c) == WithoutBreaks(a) + WithoutBreaks(c)
    decreases |a|
  {
    if a == [] {
      assert [] + c == c;
    } else {
      assert (a + c)[1..] == a[1..] + c;
      WithoutBreaksConcat(a[1..], c);
    }
  }

  /** Line breaks are skipped wherever they stand, and nothing else is. */
  lemma BreaksAreSkipped(a: Bytes, b: byte, c: Bytes)
    ensures WithoutBreaks(a + ([b] + c)) ==
            if b == CR || b == LF then WithoutBreaks(a + c) else WithoutBreaks(a) + ([b] + WithoutBreaks(c))
  {
    WithoutBreaksConcat(a, [b] + c);
    WithoutBreaksConcat(a, c);
    assert ([b] + c)[1..] == c;
  }

  predicate IsSymbol(b: byte) {
    Value(b).Some? || b == PAD
  }

  lemma SymbolValue(v: int)
    requires 0 <= v < 64
    ensures Value(Symbol(v)) == Some(v) && Symbol(v) != PAD
  {
  }

  /** The three bytes of a group survive the trip through four symbols. */
  lemma GroupRoundTrip(x: byte, y: byte, z: byte)
    ensures var a, b, c, d := x / 4, x % 4 * 16 + y / 16, y % 16 * 4 + z / 64, z % 64;
            && 0 <= a < 64 && 0 <= b < 64 && 0 <= c < 64 && 0 <= d < 64
            && a * 4 + b / 16 == x && b % 16 * 16 + c / 4 == y && c % 4 * 64 + d == z
  {
  }

  lemma OneByte(x: byte)
    ensures Encode([x]) == [Symbol(x / 4), Symbol(x % 4 * 16), PAD, PAD]
    ensures DecodeGroups(Encode([x])) == Some([x])
  {
    SymbolValue(x / 4);
  }

  lemma TwoBytes(x: byte, y: byte)
    ensures DecodeGroups([Symbol(x / 4), Symbol(x % 4 * 16 + y / 16), Symbol(y % 16 * 4), PAD]) == Some([x, y])
  {
    GroupRoundTrip(x, y, 0);
    SymbolValue(x / 4);
    SymbolValue(x % 4 * 16 + y / 16);
    SymbolValue(y % 16 * 4);
  }

  /** Four symbols in front of a text that decodes. */
  lemma GroupInFront(a: int, b: int, c: int, d: int, more: Bytes, rest: Bytes)
    requires 0 <= a < 64 && 0 <= b < 64 && 0 <= c < 64 && 0 <= d < 64
    requires DecodeGroups(more) == Some(rest)
    ensures DecodeGroups([Symbol(a), Symbol(b), Symbol(c), Symbol(d)] + more)
            == Some([a * 4 + b / 16, b % 16 * 16 + c / 4, c % 4 * 64 + d] + rest)
  {
    var s := [Symbol(a), Symbol(b), Symbol(c), Symbol(d)] + more;
    SymbolValue(a);
    SymbolValue(b);
    SymbolValue(c);
    SymbolValue(d);
    assert s[0] == Symbol(a) && s[1] == Symbol(b) && s[2] == Symbol(c) && s[3] == Symbol(d);
    assert s[4..] == more;
  }

  lemma EncodeThree(x: byte, y: byte, z: byte, data: Bytes)
    ensures Encode([x, y, z] + data) ==
            [Symbol(x / 4), Symbol(x % 4 * 16 + y / 16), Symbol(y % 16 * 4 + z / 64), Symbol(z % 64)] + Encode(data)
  {
    var all := [x, y, z] + data;
    assert all[0] == x && all[1] == y && all[2] == z && all[3..] == data;
  }

  lemma ThreeBytes(x: byte, y: byte, z: byte, data: Bytes)
    requires DecodeGroups(Encode(data)) == Some(data)
    ensures DecodeGroups(Encode([x, y, z] + data)) == Some([x, y, z] + data)
  {
    EncodeThree(x, y, z, data);
    GroupRoundTrip(x, y, z);
    GroupInFront(x / 4, x % 4 * 16 + y / 16, y % 16 * 4 + z / 64, z % 64, Encode(data), data);
  }

  lemma {:induction false} GroupsRoundTrip(data: Bytes)
    ensures DecodeGroups(Encode(data)) == Some(data)
    decreases |data|
  {
    if |data| == 1 {
      OneByte(data[0]);
      assert data == [data[0]];
    } else if |data| == 2 {
      TwoBytes(data[0], data[1]);
      assert data == [data[0], data[1]];
    } else if |data| >= 3 {
      GroupsRoundTrip(data[3..]);
      ThreeBytes(data[0], data[1], data[2], data[3..]);
      assert data == [data[0], data[1], data[2]] + data[3..];
    }
  }

  predicate AllSymbols(s: Bytes) {
    forall i :: 0 <= i < |s| ==> IsSymbol(s[i])
  }

  lemma {:induction false} EncodedIsSymbols(data: Bytes)
    ensures AllSymbols(Encode(data))
    decreases |data|
  {
    if |data| >= 3 {
      EncodedIsSymbols(data[3..]);
    }
  }

  lemma {:induction false} NoBreaks(s: Bytes)
    requires AllSymbols(s)
    ensures WithoutBreaks(s) == s
  {
    if s != [] {
      NoBreaks(s[1..]);
    }
  }

  lemma RoundTrip(data: Bytes)
    ensures Decode(Encode(data)) == Some(data)
  {
    GroupsRoundTrip(data);
    EncodedIsSymbols(data);
    NoBreaks(Encode(data));
  }

  /** Encoded text holds no white space, so trimming leaves it alone. */
  lemma TrimKeepsEncoded(data: Bytes)
    ensures TrimSpace(Encode(data)) == Encode(data)
  {
    EncodedIsSymbols(data);
    TrimKeepsSymbols(Encode(data));
  }

  lemma TrimKeepsSymbols(s: Bytes)
    requires AllSymbols(s)
    ensures TrimSpace(s) == s
  {
  }
}
