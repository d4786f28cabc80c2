/**
 Go strings and byte slices as sequences of bytes, and the string functions of the Go library the proxy
 relies on, byte for byte (white space is unicode.IsSpace over UTF-8).
 */
module GoBytes {
  import opened Options

  type byte = x: int | 0 <= x < 256

  type Bytes = seq<byte>

  const LF: byte := 10
  const CR: byte := 13
  const SPACE: byte := 32
  const COLON: byte := 58

  /** The bytes of an ASCII literal. */
  function Ascii(s: string): Bytes {
    seq(|s|, i requires 0 <= i < |s| => if s[i] < '\U{0080}' then s[i] as int else 63)
  }

  /** The first position of b, or the length when it does not occur. */
  function Index(s: Bytes, b: byte): (i: nat)
    ensures i <= |s|
    ensures i < |s| ==> s[i] == b
    ensures forall j :: 0 <= j < i ==> s[j] != b
  {
    if s == [] || s[0] == b then 0 else 1 + Index(s[1..], b)
  }

  lemma IndexAfter(x: Bytes, rest: Bytes, b: byte)
    requires b !in x && rest != [] && rest[0] == b
    ensures Index(x + rest, b) == |x| && (x + rest)[..|x|] == x && (x + rest)[|x|..] == rest
  {
    assert (x + rest)[|x|] == b;
  }

  // ---------------------------------------------------------------- white space

  predicate IsWideSpace(a: byte, b: byte, c: byte) {
    || (a == 0xE1 && b == 0x9A && c == 0x80)
    || (a == 0xE2 && b == 0x80 && (0x80 <= c <= 0x8A || c == 0xA8 || c == 0xA9 || c == 0xAF))
    || (a == 0xE2 && b == 0x81 && c == 0x9F)
    || (a == 0xE3 && b == 0x80 && c == 0x80)
  }

  /** The length of the white-space character s starts with, or 0. */
  function SpaceAtStart(s: Bytes): (n: nat)
    ensures n <= |s|
  {
    if |s| >= 1 && (9 <= s[0] <= 13 || s[0] == SPACE) then 1
    else if |s| >= 2 && s[0] == 0xC2 && (s[1] == 0x85 || s[1] == 0xA0) then 2
    else if |s| >= 3 && IsWideSpace(s[0], s[1], s[2]) then 3
    else 0
  }

  function SpaceAtEnd(s: Bytes): (n: nat)
    ensures n <= |s|
  {
    var k := |s|;
    if k >= 1 && (9 <= s[k - 1] <= 13 || s[k - 1] == SPACE) then 1
    else if k >= 2 && s[k - 2] == 0xC2 && (s[k - 1] == 0x85 || s[k - 1] == 0xA0) then 2
    else if k >= 3 && IsWideSpace(s[k - 3], s[k - 2], s[k - 1]) then 3
    else 0
  }

  /** The white-space characters of Unicode. */
  predicate IsSpacePoint(c: int) {
    || 9 <= c <= 13 || c == 0x20 || c == 0x85 || c == 0xA0 || c == 0x1680 || 0x2000 <= c <= 0x200A
    || c == 0x2028 || c == 0x2029 || c == 0x202F || c == 0x205F || c == 0x3000
  }

  /** The UTF-8 form of a character (section 3 of RFC 3629), up to three bytes. */
  function Utf8(c: int): Bytes
    requires 0 <= c < 0x1_0000
  {
    if c < 0x80 then [c]
    else if c < 0x800 then [0xC0 + c / 64, 0x80 + c % 64]
    else [0xE0 + c / 4096, 0x80 + c / 64 % 64, 0x80 + c % 64]
  }

  /** The bytes of one white-space character. */
  predicate IsSpaceForm(u: Bytes) {
    || (|u| == 1 && (9 <= u[0] <= 13 || u[0] == SPACE))
    || (|u| == 2 && u[0] == 0xC2 && (u[1] == 0x85 || u[1] == 0xA0))
    || (|u| == 3 && IsWideSpace(u[0], u[1], u[2]))
  }

  function CharOf(u: Bytes): int {
    var at := (i: int) => if 0 <= i < |u| then u[i] as int else 0;
    if |u| == 1 then at(0)
    else if |u| == 2 then at(0) * 64 + at(1) - 0x3080
    else at(0) * 4096 + at(1) * 64 + at(2) - 0xE2080
  }

  lemma SpacePointBytes(c: int)
    requires IsSpacePoint(c)
    ensures IsSpaceForm(Utf8(c))
  {
  }

  lemma WideSpaceChar(a: byte, b: byte, c: byte)
    requires IsWideSpace(a, b, c)
    ensures IsSpacePoint(CharOf([a, b, c])) && Utf8(CharOf([a, b, c])) == [a, b, c]
  {
    var n: int := a;
    var m: int := b;
    assert CharOf([a, b, c]) == n * 4096 + m * 64 + c - 0xE2080;
  }

  lemma SpaceFormChar(u: Bytes)
    requires IsSpaceForm(u)
    ensures IsSpacePoint(CharOf(u)) && Utf8(CharOf(u)) == u
  {
    if |u| == 3 {
      WideSpaceChar(u[0], u[1], u[2]);
      assert u == [u[0], u[1], u[2]];
    } else if |u| == 2 {
      assert u == [u[0], u[1]];
    } else {
      assert u == [u[0]];
    }
  }

  /** These are the UTF-8 forms of the white-space characters. */
  lemma SpaceFormIff(u: Bytes)
    ensures IsSpaceForm(u) <==> exists c :: IsSpacePoint(c) && Utf8(c) == u
  {
    if IsSpaceForm(u) {
      SpaceFormChar(u);
      assert Utf8(CharOf(u)) == u;
    }
    if c :| IsSpacePoint(c) && Utf8(c) == u {
      SpacePointBytes(c);
    }
  }

  /** No space form ends another one. */
  lemma SpaceFormsDiffer(u: Bytes, v: Bytes)
    requires IsSpaceForm(u) && IsSpaceForm(v) && |u| < |v|
    ensures v[|v| - |u|] != u[0]
  {
  }

  lemma SpaceAtEndFound(s: Bytes)
    requires SpaceAtEnd(s) > 0
    ensures IsSpaceForm(s[|s| - SpaceAtEnd(s)..])
  {
    var k, n := |s|, SpaceAtEnd(s);
    var u := s[k - n..];
    assert u[n - 1] == s[k - 1] && (n >= 2 ==> u[n - 2] == s[k - 2]) && (n >= 3 ==> u[n - 3] == s[k - 3]);
  }

  lemma SpaceAtEndThere(s: Bytes, n: nat)
    requires n <= |s| && IsSpaceForm(s[|s| - n..])
    ensures SpaceAtEnd(s) > 0
  {
    var k := |s|;
    var u := s[k - n..];
    assert u[n - 1] == s[k - 1] && (n >= 2 ==> u[n - 2] == s[k - 2]) && (n >= 3 ==> u[n - 3] == s[k - 3]);
  }

  /** White space at the start or the end of a text is one of them. */
  lemma SpaceAtStartIff(s: Bytes, n: nat)
    requires n > 0
    ensures SpaceAtStart(s) == n <==> n <= |s| && |s[..n]| == n && IsSpaceForm(s[..n])
  {
  }

  lemma SpaceAtEndIff(s: Bytes, n: nat)
    requires n > 0
    ensures SpaceAtEnd(s) == n <==> n <= |s| && IsSpaceForm(s[|s| - n..])
  {
    var m := SpaceAtEnd(s);
    if m > 0 {
      SpaceAtEndFound(s);
    }
    if n <= |s| && IsSpaceForm(s[|s| - n..]) {
      SpaceAtEndThere(s, n);
      var u, v := s[|s| - n..], s[|s| - m..];
      if n < m {
        SpaceFormsDiffer(u, v);
      } else if m < n {
        SpaceFormsDiffer(v, u);
      }
    }
  }

  /** strings.TrimSpace */
  function TrimSpace(s: Bytes): Bytes {
    TrimEnd(TrimStart(s))
  }

  function TrimStart(s: Bytes): Bytes {
    if SpaceAtStart(s) > 0 then TrimStart(s[SpaceAtStart(s)..]) else s
  }

  function TrimEnd(s: Bytes): Bytes {
    if SpaceAtEnd(s) > 0 then TrimEnd(s[..|s| - SpaceAtEnd(s)]) else s
  }

  /** TrimSpace takes white space off both ends, and nothing else. */
  lemma TrimSpaceMeans(s: Bytes) returns (k: nat, m: nat)
    ensures k <= m <= |s| && TrimSpace(s) == s[k..m]
    ensures SpaceAtStart(s[k..]) == 0 && SpaceAtEnd(s[k..m]) == 0
    ensures Spaces(s[..k]) && SpacesAtEnd(s[m..])
  {
    k := TrimStartMeans(s);
    m := TrimEndMeans(s[k..]);
    assert s[k..][..m] == s[k..k + m] && s[k..][m..] == s[k + m..];
    m := k + m;
  }

  /** strings.Fields */
  function Fields(s: Bytes): seq<Bytes>
    decreases |s|
  {
    if s == [] then []
    else if SpaceAtStart(s) > 0 then Fields(s[SpaceAtStart(s)..])
    else [s[..WordLength(s)]] + Fields(s[WordLength(s)..])
  }

  function WordLength(s: Bytes): (n: nat)
    ensures n <= |s|
    ensures s != [] && SpaceAtStart(s) == 0 ==> n > 0
  {
    if s == [] || SpaceAtStart(s) > 0 then 0 else 1 + WordLength(s[1..])
  }

  // ---------------------------------------------------------------- what Fields finds

  /** Nothing but white space. */
  predicate Spaces(s: Bytes) {
    s == [] || (SpaceAtStart(s) > 0 && Spaces(s[SpaceAtStart(s)..]))
  }

  /** s starts with a word of n bytes: no white space starts in it, and it ends there. */
  predicate StartsWithWord(s: Bytes, n: nat) {
    && 0 < n <= |s|
    && (forall i :: 0 <= i < n ==> SpaceAtStart(s[i..]) == 0)
    && (n == |s| || SpaceAtStart(s[n..]) > 0)
  }

  lemma {:induction false} WordLengthIs(s: Bytes, n: nat)
    requires StartsWithWord(s, n)
    ensures WordLength(s) == n
    decreases n
  {
    assert s[0..] == s;
    if n > 1 {
      forall i | 0 <= i < n - 1 ensures SpaceAtStart(s[1..][i..]) == 0 {
        assert s[1..][i..] == s[i + 1..];
      }
      assert s[1..][n - 1..] == s[n..];
      WordLengthIs(s[1..], n - 1);
    }
  }

  lemma {:induction false} WordLengthMeans(s: Bytes)
    requires s != [] && SpaceAtStart(s) == 0
    ensures StartsWithWord(s, WordLength(s))
    decreases |s|
  {
    var n, tail := WordLength(s), s[1..];
    assert s[0..] == s;
    if n > 1 {
      assert n == 1 + WordLength(tail) && tail != [] && SpaceAtStart(tail) == 0;
      WordLengthMeans(tail);
      forall i | 1 <= i < n ensures SpaceAtStart(s[i..]) == 0 {
        assert tail[i - 1..] == s[i..];
      }
      assert tail[n - 1..] == s[n..];
    }
  }

  lemma SpaceStays(s: Bytes, k: nat)
    requires k <= |s| && SpaceAtStart(s[..k]) > 0
    ensures SpaceAtStart(s) == SpaceAtStart(s[..k])
  {
  }

  lemma {:induction false} SkipSpaces(s: Bytes, k: nat)
    requires k <= |s| && Spaces(s[..k])
    ensures Fields(s) == Fields(s[k..])
    decreases k
  {
    if k == 0 {
      assert s[0..] == s;
    } else {
      SpaceStays(s, k);
      var n := SpaceAtStart(s);
      assert s[n..][..k - n] == s[..k][n..] && s[n..][k - n..] == s[k..];
      SkipSpaces(s[n..], k - n);
    }
  }

  /** The first word of s has n bytes, after k bytes of white space. */
  predicate FirstWordAt(s: Bytes, k: nat, n: nat) {
    k <= |s| && Spaces(s[..k]) && StartsWithWord(s[k..], n)
  }

  predicate SpacesAtEnd(s: Bytes) {
    s == [] || (SpaceAtEnd(s) > 0 && SpacesAtEnd(s[..|s| - SpaceAtEnd(s)]))
  }

  lemma {:induction false} TrimStartMeans(s: Bytes) returns (k: nat)
    ensures k <= |s| && TrimStart(s) == s[k..] && SpaceAtStart(s[k..]) == 0 && Spaces(s[..k])
    decreases |s|
  {
    var n := SpaceAtStart(s);
    if n > 0 {
      k := TrimStartMeans(s[n..]);
      assert s[n..][k..] == s[n + k..];
      SpacesInFront(s, k);
      k := n + k;
    } else {
      k := 0;
      assert s[0..] == s;
    }
  }

  lemma SpaceInSuffix(s: Bytes, m: nat)
    requires SpaceAtEnd(s) > 0 && m <= |s| - SpaceAtEnd(s)
    ensures SpaceAtEnd(s[m..]) == SpaceAtEnd(s)
  {
    assert forall i :: m <= i < |s| ==> s[m..][i - m] == s[i];
  }

  lemma {:induction false} TrimEndMeans(s: Bytes) returns (m: nat)
    ensures m <= |s| && TrimEnd(s) == s[..m] && SpaceAtEnd(s[..m]) == 0 && SpacesAtEnd(s[m..])
    decreases |s|
  {
    var n := SpaceAtEnd(s);
    if n > 0 {
      var rest := s[..|s| - n];
      m := TrimEndMeans(rest);
      assert rest[..m] == s[..m];
      SpaceInSuffix(s, m);
      assert s[m..][..|s| - m - n] == rest[m..];
    } else {
      m := |s|;
      assert s[..m] == s;
    }
  }

  lemma FieldsOfWord(s: Bytes, n: nat)
    requires StartsWithWord(s, n)
    ensures Fields(s) == [s[..n]] + Fields(s[n..])
  {
    WordLengthIs(s, n);
    assert s[0..] == s;
  }

  lemma FieldsAtWord(s: Bytes, k: nat, n: nat)
    requires FirstWordAt(s, k, n)
    ensures Fields(s) == [s[k..k + n]] + Fields(s[k + n..])
  {
    SkipSpaces(s, k);
    FieldsOfWord(s[k..], n);
    assert s[k..][..n] == s[k..k + n] && s[k..][n..] == s[k + n..];
  }

  /** The first word as above, and the second one with o bytes, m bytes after the first. */
  predicate FirstWordsAt(s: Bytes, k: nat, n: nat, m: nat, o: nat) {
    FirstWordAt(s, k, n) && FirstWordAt(s[k + n..], m, o)
  }

  lemma FieldsAtWords(s: Bytes, k: nat, n: nat, m: nat, o: nat)
    requires FirstWordsAt(s, k, n, m, o)
    ensures |Fields(s)| >= 2 && Fields(s)[0] == s[k..k + n] && Fields(s)[1] == s[k + n..][m..m + o]
  {
    FieldsAtWord(s, k, n);
    FieldsAtWord(s[k + n..], m, o);
  }

  lemma SpaceInPrefix(s: Bytes, m: nat)
    requires SpaceAtStart(s) <= m <= |s|
    requires SpaceAtStart(s) > 0
    ensures SpaceAtStart(s[..m]) == SpaceAtStart(s)
  {
    assert forall i :: 0 <= i < m ==> s[..m][i] == s[i];
  }

  lemma SpacesInFront(s: Bytes, k: nat)
    requires SpaceAtStart(s) > 0 && k <= |s| - SpaceAtStart(s) && Spaces(s[SpaceAtStart(s)..][..k])
    ensures Spaces(s[..SpaceAtStart(s) + k])
  {
    var n := SpaceAtStart(s);
    assert s[..n + k][n..] == s[n..][..k];
    SpaceInPrefix(s, n + k);
  }

  lemma {:induction false} FindFirstWord(s: Bytes) returns (k: nat, n: nat)
    requires Fields(s) != []
    ensures FirstWordAt(s, k, n)
    decreases |s|
  {
    if SpaceAtStart(s) > 0 {
      var space := SpaceAtStart(s);
      k, n := FindFirstWord(s[space..]);
      SpacesInFront(s, k);
      assert s[space..][k..] == s[space + k..];
      k := space + k;
    } else {
      k, n := 0, WordLength(s);
      WordLengthMeans(s);
      assert s[0..] == s;
    }
  }

  lemma FindFirstWords(s: Bytes) returns (k: nat, n: nat, m: nat, o: nat)
    requires |Fields(s)| >= 2
    ensures FirstWordsAt(s, k, n, m, o)
  {
    k, n := FindFirstWord(s);
    FieldsAtWord(s, k, n);
    m, o := FindFirstWord(s[k + n..]);
  }

  // ---------------------------------------------------------------- numbers

  predicate IsDigit(b: byte) { 48 <= b <= 57 }

  function Digits(s: Bytes): Option<nat> {
    if s == [] then Some(0)
    else
      var rest := Digits(s[..|s| - 1]);
      if rest.None? || !IsDigit(s[|s| - 1]) then None else Some(10 * rest.value + (s[|s| - 1] - 48))
  }

  /** strconv.Atoi, without its range error: callers accept only small numbers anyway. */
  function Atoi(s: Bytes): Option<int> {
    var signed := s != [] && (s[0] == 43 || s[0] == 45);
    var digits := if signed then s[1..] else s;
    if digits == [] then None
    else
      var n := Digits(digits);
      if n.None? then None
      else if signed && s[0] == 45 then Some(-1 * n.value)
      else Some(n.value)
  }

  /** The verb %d for a number that is not negative. */
  function Decimal(n: nat): (s: Bytes)
    ensures s != [] && forall i :: 0 <= i < |s| ==> IsDigit(s[i])
  {
    if n < 10 then [48 + n] else Decimal(n / 10) + [48 + n % 10]
  }

  lemma {:induction false} DigitsOfDecimal(n: nat)
    ensures Digits(Decimal(n)) == Some(n)
  {
    if n < 10 {
      assert Digits([]) == Some(0) && [48 + n][..0] == [];
    } else {
      DigitsOfDecimal(n / 10);
      assert Decimal(n)[..|Decimal(n)| - 1] == Decimal(n / 10);
    }
  }

  /** A printed number reads back. */
  lemma DecimalReadsBack(n: nat)
    ensures Atoi(Decimal(n)) == Some(n)
  {
    DigitsOfDecimal(n);
  }

  // ---------------------------------------------------------------- what Atoi reads

  predicate AllDigits(s: Bytes) {
    forall i :: 0 <= i < |s| ==> IsDigit(s[i])
  }

  function PowerOfTen(n: nat): nat {
    if n == 0 then 1 else 10 * PowerOfTen(n - 1)
  }

  /** The value of a decimal number by the place of its digits. */
  function PlaceValue(s: Bytes): int {
    if s == [] then 0 else (s[0] - 48) * PowerOfTen(|s| - 1) + PlaceValue(s[1..])
  }

  lemma {:induction false} PlaceValueAppend(s: Bytes, b: byte)
    ensures PlaceValue(s + [b]) == 10 * PlaceValue(s) + (b - 48)
  {
    if s == [] {
      assert [b][1..] == [] && PowerOfTen(0) == 1;
    } else {
      assert (s + [b])[1..] == s[1..] + [b];
      PlaceValueAppend(s[1..], b);
      assert PowerOfTen(|s|) == 10 * PowerOfTen(|s| - 1);
      assert (s[0] - 48) * (10 * PowerOfTen(|s| - 1)) == 10 * ((s[0] - 48) * PowerOfTen(|s| - 1));
    }
  }

  lemma {:induction false} DigitsByPlace(s: Bytes)
    ensures Digits(s).Some? <==> AllDigits(s)
    ensures AllDigits(s) ==> Digits(s).value == PlaceValue(s)
    decreases |s|
  {
    if s != [] {
      var p, b := s[..|s| - 1], s[|s| - 1];
      DigitsByPlace(p);
      PlaceValueAppend(p, b);
      assert s == p + [b];
      assert AllDigits(s) <==> AllDigits(p) && IsDigit(b);
    }
  }

  /** A number is an optional sign and at least one digit; its value is that of the digits by their place. */
  lemma AtoiReads(s: Bytes)
    ensures var signed := s != [] && (s[0] == 43 || s[0] == 45);
            var digits := if signed then s[1..] else s;
            && (Atoi(s).Some? <==> digits != [] && AllDigits(digits))
            && (Atoi(s).Some? ==>
                  Atoi(s).value == if signed && s[0] == 45 then -PlaceValue(digits) else PlaceValue(digits))
  {
    DigitsByPlace(if s != [] && (s[0] == 43 || s[0] == 45) then s[1..] else s);
  }
}
