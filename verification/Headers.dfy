/**
 Header rewriting of internal/proxy/server.go and internal/proxy/headers.go: hop-by-hop and privacy
 headers, and the Via chain. Header fields are a map from names to value lists, as in http.Header.
 */
module Headers {
  import opened Options
  import opened GoBytes

  type Fields = map<Bytes, seq<Bytes>>

  const COMMA: byte := 44
  const DASH: byte := 45

  // ---------------------------------------------------------------- http.Header

  predicate IsUpper(b: byte) { 65 <= b <= 90 }

  predicate IsLowerLetter(b: byte) { 97 <= b <= 122 }

  function ToLower(b: byte): byte { if IsUpper(b) then b + 32 else b }

  function ToUpper(b: byte): byte { if IsLowerLetter(b) then b - 32 else b }

  function Lower(s: Bytes): Bytes {
    seq(|s|, i requires 0 <= i < |s| => ToLower(s[i]))
  }

  /** The bytes a header name may consist of. */
  predicate IsTokenByte(b: byte) {
    IsUpper(b) || IsLowerLetter(b) || IsDigit(b) || b == 33 || 35 <= b <= 39 || b == 42 || b == 43 || b == DASH
    || b == 46 || b == 94 || b == 95 || b == 96 || b == 124 || b == 126
  }

  predicate IsToken(s: Bytes) {
    forall i :: 0 <= i < |s| ==> IsTokenByte(s[i])
  }

  /** textproto.CanonicalMIMEHeaderKey */
  function Canon(s: Bytes): Bytes {
    if !IsToken(s) then s
    else seq(|s|, i requires 0 <= i < |s| => if i == 0 || s[i - 1] == DASH then ToUpper(s[i]) else ToLower(s[i]))
  }

  function ValuesOf(h: Fields, name: Bytes): seq<Bytes> {
    if Canon(name) in h then h[Canon(name)] else []
  }

  function Added(h: Fields, name: Bytes, value: Bytes): Fields {
    h[Canon(name) := ValuesOf(h, name) + [value]]
  }

  /** An http.Header, updated in place. */
  class Header {
    var fields: Fields

    constructor (fields: Fields)
      ensures this.fields == fields
    {
      this.fields := fields;
    }

    method Del(name: Bytes)
      modifies this
      ensures fields == old(fields) - {Canon(name)}
    {
      fields := fields - {Canon(name)};
    }

    method Add(name: Bytes, value: Bytes)
      modifies this
      ensures fields == Added(old(fields), name, value)
    {
      var key := Canon(name);
      fields := fields[key := (if key in fields then fields[key] else []) + [value]];
    }
  }

  // ---------------------------------------------------------------- hop-by-hop headers

  const CONNECTION: Bytes := Ascii("Connection")

  const HOP_BY_HOP: seq<Bytes> := [
    CONNECTION, Ascii("Keep-Alive"), Ascii("Proxy-Authenticate"), Ascii("Proxy-Authorization"),
    Ascii("Proxy-Connection"), Ascii("TE"), Ascii("Trailer"), Ascii("Transfer-Encoding"), Ascii("Upgrade")
  ]

  /** strings.Split(value, ",") */
  function Split(value: Bytes): seq<Bytes> {
    var i := Index(value, COMMA);
    if i == |value| then [value] else [value[..i]] + Split(value[i + 1..])
  }

  /** The field that an element of a Connection list names, if it is not blank. */
  function FieldNamed(part: Bytes): Option<Bytes> {
    if TrimSpace(part) == [] then None else Some(Canon(TrimSpace(part)))
  }

  predicate NamedBy(parts: seq<Bytes>, key: Bytes) {
    exists i :: 0 <= i < |parts| && FieldNamed(parts[i]) == Some(key)
  }

  /** Some Connection value lists the field. */
  predicate Listed(values: seq<Bytes>, key: Bytes) {
    exists i :: 0 <= i < |values| && NamedBy(Split(values[i]), key)
  }

  predicate AmongNames(names: seq<Bytes>, key: Bytes) {
    exists i :: 0 <= i < |names| && Canon(names[i]) == key
  }

  predicate IsHopByHop(key: Bytes) {
    AmongNames(HOP_BY_HOP, key)
  }

  /** What may be forwarded: everything that is neither hop-by-hop by nature nor by the original Connection
      header. */
  function EndToEnd(h: Fields): Fields {
    map k | k in h && !IsHopByHop(k) && !Listed(ValuesOf(h, CONNECTION), k) :: h[k]
  }

  method RemoveListed(header: Header, parts: seq<Bytes>)
    modifies header
    ensures header.fields == map k | k in old(header.fields) && !NamedBy(parts, k) :: old(header.fields)[k]
  {
    for i := 0 to |parts|
      invariant header.fields == map k | k in old(header.fields) && !NamedBy(parts[..i], k) :: old(header.fields)[k]
    {
      var name := TrimSpace(parts[i]);
      NamedByAppend(parts, i);
      if name != [] {
        header.Del(name);
      }
    }
    assert parts[..|parts|] == parts;
  }

  lemma NamedByAppend(parts: seq<Bytes>, i: nat)
    requires i < |parts|
    ensures forall k :: NamedBy(parts[..i + 1], k) <==> NamedBy(parts[..i], k) || FieldNamed(parts[i]) == Some(k)
  {
    var longer := parts[..i + 1];
    forall k ensures NamedBy(longer, k) <==> NamedBy(parts[..i], k) || FieldNamed(parts[i]) == Some(k) {
      assert longer[i] == parts[i] && forall j :: 0 <= j < i ==> longer[j] == parts[..i][j];
    }
  }

  lemma ListedAppend(values: seq<Bytes>, i: nat)
    requires i < |values|
    ensures forall k :: Listed(values[..i + 1], k) <==> Listed(values[..i], k) || NamedBy(Split(values[i]), k)
  {
    assert values[..i + 1] == values[..i] + [values[i]];
  }

  /** The loop ranges over the Connection values it found at the start, even after it deleted that field. */
  method RemoveHopByHopHeaders(header: Header)
    modifies header
    ensures header.fields == EndToEnd(old(header.fields))
  {
    var values := if Canon(CONNECTION) in header.fields then header.fields[Canon(CONNECTION)] else [];
    for i := 0 to |values|
      invariant header.fields == map k | k in old(header.fields) && !Listed(values[..i], k) :: old(header.fields)[k]
    {
      ListedAppend(values, i);
      RemoveListed(header, Split(values[i]));
    }
    assert values[..|values|] == values;
    RemoveNames(header, HOP_BY_HOP);
  }

  method RemoveNames(header: Header, names: seq<Bytes>)
    modifies header
    ensures header.fields == map k | k in old(header.fields) && !AmongNames(names, k) :: old(header.fields)[k]
  {
    for i := 0 to |names|
      invariant header.fields == map k | k in old(header.fields) && !AmongNames(names[..i], k) :: old(header.fields)[k]
    {
      AmongAppend(names, i);
      header.Del(names[i]);
    }
    assert names[..|names|] == names;
  }

  lemma AmongAppend(names: seq<Bytes>, i: nat)
    requires i < |names|
    ensures forall k :: AmongNames(names[..i + 1], k) <==> AmongNames(names[..i], k) || Canon(names[i]) == k
  {
    assert names[..i + 1] == names[..i] + [names[i]];
  }

  lemma ViaIsNotHopByHop()
    ensures !IsHopByHop(Canon(VIA))
  {
    assert |Canon(VIA)| == 3;
    forall i | 0 <= i < |HOP_BY_HOP| ensures Canon(HOP_BY_HOP[i]) != Canon(VIA) {
      assert |HOP_BY_HOP[i]| != 3;
    }
  }

  /** Filtering twice changes nothing: the first pass already removed the Connection field. */
  lemma EndToEndIdempotent(h: Fields)
    ensures EndToEnd(EndToEnd(h)) == EndToEnd(h)
  {
    assert HOP_BY_HOP[0] == CONNECTION;
    assert Canon(CONNECTION) !in EndToEnd(h);
  }

  // ---------------------------------------------------------------- names in any letter case

  lemma LowerOfCanon(s: Bytes)
    ensures Lower(Canon(s)) == Lower(s)
  {
  }

  lemma DashesAgree(a: Bytes, b: Bytes, i: nat)
    requires Lower(a) == Lower(b) && i < |a|
    ensures |a| == |b| && (a[i] == DASH <==> b[i] == DASH)
    ensures ToUpper(a[i]) == ToUpper(b[i]) && ToLower(a[i]) == ToLower(b[i])
    ensures IsTokenByte(a[i]) <==> IsTokenByte(b[i])
  {
    assert |Lower(a)| == |a| && |Lower(b)| == |b| && Lower(a)[i] == ToLower(a[i]) && Lower(b)[i] == ToLower(b[i]);
  }

  /** The canonical form of a name does not depend on its letter case. */
  lemma CanonIgnoresCase(a: Bytes, b: Bytes)
    requires Lower(a) == Lower(b) && IsToken(b)
    ensures Canon(a) == Canon(b)
  {
    assert |Lower(a)| == |a| && |Lower(b)| == |b|;
    forall i | 0 <= i < |a|
      ensures IsTokenByte(a[i]) && ToUpper(a[i]) == ToUpper(b[i]) && ToLower(a[i]) == ToLower(b[i])
      ensures a[i] == DASH <==> b[i] == DASH
    {
      DashesAgree(a, b, i);
    }
  }

  /** The bytes of a token (section 5.6.2 of RFC 9110): letters, digits and some signs. */
  lemma TokenBytes(b: byte)
    ensures IsTokenByte(b) <==>
            || 65 <= b <= 90 || 97 <= b <= 122 || 48 <= b <= 57
            || b in Ascii("!#$%&'*+-.^_`|~")
  {
    var signs := Ascii("!#$%&'*+-.^_`|~");
    assert signs == [33, 35, 36, 37, 38, 39, 42, 43, 45, 46, 94, 95, 96, 124, 126];
  }

  /** In the canonical form of a token each part between dashes starts with a capital and goes on in lower case; other
      names are left as they are. */
  lemma CanonForm(s: Bytes)
    ensures !IsToken(s) ==> Canon(s) == s
    ensures IsToken(s) ==>
              && |Canon(s)| == |s| && Lower(Canon(s)) == Lower(s)
              && forall i :: 0 <= i < |s| ==>
                   if i == 0 || s[i - 1] == DASH then !IsLowerLetter(Canon(s)[i]) else !IsUpper(Canon(s)[i])
  {
    LowerOfCanon(s);
  }

  /** Adding a value changes the field of that name, in any letter case, and no other. */
  lemma AddedValues(h: Fields, a: Bytes, b: Bytes, value: Bytes)
    ensures Canon(a) == Canon(b) ==> ValuesOf(Added(h, a, value), b) == ValuesOf(h, b) + [value]
    ensures Canon(a) != Canon(b) ==> ValuesOf(Added(h, a, value), b) == ValuesOf(h, b)
  {
  }

  predicate HasName(entries: seq<Bytes>, key: Bytes) {
    exists i :: 0 <= i < |entries| && entries[i] != [] && Canon(entries[i]) == key
  }

  lemma HasNameConcat(a: seq<Bytes>, b: seq<Bytes>, key: Bytes)
    ensures HasName(a + b, key) <==> HasName(a, key) || HasName(b, key)
  {
    if i :| 0 <= i < |b| && b[i] != [] && Canon(b[i]) == key {
      assert (a + b)[|a| + i] == b[i];
    }
    if i :| 0 <= i < |a| && a[i] != [] && Canon(a[i]) == key {
      assert (a + b)[i] == a[i];
    }
  }

  lemma NamedByEntries(value: Bytes, key: Bytes)
    ensures NamedBy(Split(value), key) <==> HasName(Entries(value), key)
  {
    var parts, entries := Split(value), Entries(value);
    assert |entries| == |parts| && forall i :: 0 <= i < |parts| ==> entries[i] == TrimSpace(parts[i]);
  }

  lemma ListedFirst(values: seq<Bytes>, key: Bytes)
    requires values != []
    ensures Listed(values, key) <==> NamedBy(Split(values[0]), key) || Listed(values[1..], key)
  {
    if i :| 0 <= i < |values[1..]| && NamedBy(Split(values[1..][i]), key) {
      assert values[i + 1] == values[1..][i];
    }
    if i :| 0 < i < |values| && NamedBy(Split(values[i]), key) {
      assert values[1..][i - 1] == values[i];
    }
  }

  /** The Connection values list a field exactly if one of their entries, not a blank one, is its name. */
  lemma {:induction false} ListedIff(values: seq<Bytes>, key: Bytes)
    ensures Listed(values, key) <==> HasName(AllEntries(values), key)
  {
    if values != [] {
      ListedFirst(values, key);
      NamedByEntries(values[0], key);
      ListedIff(values[1..], key);
      HasNameConcat(Entries(values[0]), AllEntries(values[1..]), key);
    }
  }

  /** The fields that never pass, in lower case. */
  const NEVER_PASSED: seq<string> := [
    "connection", "keep-alive", "proxy-authenticate", "proxy-authorization", "proxy-connection", "te", "trailer",
    "transfer-encoding", "upgrade"
  ]

  /** The name, in any letter case. */
  predicate IsName(name: Bytes, lower: string) {
    Lower(name) == Ascii(lower)
  }

  /** A letter of a name, against its lower-case form. */
  predicate IsNameChar(c: char, lower: char) {
    (c == '-' && lower == '-') || ('a' <= c <= 'z' && lower == c) || ('A' <= c <= 'Z' && lower as int == c as int + 32)
  }

  lemma NameOf(name: string, lower: string)
    requires |name| == |lower| && forall i :: 0 <= i < |name| ==> IsNameChar(name[i], lower[i])
    ensures IsName(Ascii(name), lower) && IsToken(Ascii(name))
  {
    forall i | 0 <= i < |name|
      ensures ToLower(Ascii(name)[i]) == Ascii(lower)[i] && IsTokenByte(Ascii(name)[i])
    {
      assert IsNameChar(name[i], lower[i]);
    }
  }

  predicate NameListed(i: nat)
    requires i < |HOP_BY_HOP|
  {
    i < |NEVER_PASSED| && IsName(HOP_BY_HOP[i], NEVER_PASSED[i]) && IsToken(HOP_BY_HOP[i])
  }

  lemma FirstNames(i: nat)
    requires i < 5
    ensures NameListed(i)
  {
    if i == 0 {
      NameOf("Connection", "connection");
    } else if i == 1 {
      NameOf("Keep-Alive", "keep-alive");
    } else if i == 2 {
      NameOf("Proxy-Authenticate", "proxy-authenticate");
    } else if i == 3 {
      NameOf("Proxy-Authorization", "proxy-authorization");
    } else {
      NameOf("Proxy-Connection", "proxy-connection");
    }
  }

  lemma LastNames(i: nat)
    requires 5 <= i < |HOP_BY_HOP|
    ensures NameListed(i)
  {
    if i == 5 {
      NameOf("TE", "te");
    } else if i == 6 {
      NameOf("Trailer", "trailer");
    } else if i == 7 {
      NameOf("Transfer-Encoding", "transfer-encoding");
    } else {
      NameOf("Upgrade", "upgrade");
    }
  }

  lemma ListedName(i: nat)
    requires i < |HOP_BY_HOP|
    ensures NameListed(i)
  {
    if i < 5 {
      FirstNames(i);
    } else {
      LastNames(i);
    }
  }

  /** A canonical name is filtered as hop-by-hop exactly if it is, in any letter case, one of the listed ones. */
  lemma HopByHopIff(name: Bytes)
    ensures IsHopByHop(Canon(name)) <==> exists i :: 0 <= i < |NEVER_PASSED| && IsName(name, NEVER_PASSED[i])
  {
    LowerOfCanon(name);
    if i :| 0 <= i < |HOP_BY_HOP| && Canon(HOP_BY_HOP[i]) == Canon(name) {
      ListedName(i);
      LowerOfCanon(HOP_BY_HOP[i]);
    }
    if i :| 0 <= i < |NEVER_PASSED| && IsName(name, NEVER_PASSED[i]) {
      ListedName(i);
      CanonIgnoresCase(name, HOP_BY_HOP[i]);
    }
  }

  // ---------------------------------------------------------------- privacy headers

  const PRIVATE_NAMES: set<Bytes> := {
    Ascii("cf-connecting-ip"), Ascii("client-ip"), Ascii("do-connecting-ip"), Ascii("fastly-client-ip"),
    Ascii("fly-client-ip"), Ascii("forwarded"), Ascii("remote-addr"), Ascii("true-client-ip"), Ascii("via"),
    Ascii("x-appengine-user-ip"), Ascii("x-azure-clientip"), Ascii("x-client-ip"), Ascii("x-cluster-client-ip"),
    Ascii("x-envoy-external-address"), Ascii("x-forwarded"), Ascii("x-originating-ip"),
    Ascii("x-original-forwarded-for"), Ascii("x-proxyuser-ip"), Ascii("x-real-ip"), Ascii("x-remote-addr"),
    Ascii("x-remote-ip")
  }

  const X_FORWARDED: Bytes := Ascii("x-forwarded-")

  predicate IsPrivate(name: Bytes) {
    Lower(name) in PRIVATE_NAMES || X_FORWARDED <= Lower(name)
  }

  function Anonymous(h: Fields): Fields {
    map k | k in h && !IsPrivate(k) :: h[k]
  }

  method RemovePrivacyHeaders(header: Header)
    modifies header
    ensures header.fields == Anonymous(old(header.fields))
  {
    var names := header.fields.Keys;
    while names != {}
      invariant names <= header.fields.Keys
      invariant forall k :: k in header.fields ==> k in old(header.fields) && header.fields[k] == old(header.fields)[k]
      invariant forall k :: k in old(header.fields) && k !in header.fields ==> IsPrivate(k)
      invariant forall k :: k in header.fields && k !in names ==> !IsPrivate(k)
      decreases |names|
    {
      var name :| name in names;
      names := names - {name};
      if IsPrivate(name) {
        header.fields := header.fields - {name};
      }
    }
  }

  /** The private names, and how the others start. */
  const PRIVATE: seq<string> := [
    "cf-connecting-ip", "client-ip", "do-connecting-ip", "fastly-client-ip", "fly-client-ip", "forwarded",
    "remote-addr", "true-client-ip", "via", "x-appengine-user-ip", "x-azure-clientip", "x-client-ip",
    "x-cluster-client-ip", "x-envoy-external-address", "x-forwarded", "x-originating-ip",
    "x-original-forwarded-for", "x-proxyuser-ip", "x-real-ip", "x-remote-addr", "x-remote-ip"
  ]

  lemma PrivateNamesAre(lower: Bytes)
    ensures lower in PRIVATE_NAMES <==> exists i :: 0 <= i < |PRIVATE| && lower == Ascii(PRIVATE[i])
  {
    assert |PRIVATE| == 21;
    if lower in PRIVATE_NAMES {
      assert || lower == Ascii(PRIVATE[0]) || lower == Ascii(PRIVATE[1]) || lower == Ascii(PRIVATE[2])
             || lower == Ascii(PRIVATE[3]) || lower == Ascii(PRIVATE[4]) || lower == Ascii(PRIVATE[5])
             || lower == Ascii(PRIVATE[6]) || lower == Ascii(PRIVATE[7]) || lower == Ascii(PRIVATE[8])
             || lower == Ascii(PRIVATE[9]) || lower == Ascii(PRIVATE[10]) || lower == Ascii(PRIVATE[11])
             || lower == Ascii(PRIVATE[12]) || lower == Ascii(PRIVATE[13]) || lower == Ascii(PRIVATE[14])
             || lower == Ascii(PRIVATE[15]) || lower == Ascii(PRIVATE[16]) || lower == Ascii(PRIVATE[17])
             || lower == Ascii(PRIVATE[18]) || lower == Ascii(PRIVATE[19]) || lower == Ascii(PRIVATE[20]);
    }
  }

  /** A field is private exactly if its name is, in any letter case, one of the listed ones or starts with
      x-forwarded-. */
  lemma PrivateIff(name: Bytes)
    ensures IsPrivate(name) <==>
            || (exists i :: 0 <= i < |PRIVATE| && IsName(name, PRIVATE[i]))
            || (|name| >= 12 && IsName(name[..12], "x-forwarded-"))
  {
    PrivateNamesAre(Lower(name));
    assert |X_FORWARDED| == 12 && |Lower(name)| == |name|;
    if |name| >= 12 {
      assert Lower(name)[..12] == Lower(name[..12]);
    }
  }

  lemma ConnectionIsNotPrivate()
    ensures !IsPrivate(Canon(CONNECTION))
  {
    assert |Lower(CONNECTION)| == 10;
  }

  /** The two filters can be applied in either order. */
  lemma FiltersCommute(h: Fields)
    ensures EndToEnd(Anonymous(h)) == Anonymous(EndToEnd(h))
  {
    ConnectionIsNotPrivate();
    assert ValuesOf(Anonymous(h), CONNECTION) == ValuesOf(h, CONNECTION);
  }

  // ---------------------------------------------------------------- Via

  const VIA: Bytes := Ascii("Via")

  const SEPARATOR: Bytes := [COMMA, SPACE]

  function Join(parts: seq<Bytes>): Bytes {
    if |parts| == 0 then [] else if |parts| == 1 then parts[0] else parts[0] + SEPARATOR + Join(parts[1..])
  }

  /** The trimmed elements of a comma-separated list. */
  function Entries(value: Bytes): seq<Bytes> {
    Trimmed(Split(value))
  }

  function Trimmed(parts: seq<Bytes>): seq<Bytes> {
    seq(|parts|, i requires 0 <= i < |parts| => TrimSpace(parts[i]))
  }

  /** The entries of several values of one field, in order. */
  function AllEntries(values: seq<Bytes>): seq<Bytes> {
    if values == [] then [] else Entries(values[0]) + AllEntries(values[1..])
  }

  lemma SplitFirst(x: Bytes, rest: Bytes)
    requires COMMA !in x
    ensures Split(x + [COMMA] + rest) == [x] + Split(rest)
  {
    var s := x + [COMMA] + rest;
    assert s[|x|] == COMMA;
    assert s[..|x|] == x && s[|x| + 1..] == rest;
  }

  lemma {:induction false} SplitConcat(a: Bytes, b: Bytes)
    ensures Split(a + [COMMA] + b) == Split(a) + Split(b)
    decreases |a|
  {
    var i := Index(a, COMMA);
    if i == |a| {
      SplitFirst(a, b);
    } else {
      var x, y := a[..i], a[i + 1..];
      assert a == x + [COMMA] + y;
      assert a + [COMMA] + b == x + [COMMA] + (y + [COMMA] + b);
      SplitFirst(x, y + [COMMA] + b);
      SplitConcat(y, b);
    }
  }

  /** A space in front of a list is trimmed with its first entry. */
  lemma EntriesAfterSpace(b: Bytes)
    ensures Entries([SPACE] + b) == Entries(b)
  {
    var s, i := [SPACE] + b, Index(b, COMMA);
    assert s[1..] == b;
    assert Index(s, COMMA) == i + 1;
    assert s[..i + 1] == [SPACE] + b[..i] && s[i + 1..] == b[i..];
  }

  lemma EntriesOfConcat(a: Bytes, b: Bytes)
    ensures Entries(a + SEPARATOR + b) == Entries(a) + Entries(b)
  {
    assert a + SEPARATOR + b == a + [COMMA] + ([SPACE] + b);
    SplitConcat(a, [SPACE] + b);
    EntriesAfterSpace(b);
  }

  /** Joining the values of a field into one keeps its entries and their order. */
  lemma {:induction false} JoinKeepsEntries(values: seq<Bytes>)
    requires values != []
    ensures Entries(Join(values)) == AllEntries(values)
  {
    if |values| > 1 {
      EntriesOfConcat(values[0], Join(values[1..]));
      JoinKeepsEntries(values[1..]);
    }
  }

  /** What is left of the Via chain once the hop-by-hop headers are gone. */
  function SurvivingVia(h: Fields): seq<Bytes> {
    if Listed(ValuesOf(h, CONNECTION), Canon(VIA)) then [] else ValuesOf(h, VIA)
  }

  /** It is what the hop-by-hop filter leaves of the field. */
  lemma SurvivingViaIs(h: Fields)
    ensures SurvivingVia(h) == ValuesOf(EndToEnd(h), VIA)
  {
    ViaIsNotHopByHop();
  }

  const RECEIVED_BY: Bytes := Ascii(" https_proxy")

  /** The proxy's own entry: the protocol version of the request, and a pseudonym. */
  function ViaEntry(major: nat, minor: nat): Bytes {
    Decimal(major) + ([46] + (Decimal(minor) + RECEIVED_BY))
  }

  predicate IsNumber(s: Bytes) {
    s != [] && forall i :: 0 <= i < |s| ==> IsDigit(s[i])
  }

  lemma ViaEntryIsOne(a: Bytes, b: Bytes, entry: Bytes)
    requires entry == a + ([46] + (b + RECEIVED_BY)) && IsNumber(a) && IsNumber(b)
    ensures Entries(entry) == [entry]
  {
    assert |RECEIVED_BY| == 12 && RECEIVED_BY[11] == 121;
    assert forall i :: 0 <= i < 12 ==> RECEIVED_BY[i] != COMMA;
    assert COMMA !in a && COMMA !in b && COMMA !in RECEIVED_BY;
    assert entry[0] == a[0] && entry[|entry| - 1] == 121;
    assert SpaceAtStart(entry) == 0 && SpaceAtEnd(entry) == 0;
  }

  /** It is one entry of a list, and its version reads back. */
  lemma ViaEntryReadsBack(major: nat, minor: nat)
    ensures Entries(ViaEntry(major, minor)) == [ViaEntry(major, minor)]
    ensures var entry := ViaEntry(major, minor);
            var dot := Index(entry, 46);
            dot < |entry| && Atoi(entry[..dot]) == Some(major) &&
            var rest := entry[dot + 1..];
            var blank := Index(rest, SPACE);
            Atoi(rest[..blank]) == Some(minor) && rest[blank..] == RECEIVED_BY
  {
    var a, b := Decimal(major), Decimal(minor);
    ViaEntryIsOne(a, b, ViaEntry(major, minor));
    var rest := b + RECEIVED_BY;
    IndexAfter(a, [46] + rest, 46);
    assert ViaEntry(major, minor)[|a| + 1..] == rest;
    assert RECEIVED_BY[0] == SPACE;
    IndexAfter(b, RECEIVED_BY, SPACE);
    DecimalReadsBack(major);
    DecimalReadsBack(minor);
  }

  lemma {:induction false} AllEntriesAppend(values: seq<Bytes>, last: Bytes)
    ensures AllEntries(values + [last]) == AllEntries(values) + Entries(last)
  {
    if values != [] {
      assert (values + [last])[1..] == values[1..] + [last];
      AllEntriesAppend(values[1..], last);
    }
  }

  /** forwardedVia: filters a clone, leaving the header alone, and yields the entries of the surviving chain
      followed by the proxy's own. */
  method ForwardedVia(header: Header, major: nat, minor: nat) returns (via: Bytes)
    ensures via == Join(SurvivingVia(header.fields) + [ViaEntry(major, minor)])
    ensures Entries(via) == AllEntries(SurvivingVia(header.fields)) + [ViaEntry(major, minor)]
    ensures header.fields == old(header.fields)
  {
    ViaIsNotHopByHop();
    var own := ViaEntry(major, minor);
    var clone := new Header(header.fields);
    RemoveHopByHopHeaders(clone);
    clone.Add(VIA, own);
    via := Join(if Canon(VIA) in clone.fields then clone.fields[Canon(VIA)] else []);
    JoinKeepsEntries(SurvivingVia(header.fields) + [own]);
    AllEntriesAppend(SurvivingVia(header.fields), own);
    ViaEntryReadsBack(major, minor);
  }
}
