/**
 The answer of an upstream proxy to CONNECT: readConnectResponse and readLimitedLine of
 internal/proxy/upstream.go over a bufio.Reader, and BufferedConn.Read of internal/tunnel/tunnel.go.

 How the bytes arrive is chosen by the network (`Fill` takes any number of them) and the buffer may have any
 size bufio allows; what is read must not depend on either. `source` is everything the connection delivers
 before its first error.
 */
module ConnectResponse {
  import opened Options
  import opened GoBytes

  const MAX_HEADER_BYTES := 65536

  const HTTP_PREFIX: Bytes := [72, 84, 84, 80, 47]  // "HTTP/"

  // ---------------------------------------------------------------- what the bytes mean

  predicate HasLine(s: Bytes) {
    Index(s, LF) < |s|
  }

  /** The first line, without its LF or CRLF. */
  function LineOf(s: Bytes): Bytes
    requires HasLine(s)
  {
    WithoutCR(s[..Index(s, LF)])
  }

  function WithoutCR(raw: Bytes): Bytes {
    if raw != [] && raw[|raw| - 1] == CR then raw[..|raw| - 1] else raw
  }

  function AfterLine(s: Bytes): (rest: Bytes)
    requires HasLine(s)
    ensures |rest| < |s|
  {
    s[Index(s, LF) + 1..]
  }

  /** The status code of a status line that is accepted. */
  function StatusCode(line: Bytes): Option<int> {
    StatusOf(Fields(line))
  }

  function StatusOf(parts: seq<Bytes>): Option<int> {
    if |parts| < 2 || !(HTTP_PREFIX <= parts[0]) then None
    else
      var code := Atoi(parts[1]);
      if code.None? || code.value < 100 || code.value > 999 then None else code
  }

  /** The line has a word for the HTTP version and a word for a status code between 100 and 999, apart from white space
      and whatever follows the code. */
  predicate IsStatusLine(line: Bytes, k: nat, n: nat, m: nat, o: nat, code: int) {
    && FirstWordsAt(line, k, n, m, o)
    && HTTP_PREFIX <= line[k..k + n]
    && Atoi(line[k + n..][m..m + o]) == Some(code) && 100 <= code <= 999
  }

  /** A status code is found in exactly the lines of that form. */
  lemma StatusCodeIff(line: Bytes, code: int)
    ensures StatusCode(line) == Some(code)
            <==> exists k: nat, n: nat, m: nat, o: nat :: IsStatusLine(line, k, n, m, o, code)
  {
    if k: nat, n: nat, m: nat, o: nat :| IsStatusLine(line, k, n, m, o, code) {
      FieldsAtWords(line, k, n, m, o);
    }
    if StatusCode(line) == Some(code) {
      var k, n, m, o := FindFirstWords(line);
      FieldsAtWords(line, k, n, m, o);
      assert IsStatusLine(line, k, n, m, o, code);
    }
  }

  lemma NoSpaceAcross(x: Bytes, after: Bytes)
    requires x != [] && SpaceAtStart(x) == 0 && after != [] && after[0] == SPACE
    ensures SpaceAtStart(x + after) == 0
  {
    assert (x + after)[|x|] == SPACE;
  }

  /** A word in front of a space. */
  lemma WordBeforeSpace(w: Bytes, after: Bytes)
    requires w != [] && (forall i :: 0 <= i < |w| ==> SpaceAtStart(w[i..]) == 0)
    requires after == [] || after[0] == SPACE
    ensures FirstWordAt(w + after, 0, |w|) && (w + after)[..|w|] == w && (w + after)[|w|..] == after
  {
    var s := w + after;
    assert s[0..] == s && s[..0] == [];
    forall i | 0 <= i < |w| ensures SpaceAtStart(s[i..]) == 0 {
      assert s[i..] == w[i..] + after;
      if after == [] {
        assert s[i..] == w[i..];
      } else {
        NoSpaceAcross(w[i..], after);
      }
    }
  }

  lemma DecimalHasNoSpace(n: nat, i: nat)
    requires i < |Decimal(n)|
    ensures SpaceAtStart(Decimal(n)[i..]) == 0
  {
    assert IsDigit(Decimal(n)[i..][0]);
  }

  lemma WordAfterSpace(w: Bytes, after: Bytes)
    requires FirstWordAt(w + after, 0, |w|)
    ensures FirstWordAt([SPACE] + (w + after), 1, |w|) && ([SPACE] + (w + after))[1..1 + |w|] == w
  {
    var s := [SPACE] + (w + after);
    assert s[1..] == w + after && (w + after)[0..] == w + after;
    assert s[..1] == [SPACE] && [SPACE][1..] == [];
  }

  lemma DigitsAfterSpace(code: nat, reason: Bytes)
    requires reason == [] || reason[0] == SPACE
    ensures var rest := [SPACE] + (Decimal(code) + reason);
            FirstWordAt(rest, 1, |Decimal(code)|) && rest[1..1 + |Decimal(code)|] == Decimal(code)
  {
    forall i | 0 <= i < |Decimal(code)| ensures SpaceAtStart(Decimal(code)[i..]) == 0 {
      DecimalHasNoSpace(code, i);
    }
    WordBeforeSpace(Decimal(code), reason);
    WordAfterSpace(Decimal(code), reason);
  }

  lemma WordsRead(line: Bytes, version: Bytes, rest: Bytes, digits: Bytes)
    requires FirstWordAt(line, 0, |version|) && line[..|version|] == version && line[|version|..] == rest
    requires FirstWordAt(rest, 1, |digits|) && rest[1..1 + |digits|] == digits
    ensures |Fields(line)| >= 2 && Fields(line)[0] == version && Fields(line)[1] == digits
  {
    FieldsAtWords(line, 0, |version|, 1, |digits|);
  }

  /** Every regular status line is read: an HTTP version, a space, three digits, and nothing or a space and a reason. */
  lemma StatusLineOfCode(version: Bytes, code: int, reason: Bytes)
    requires HTTP_PREFIX <= version && 100 <= code <= 999
    requires forall i :: 0 <= i < |version| ==> SpaceAtStart(version[i..]) == 0
    requires reason == [] || reason[0] == SPACE
    ensures StatusCode(version + ([SPACE] + (Decimal(code) + reason))) == Some(code)
  {
    var rest := [SPACE] + (Decimal(code) + reason);
    WordBeforeSpace(version, rest);
    DigitsAfterSpace(code, reason);
    WordsRead(version + rest, version, rest, Decimal(code));
    DecimalReadsBack(code);
  }

  /** What follows the blank line, if one is reached within the budget. */
  function AfterHeaders(s: Bytes, budget: int): Option<Bytes>
    decreases |s|
  {
    if !HasLine(s) || |LineOf(s)| + 2 > budget then None
    else if LineOf(s) == [] then Some(AfterLine(s))
    else AfterHeaders(AfterLine(s), budget - |LineOf(s)| - 2)
  }

  datatype Response = Response(code: int, rest: Bytes)

  function Parse(s: Bytes): Option<Response> {
    ParseWith(StatusCode, s)
  }

  /** The response for any way to judge the status line. */
  function ParseWith(status: Bytes -> Option<int>, s: Bytes): Option<Response> {
    if !HasLine(s) || |LineOf(s)| + 2 > MAX_HEADER_BYTES then None
    else
      var code := status(LineOf(s));
      if code.None? then None
      else Accepted(code.value, AfterHeaders(AfterLine(s), MAX_HEADER_BYTES - |LineOf(s)| - 2))
  }

  function Accepted(code: int, rest: Option<Bytes>): Option<Response> {
    if rest.None? then None else Some(Response(code, rest.value))
  }

  datatype Failure = EarlyEnd | TooLarge | BadStatus

  datatype Answer = Status(code: int) | Failed(why: Failure)

  /** A terminated line up to the blank one does not fit the budget. */
  predicate HeadersTooLarge(s: Bytes, budget: int)
    decreases |s|
  {
    HasLine(s) &&
    (|LineOf(s)| + 2 > budget || (LineOf(s) != [] && HeadersTooLarge(AfterLine(s), budget - |LineOf(s)| - 2)))
  }

  /** Why no response is accepted, where the bytes decide it. In front of an unterminated line they do not: it may be
      reported as the early end or as too large, depending on the buffer. */
  function Reason(status: Bytes -> Option<int>, s: Bytes): Option<Failure> {
    if !HasLine(s) then None
    else if |LineOf(s)| + 2 > MAX_HEADER_BYTES then Some(TooLarge)
    else if status(LineOf(s)).None? then Some(BadStatus)
    else if HeadersTooLarge(AfterLine(s), MAX_HEADER_BYTES - |LineOf(s)| - 2) then Some(TooLarge)
    else None
  }

  // ---------------------------------------------------------------- the same, in terms of lines

  /** All lines that end in a newline, and what is left after the first k of them. */
  function Lines(s: Bytes): seq<Bytes>
    decreases |s|
  {
    if HasLine(s) then [LineOf(s)] + Lines(AfterLine(s)) else []
  }

  function Drop(s: Bytes, k: nat): Bytes
    decreases k
  {
    if k == 0 || !HasLine(s) then s else Drop(AfterLine(s), k - 1)
  }

  /** What k lines are charged: their length plus two each. */
  function Charge(lines: seq<Bytes>): nat {
    if lines == [] then 0 else |lines[0]| + 2 + Charge(lines[1..])
  }

  /** Line k is the first blank one at or after `from`. */
  predicate FirstBlank(lines: seq<Bytes>, from: nat, k: nat) {
    from <= k < |lines| && lines[k] == [] && forall j :: from <= j < k ==> lines[j] != []
  }

  lemma {:induction false} AfterHeadersIff(s: Bytes, budget: int, k: nat)
    requires FirstBlank(Lines(s), 0, k)
    ensures AfterHeaders(s, budget) ==
            if Charge(Lines(s)[..k + 1]) <= budget then Some(Drop(s, k + 1)) else None
    decreases k
  {
    var lines := Lines(s);
    assert lines[..k + 1] == [lines[0]] + lines[1..][..k];
    if k > 0 {
      assert lines[1..] == Lines(AfterLine(s));
      forall j | 0 <= j < k - 1 ensures Lines(AfterLine(s))[j] != [] {
        assert lines[j + 1] != [];
      }
      AfterHeadersIff(AfterLine(s), budget - |LineOf(s)| - 2, k - 1);
      assert Drop(s, k + 1) == Drop(AfterLine(s), k);
    }
  }

  lemma {:induction false} NoBlankNoResponse(s: Bytes, budget: int)
    requires forall j :: 0 <= j < |Lines(s)| ==> Lines(s)[j] != []
    ensures AfterHeaders(s, budget).None?
    decreases |s|
  {
    if HasLine(s) {
      var lines := Lines(s);
      assert lines[0] == LineOf(s) && lines[1..] == Lines(AfterLine(s));
      NoBlankNoResponse(AfterLine(s), budget - |LineOf(s)| - 2);
    }
  }

  /** The bytes of a line and its end never exceed what it is charged. */
  lemma {:induction false} ConsumedWithinCharge(s: Bytes, k: nat)
    requires k <= |Lines(s)|
    ensures |s| - |Drop(s, k)| <= Charge(Lines(s)[..k])
    decreases k
  {
    if k > 0 {
      var lines := Lines(s);
      assert lines[..k][1..] == Lines(AfterLine(s))[..k - 1];
      ConsumedWithinCharge(AfterLine(s), k - 1);
    }
  }

  predicate AcceptedAt(s: Bytes, k: nat) {
    && FirstBlank(Lines(s), 1, k)
    && StatusCode(Lines(s)[0]).Some?
    && Charge(Lines(s)[..k + 1]) <= MAX_HEADER_BYTES
  }

  lemma ChargeFirst(lines: seq<Bytes>, k: nat)
    requires k < |lines|
    ensures Charge(lines[..k + 1]) == |lines[0]| + 2 + Charge(lines[1..][..k])
  {
    assert lines[..k + 1][1..] == lines[1..][..k];
  }

  lemma BlankInRest(lines: seq<Bytes>, k: nat)
    requires FirstBlank(lines, 1, k)
    ensures FirstBlank(lines[1..], 0, k - 1)
  {
    var rest := lines[1..];
    assert forall j :: 0 <= j < |rest| ==> rest[j] == lines[j + 1];
  }

  /** What the first blank line after the status line decides. */
  lemma ParseAtBlank(s: Bytes, k: nat)
    requires FirstBlank(Lines(s), 1, k)
    ensures HasLine(s) && Lines(s)[0] == LineOf(s)
    ensures AfterHeaders(AfterLine(s), MAX_HEADER_BYTES - |LineOf(s)| - 2) ==
            if Charge(Lines(s)[..k + 1]) <= MAX_HEADER_BYTES then Some(Drop(s, k + 1)) else None
    ensures |LineOf(s)| + 2 <= Charge(Lines(s)[..k + 1])
  {
    var lines, rest := Lines(s), AfterLine(s);
    assert lines[1..] == Lines(rest);
    BlankInRest(lines, k);
    ChargeFirst(lines, k);
    AfterHeadersIff(rest, MAX_HEADER_BYTES - |LineOf(s)| - 2, k - 1);
  }

  /** A response is accepted exactly when its status line is valid, a newline-terminated blank line follows,
      and the lines up to it are charged at most 65536 bytes. */
  lemma ParseIff(s: Bytes)
    ensures Parse(s).Some? <==> exists k: nat :: AcceptedAt(s, k)
  {
    if k: nat :| AcceptedAt(s, k) {
      ParseAtBlank(s, k);
    } else if HasLine(s) {
      var lines, rest := Lines(s), AfterLine(s);
      if forall j :: 0 <= j < |Lines(rest)| ==> Lines(rest)[j] != [] {
        NoBlankNoResponse(rest, MAX_HEADER_BYTES - |LineOf(s)| - 2);
      } else {
        var before := FirstBlankOf(Lines(rest));
        var k := before + 1;
        forall i | 1 <= i < k ensures lines[i] != [] {
          assert lines[i] == Lines(rest)[i - 1];
        }
        assert FirstBlank(lines, 1, k) && !AcceptedAt(s, k);
        ParseAtBlank(s, k);
      }
    }
  }

  /** Then the code is that of the status line, the tunnel starts right after the blank line, and no more
      bytes were consumed than charged. */
  lemma ParseResult(s: Bytes, k: nat)
    requires AcceptedAt(s, k)
    ensures Parse(s) == Some(Response(StatusCode(Lines(s)[0]).value, Drop(s, k + 1)))
    ensures |s| - |Drop(s, k + 1)| <= Charge(Lines(s)[..k + 1]) <= MAX_HEADER_BYTES
  {
    ParseAtBlank(s, k);
    ConsumedWithinCharge(s, k + 1);
  }

  /** Line k is the first one that does not fit, and no line from `from` on before it is blank. */
  predicate Overflows(lines: seq<Bytes>, from: nat, budget: int, k: nat) {
    && k < |lines| && Charge(lines[..k]) <= budget < Charge(lines[..k + 1])
    && forall j :: from <= j < k ==> lines[j] != []
  }

  lemma OverflowsFirst(lines: seq<Bytes>, from: nat, budget: int)
    requires lines != [] && budget >= 0
    ensures Overflows(lines, from, budget, 0) <==> |lines[0]| + 2 > budget
  {
    assert lines[..0] == [] && lines[..1] == [lines[0]] && Charge([lines[0]][1..]) == 0;
  }

  /** Putting one line in front. */
  lemma OverflowsNext(lines: seq<Bytes>, from: nat, budget: int, k: nat)
    requires k < |lines| - 1 && (from == 0 ==> lines[0] != [])
    ensures Overflows(lines, from, budget, k + 1)
            <==> Overflows(lines[1..], if from == 0 then 0 else from - 1, budget - |lines[0]| - 2, k)
  {
    ChargeFirst(lines, k);
    ChargeFirst(lines, k + 1);
    var rest := lines[1..];
    assert forall j :: 0 <= j < |rest| ==> rest[j] == lines[j + 1];
    assert forall j :: 1 <= j < |lines| ==> lines[j] == rest[j - 1];
  }

  ghost predicate SomeOverflows(lines: seq<Bytes>, from: nat, budget: int) {
    exists k: nat :: Overflows(lines, from, budget, k)
  }

  /** If the first line fits, the one that does not is one of the rest. */
  lemma OverflowsIff(lines: seq<Bytes>, from: nat, budget: int, rest: seq<Bytes>, left: int)
    requires lines != [] && rest == lines[1..] && left == budget - |lines[0]| - 2 && left >= 0
    requires from <= 1 && (from == 0 ==> lines[0] != [])
    ensures !Overflows(lines, from, budget, 0)
    ensures SomeOverflows(lines, from, budget) <==> SomeOverflows(rest, 0, left)
  {
    OverflowsFirst(lines, from, budget);
    if k: nat :| Overflows(lines, from, budget, k) {
      OverflowsNext(lines, from, budget, k - 1);
    }
    if k: nat :| Overflows(rest, 0, left, k) {
      OverflowsNext(lines, from, budget, k);
    }
  }

  lemma {:induction false} HeadersTooLargeIff(s: Bytes, budget: int)
    requires budget >= 0
    ensures HeadersTooLarge(s, budget) <==> SomeOverflows(Lines(s), 0, budget)
    decreases |s|
  {
    if HasLine(s) {
      var lines, rest, left := Lines(s), Lines(AfterLine(s)), budget - |LineOf(s)| - 2;
      assert lines[1..] == rest;
      OverflowsFirst(lines, 0, budget);
      if left >= 0 && LineOf(s) != [] {
        HeadersTooLargeIff(AfterLine(s), left);
        OverflowsIff(lines, 0, budget, rest, left);
      }
    }
  }

  /** A response is found too large exactly when some terminated line takes the charge beyond 65536 before a blank
      line ends the headers, and the status line is that line or is valid. */
  lemma TooLargeIff(s: Bytes)
    ensures Reason(StatusCode, s) == Some(TooLarge)
            <==> && SomeOverflows(Lines(s), 1, MAX_HEADER_BYTES)
                 && (Overflows(Lines(s), 1, MAX_HEADER_BYTES, 0) || StatusCode(Lines(s)[0]).Some?)
  {
    if HasLine(s) {
      var lines, rest, left := Lines(s), Lines(AfterLine(s)), MAX_HEADER_BYTES - |LineOf(s)| - 2;
      assert lines[1..] == rest;
      OverflowsFirst(lines, 1, MAX_HEADER_BYTES);
      if left >= 0 {
        HeadersTooLargeIff(AfterLine(s), left);
        OverflowsIff(lines, 1, MAX_HEADER_BYTES, rest, left);
      }
    }
  }

  lemma FirstBlankOf(lines: seq<Bytes>) returns (k: nat)
    requires exists j :: 0 <= j < |lines| && lines[j] == []
    ensures FirstBlank(lines, 0, k)
  {
    k := 0;
    while lines[k] != []
      invariant k < |lines|
      invariant forall j :: 0 <= j < k ==> lines[j] != []
      decreases |lines| - k
    {
      k := k + 1;
    }
  }

  // ---------------------------------------------------------------- reading it from the network

  datatype Slice = Found | BufferFull | Ended

  /** A bufio.Reader: the bytes it has buffered, and those the connection will still deliver. */
  class Reader {
    const size: nat
    var buffered: Bytes
    var source: Bytes

    ghost predicate Valid()
      reads this
    {
      size >= 16 && |buffered| <= size
    }

    ghost function Pending(): Bytes
      reads this
    {
      buffered + source
    }

    constructor (size: nat, source: Bytes)
      requires size >= 16
      ensures Valid() && Pending() == source
    {
      this.size := size;
      this.source := source;
      buffered := [];
    }

    /** One read from the connection, of any positive number of bytes that fit. */
    method Fill()
      requires Valid() && |buffered| < size && source != []
      modifies this
      ensures Valid() && Pending() == old(Pending())
      ensures |source| < old(|source|) && old(buffered) <= buffered
    {
      var room := size - |buffered|;
      var n :| 1 <= n <= room && n <= |source|;
      buffered, source := buffered + source[..n], source[n..];
    }

    /** bufio's ReadSlice for the newline. */
    method ReadSlice() returns (line: Bytes, outcome: Slice)
      requires Valid()
      modifies this
      ensures Valid() && old(Pending()) == line + Pending()
      ensures outcome.Found? ==> HasLine(line) && Index(line, LF) == |line| - 1
      ensures !outcome.Found? ==> !HasLine(line)
      ensures outcome.BufferFull? ==> |line| == size && |buffered| < size
      ensures outcome.Ended? ==> Pending() == []
    {
      while true
        invariant Valid() && Pending() == old(Pending())
        decreases |source|
      {
        var i := Index(buffered, LF);
        if i < |buffered| {
          line, outcome := buffered[..i + 1], Found;
          buffered := buffered[i + 1..];
          assert line + buffered + source == old(Pending());
          return;
        }
        if |buffered| == size {
          line, outcome := buffered, BufferFull;
          buffered := [];
          return;
        }
        if source == [] {
          line, outcome := buffered, Ended;
          buffered := [];
          return;
        }
        Fill();
      }
    }

    /** bufio's ReadLine: a part of a line, or its end; a CR at the end of a full buffer is put back. */
    method ReadLine() returns (part: Bytes, prefix: bool, ok: bool)
      requires Valid()
      modifies this
      ensures Valid()
      ensures if ok then |Pending()| < |old(Pending())| else old(Pending()) == [] && Pending() == []
      ensures ok && prefix ==>
                part != [] && Seam(part, Pending()) && old(Pending()) == part + Pending()
      ensures ok && !prefix && HasLine(old(Pending())) ==>
                part == LineOf(old(Pending())) && Pending() == AfterLine(old(Pending()))
      ensures ok && !prefix && !HasLine(old(Pending())) ==> part != [] && Pending() == []
    {
      var line, outcome := ReadSlice();
      if outcome.BufferFull? {
        if line[|line| - 1] == CR {
          part := line[..|line| - 1];
          buffered := [CR] + buffered;
        } else {
          part := line;
        }
        return part, true, true;
      }
      if line == [] {
        return [], false, false;
      }
      if outcome.Found? {
        IndexOfPrefix(line, Pending());
        var drop := if |line| > 1 && line[|line| - 2] == CR then 2 else 1;
        part := line[..|line| - drop];
      } else {
        part := line;
        assert line + Pending() == line;
      }
      return part, false, true;
    }

    /** A whole line, charged against the budget. */
    method ReadLimitedLine(budget: int) returns (line: Bytes, remaining: int, ok: bool, tooLarge: bool)
      requires Valid() && budget >= 0
      modifies this
      ensures Valid() && (ok ==> remaining >= 0)
      ensures HasLine(old(Pending())) ==> (ok <==> |LineOf(old(Pending()))| + 2 <= budget) && (!ok ==> tooLarge)
      ensures HasLine(old(Pending())) && ok ==>
                && line == LineOf(old(Pending()))
                && Pending() == AfterLine(old(Pending()))
                && remaining == budget - |line| - 2
      ensures !HasLine(old(Pending())) && ok ==> line != [] && Pending() == []
      ensures ok ==> |Pending()| < |old(Pending())|
    {
      line, remaining := [], budget;
      ghost var all := Pending();
      while true
        invariant Valid() && all == line + Pending() && Seam(line, Pending())
        invariant remaining == budget - |line| && remaining >= 0
        decreases |Pending()|
      {
        ghost var before := Pending();
        SplitLine(line, before);
        var part, prefix, more := ReadLine();
        if !more {
          return [], remaining, false, false;
        }
        if prefix {
          JoinPart(line, part, Pending());
        }
        remaining := remaining - |part| - (if prefix then 0 else 2);
        if remaining < 0 {
          return [], remaining, false, true;
        }
        line := line + part;
        if !prefix {
          return line, remaining, true, false;
        }
      }
    }

    /** The header loop: reads lines up to and including the blank one. */
    method SkipHeaders(budget: int) returns (ok: bool, tooLarge: bool)
      requires Valid() && budget >= 0
      modifies this
      ensures Valid()
      ensures ok <==> AfterHeaders(old(Pending()), budget).Some?
      ensures ok ==> AfterHeaders(old(Pending()), budget) == Some(Pending())
      ensures HeadersTooLarge(old(Pending()), budget) ==> !ok && tooLarge
    {
      var remaining := budget;
      while true
        invariant Valid() && remaining >= 0
        invariant AfterHeaders(Pending(), remaining) == AfterHeaders(old(Pending()), budget)
        invariant HeadersTooLarge(Pending(), remaining) == HeadersTooLarge(old(Pending()), budget)
        decreases |Pending()|
      {
        var line;
        line, remaining, ok, tooLarge := ReadLimitedLine(remaining);
        if !ok || line == [] {
          return;
        }
      }
    }

    method ReadConnectResponse() returns (r: Answer)
      requires Valid()
      modifies this
      ensures Valid()
      ensures r.Status? <==> Parse(old(Pending())).Some?
      ensures r.Status? ==> Parse(old(Pending())) == Some(Response(r.code, Pending()))
      ensures Reason(StatusCode, old(Pending())).Some? ==> r == Failed(Reason(StatusCode, old(Pending())).value)
    {
      r := ReadResponse(StatusCode);
    }

    method ReadResponse(status: Bytes -> Option<int>) returns (r: Answer)
      requires Valid()
      modifies this
      ensures Valid()
      ensures r.Status? <==> ParseWith(status, old(Pending())).Some?
      ensures r.Status? ==> ParseWith(status, old(Pending())) == Some(Response(r.code, Pending()))
      ensures Reason(status, old(Pending())).Some? ==> r == Failed(Reason(status, old(Pending())).value)
    {
      var remaining;
      r, remaining := ReadStatusLine(status);
      if r.Status? {
        var ok, tooLarge := SkipHeaders(remaining);
        if !ok {
          r := Failed(if tooLarge then TooLarge else EarlyEnd);
        }
      }
    }

    /** The status line, and what it leaves of the budget. */
    method ReadStatusLine(status: Bytes -> Option<int>) returns (r: Answer, remaining: int)
      requires Valid()
      modifies this
      ensures Valid()
      ensures r.Status? ==> remaining >= 0
      ensures r.Status? ==>
                && ParseWith(status, old(Pending())) == Accepted(r.code, AfterHeaders(Pending(), remaining))
                && Reason(status, old(Pending())) ==
                   if HeadersTooLarge(Pending(), remaining) then Some(TooLarge) else None
      ensures r.Failed? ==>
                && ParseWith(status, old(Pending())).None?
                && (Reason(status, old(Pending())).Some? ==> Reason(status, old(Pending())).value == r.why)
    {
      var line, ok, tooLarge;
      line, remaining, ok, tooLarge := ReadLimitedLine(MAX_HEADER_BYTES);
      if !ok {
        return Failed(if tooLarge then TooLarge else EarlyEnd), remaining;
      }
      var code := status(line);
      r := if code.None? then Failed(BadStatus) else Status(code.value);
    }

    /** BufferedConn.Read: buffered bytes first, then the connection. */
    method Read(max: nat) returns (data: Bytes)
      requires Valid()
      modifies this
      ensures Valid() && |data| <= max && old(Pending()) == data + Pending()
      ensures data == [] ==> max == 0 || Pending() == []
    {
      if max > 0 && buffered == [] && source != [] {
        Fill();
      }
      var n := if max < |buffered| then max else |buffered|;
      data := buffered[..n];
      assert buffered == buffered[..n] + buffered[n..];
      buffered := buffered[n..];
    }

    /** Whatever the reads' sizes, the tunnel receives exactly the bytes after the blank line. */
    method ConnectThenReadAll(sizes: nat -> nat) returns (r: Answer, received: Bytes)
      requires Valid() && forall i :: sizes(i) > 0
      modifies this
      ensures r.Status? <==> Parse(old(Pending())).Some?
      ensures r.Status? ==> Parse(old(Pending())) == Some(Response(r.code, received))
    {
      r := ReadConnectResponse();
      received := [];
      if r.Status? {
        received := ReadAll(sizes);
      }
    }

    method ReadAll(sizes: nat -> nat) returns (received: Bytes)
      requires Valid() && forall i :: sizes(i) > 0
      modifies this
      ensures received == old(Pending())
    {
      received := [];
      var i := 0;
      while true
        invariant Valid() && received + Pending() == old(Pending())
        decreases |Pending()|
      {
        ghost var before := Pending();
        var data := Read(sizes(i));
        assert received + before == (received + data) + Pending();
        received := received + data;
        if data == [] {
          assert received + Pending() == received;
          break;
        }
        i := i + 1;
      }
    }
  }

  // ---------------------------------------------------------------- lines and concatenation

  lemma IndexUnique(s: Bytes, i: nat)
    requires i < |s| && s[i] == LF && forall j :: 0 <= j < i ==> s[j] != LF
    ensures Index(s, LF) == i
  {
  }

  /** A slice that ends with the first newline is the first line of whatever follows it. */
  lemma IndexOfPrefix(line: Bytes, rest: Bytes)
    requires HasLine(line) && Index(line, LF) == |line| - 1
    ensures HasLine(line + rest) && Index(line + rest, LF) == |line| - 1
    ensures AfterLine(line + rest) == rest
    ensures LineOf(line + rest) == line[..|line| - (if |line| > 1 && line[|line| - 2] == CR then 2 else 1)]
  {
    IndexUnique(line + rest, |line| - 1);
  }

  lemma IndexInConcat(part: Bytes, rest: Bytes)
    requires !HasLine(part)
    ensures Index(part + rest, LF) == |part| + Index(rest, LF)
  {
    if HasLine(rest) {
      IndexUnique(part + rest, |part| + Index(rest, LF));
    }
  }

  /** `part` was read as the start of a line that `rest` continues: a CR at its end was put back. */
  predicate Seam(part: Bytes, rest: Bytes) {
    !HasLine(part) && (part != [] && part[|part| - 1] == CR ==> rest != [] && rest[0] == CR)
  }

  lemma JoinPart(line: Bytes, part: Bytes, rest: Bytes)
    requires !HasLine(line) && part != [] && Seam(part, rest)
    ensures line + (part + rest) == (line + part) + rest && Seam(line + part, rest)
    ensures HasLine(line + (part + rest)) ==> |LineOf(line + (part + rest))| >= |line + part|
  {
  }

  lemma SliceConcat(part: Bytes, rest: Bytes, i: nat)
    requires i < |rest|
    ensures (part + rest)[..|part| + i] == part + rest[..i]
    ensures (part + rest)[|part| + i + 1..] == rest[i + 1..]
  {
  }

  lemma SplitText(part: Bytes, rest: Bytes, i: nat)
    requires i < |rest| && (i == 0 && part != [] ==> part[|part| - 1] != CR)
    ensures WithoutCR((part + rest)[..|part| + i]) == part + WithoutCR(rest[..i])
  {
    SliceConcat(part, rest, i);
    WithoutCRConcat(part, rest[..i]);
  }

  /** A line starts with the part read so far, unless a CR at the seam belongs to its end. */
  lemma SplitLine(part: Bytes, rest: Bytes)
    requires Seam(part, rest)
    ensures HasLine(part + rest) <==> HasLine(rest)
    ensures HasLine(rest) ==> LineOf(part + rest) == part + LineOf(rest) && AfterLine(part + rest) == AfterLine(rest)
  {
    IndexInConcat(part, rest);
    if HasLine(rest) {
      var all, i := part + rest, Index(rest, LF);
      assert LineOf(all) == WithoutCR(all[..|part| + i]) && AfterLine(all) == all[|part| + i + 1..];
      SplitText(part, rest, i);
      SliceConcat(part, rest, i);
    }
  }

  lemma WithoutCRConcat(a: Bytes, b: Bytes)
    requires b == [] && a != [] ==> a[|a| - 1] != CR
    ensures WithoutCR(a + b) == a + WithoutCR(b)
  {
  }
}
