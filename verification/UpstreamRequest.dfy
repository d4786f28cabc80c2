/** The CONNECT request sent to an upstream proxy: buildConnectRequest and writeAll of internal/proxy/upstream.go. */
module UpstreamRequest {
  import opened Options
  import opened GoBytes
  import opened ConnectResponse
  import opened BasicAuth
  import Base64

  const CRLF: Bytes := [CR, LF]
  const CONNECT: Bytes := Ascii("CONNECT ")
  const VERSION: Bytes := Ascii(" HTTP/1.1")
  const HOST: Bytes := Ascii("Host: ")
  const VIA: Bytes := Ascii("Via: ")
  const AUTHORIZATION: Bytes := Ascii("Proxy-Authorization: ")

  /** The lines the builder prints. `userinfo` is the user information of the upstream URL, if it has any;
      `via` is empty in privacy mode. */
  function RequestLines(target: Bytes, userinfo: Option<Pair>, via: Bytes): seq<Bytes> {
    [CONNECT + target + VERSION, HOST + target]
    + (if via != [] then [VIA + via] else [])
    + (if userinfo.Some?
       then [AUTHORIZATION + CredentialsValue(userinfo.value.user, userinfo.value.pass)] else [])
    + [[]]
  }

  /** Every print ends in CRLF. */
  function Printed(lines: seq<Bytes>): Bytes {
    if lines == [] then [] else lines[0] + CRLF + Printed(lines[1..])
  }

  function BuildConnectRequest(target: Bytes, userinfo: Option<Pair>, via: Bytes): Bytes {
    Printed(RequestLines(target, userinfo, via))
  }

  predicate OneLine(s: Bytes) {
    LF !in s
  }

  lemma LinesOfCrlf(line: Bytes, rest: Bytes)
    requires OneLine(line)
    ensures Lines(line + CRLF + rest) == [line] + Lines(rest)
  {
    var s := line + CRLF + rest;
    assert s[|line| + 1] == LF;
    forall j | 0 <= j < |line| + 1 ensures s[j] != LF {
      if j < |line| {
        assert s[j] == line[j];
      }
    }
    IndexUnique(s, |line| + 1);
    assert s[..|line| + 1] == line + [CR];
    assert s[|line| + 2..] == rest;
    assert WithoutCR(line + [CR]) == line;
  }

  lemma EncodedIsOneLine(data: Bytes)
    ensures OneLine(Base64.Encode(data))
  {
    Base64.EncodedIsSymbols(data);
  }

  lemma {:induction false} PrintedReadsBack(lines: seq<Bytes>)
    requires forall i :: 0 <= i < |lines| ==> OneLine(lines[i])
    ensures Lines(Printed(lines)) == lines
  {
    if lines != [] {
      PrintedReadsBack(lines[1..]);
      LinesOfCrlf(lines[0], Printed(lines[1..]));
    }
  }

  lemma CredentialsAreOneLine(user: Bytes, pass: Bytes)
    ensures OneLine(CredentialsValue(user, pass))
  {
    EncodedIsOneLine(user + [COLON] + pass);
  }

  /** A reader finds exactly the printed lines, ending in the blank one: however the credentials look, even
      with line breaks in them, they stay on their own line. */
  lemma ConnectRequestReadsBack(target: Bytes, userinfo: Option<Pair>, via: Bytes)
    requires OneLine(target) && OneLine(via)
    ensures Lines(BuildConnectRequest(target, userinfo, via)) == RequestLines(target, userinfo, via)
  {
    var lines := RequestLines(target, userinfo, via);
    NamesAreOneLine();
    assert OneLine(CONNECT + target + VERSION) && OneLine(HOST + target) && OneLine(VIA + via) && OneLine([]);
    if userinfo.Some? {
      var value := CredentialsValue(userinfo.value.user, userinfo.value.pass);
      CredentialsAreOneLine(userinfo.value.user, userinfo.value.pass);
      assert OneLine(AUTHORIZATION + value);
    }
    PrintedReadsBack(lines);
  }

  lemma NamesAreOneLine()
    ensures OneLine(CONNECT) && OneLine(VERSION) && OneLine(HOST) && OneLine(VIA) && OneLine(AUTHORIZATION)
  {
  }

  // ---------------------------------------------------------------- what the upstream proxy reads

  /** The value of the first header line with a name. */
  function HeaderValue(lines: seq<Bytes>, name: Bytes): Option<Bytes> {
    if lines == [] then None
    else if name + [COLON, SPACE] <= lines[0] then Some(lines[0][|name| + 2..])
    else HeaderValue(lines[1..], name)
  }

  /** The target of a CONNECT start line. */
  function ConnectTarget(line: Bytes): Option<Bytes> {
    var before, after := Ascii("CONNECT "), Ascii(" HTTP/1.1");
    if |line| >= |before| + |after| && before <= line && line[|line| - |after|..] == after
    then Some(line[|before|..|line| - |after|]) else None
  }

  lemma NamesDiffer()
    ensures HOST == Ascii("Host") + [COLON, SPACE] && HOST[0] == 72
    ensures VIA == Ascii("Via") + [COLON, SPACE] && VIA[0] == 86
    ensures AUTHORIZATION == Ascii("Proxy-Authorization") + [COLON, SPACE] && AUTHORIZATION[0] == 80
  {
    assert |AUTHORIZATION| == 21;
  }

  lemma ValueOfLine(name: Bytes, value: Bytes, lines: seq<Bytes>)
    requires lines != [] && lines[0] == (name + [COLON, SPACE]) + value
    ensures HeaderValue(lines, name) == Some(value)
  {
  }

  lemma OtherLine(name: Bytes, lines: seq<Bytes>)
    requires lines != [] && !(name + [COLON, SPACE] <= lines[0])
    ensures HeaderValue(lines, name) == HeaderValue(lines[1..], name)
  {
  }

  /** From the bytes of the request the upstream proxy reads the target, twice; the Via value, if there is one; and the
      credentials, if there are any, as the pair of the upstream URL split at its first colon. The blank line is the
      last one. */
  lemma ConnectRequestMeans(target: Bytes, userinfo: Option<Pair>, via: Bytes)
    requires OneLine(target) && OneLine(via)
    ensures var lines := Lines(BuildConnectRequest(target, userinfo, via));
            && |lines| >= 2 && ConnectTarget(lines[0]) == Some(target)
            && HeaderValue(lines[1..], Ascii("Host")) == Some(target)
            && HeaderValue(lines[1..], Ascii("Via")) == (if via == [] then None else Some(via))
            && (var auth := HeaderValue(lines[1..], Ascii("Proxy-Authorization"));
                && (auth.Some? <==> userinfo.Some?)
                && (auth.Some? ==>
                      ParseCredentials(auth.value) == SplitPair(userinfo.value.user + [COLON] + userinfo.value.pass)))
            && (forall i :: 0 <= i < |lines| ==> (lines[i] == [] <==> i == |lines| - 1))
  {
    ConnectRequestReadsBack(target, userinfo, via);
    var lines := RequestLines(target, userinfo, via);
    StartLineMeans(target);
    HeadersMean(target, userinfo, via);
    LastIsBlank(target, userinfo, via);
    if userinfo.Some? {
      CredentialsParse(userinfo.value.user, userinfo.value.pass);
    }
  }

  lemma LastIsBlank(target: Bytes, userinfo: Option<Pair>, via: Bytes)
    ensures var lines := RequestLines(target, userinfo, via);
            forall i :: 0 <= i < |lines| ==> (lines[i] == [] <==> i == |lines| - 1)
  {
    assert |CONNECT| > 0 && |HOST| > 0 && |VIA| > 0 && |AUTHORIZATION| > 0;
  }

  lemma StartLineMeans(target: Bytes)
    ensures ConnectTarget(CONNECT + target + VERSION) == Some(target)
  {
    var line := CONNECT + target + VERSION;
    assert line[|CONNECT|..|line| - |VERSION|] == target;
  }

  lemma HeadersMean(target: Bytes, userinfo: Option<Pair>, via: Bytes)
    ensures var lines := RequestLines(target, userinfo, via)[1..];
            && HeaderValue(lines, Ascii("Host")) == Some(target)
            && HeaderValue(lines, Ascii("Via")) == (if via == [] then None else Some(via))
            && HeaderValue(lines, Ascii("Proxy-Authorization")) ==
               (if userinfo.None? then None else Some(CredentialsValue(userinfo.value.user, userinfo.value.pass)))
  {
    NamesDiffer();
    var auth := if userinfo.Some?
                then [AUTHORIZATION + CredentialsValue(userinfo.value.user, userinfo.value.pass)] else [];
    var blank: seq<Bytes> := [[]];
    assert blank[1..] == [];
    var rest := auth + blank;
    var middle := (if via != [] then [VIA + via] else []) + rest;
    var lines := [HOST + target] + middle;
    assert RequestLines(target, userinfo, via)[1..] == lines;
    assert lines[1..] == middle && (via != [] ==> middle[1..] == rest) && (via == [] ==> middle == rest);
    ValueOfLine(Ascii("Host"), target, lines);
    assert lines[0][0] == HOST[0];
    OtherLine(Ascii("Via"), lines);
    OtherLine(Ascii("Proxy-Authorization"), lines);
    if via != [] {
      ValueOfLine(Ascii("Via"), via, middle);
      assert middle[0][0] == VIA[0];
      OtherLine(Ascii("Proxy-Authorization"), middle);
    }
    if userinfo.Some? {
      assert rest[0][0] == AUTHORIZATION[0];
      ValueOfLine(Ascii("Proxy-Authorization"), CredentialsValue(userinfo.value.user, userinfo.value.pass), rest);
      OtherLine(Ascii("Via"), rest);
      assert rest[1..] == blank;
    }
  }

  // ---------------------------------------------------------------- sending it

  /** A connection that accepts any part of what it is given, or fails. */
  class Sink {
    var written: Bytes

    method Write(data: Bytes) returns (n: nat, failed: bool)
      modifies this
      ensures n <= |data| && written == old(written) + data[..n]
    {
      n :| 0 <= n <= |data|;
      failed := *;
      written := written + data[..n];
    }
  }

  /** Success means that all of the data was written, in order; failure that some prefix was. */
  method WriteAll(sink: Sink, data: Bytes) returns (ok: bool)
    modifies sink
    ensures ok ==> sink.written == old(sink.written) + data
    ensures exists k :: 0 <= k <= |data| && sink.written == old(sink.written) + data[..k]
  {
    var left := data;
    ghost var done := 0;
    while |left| > 0
      invariant 0 <= done <= |data| && left == data[done..]
      invariant sink.written == old(sink.written) + data[..done]
    {
      var n, failed := sink.Write(left);
      assert data[..done] + left[..n] == data[..done + n];
      done := done + n;
      if failed || n == 0 {
        return false;
      }
      left := left[n..];
    }
    assert data[..done] == data;
    return true;
  }
}
