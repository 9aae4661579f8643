/**
 * The fixed HTTP/1.1 response header block that `Fauxmo.add_http_headers`
 * puts in front of every XML or SOAP body, and the reading of such a response
 * that a client performs: header text up to the first blank line, the body
 * after it, and the CONTENT-LENGTH header.
 */
module Http {

  import opened Wrappers
  import opened Strings
  import opened Decimal
  import opened Utf8

  const StatusLine: string := "HTTP/1.1 200 OK"
  const ContentLengthName: string := "CONTENT-LENGTH: "
  const ContentType: string := "CONTENT-TYPE: text/xml"
  const LastModified: string := "LAST-MODIFIED: Sat, 01 Jan 2000 00:01:15 GMT"
  const ServerLine: string := "SERVER: Unspecified, UPnP/1.0, Unspecified"
  const UserAgent: string := "X-User-Agent: Fauxmo"
  const ConnectionClose: string := "CONNECTION: close"

  /**
   * `add_http_headers(xml)`, with the current HTTP date as `date`: nine parts
   * joined by CRLF, where the eighth part carries its own extra CRLF.
   */
  function AddHttpHeaders(xml: string, date: string): string {
    Join(CRLF, [
      StatusLine,
      ContentLengthName + NatToString(|Encode(xml)|),
      ContentType,
      "DATE: " + date,
      LastModified,
      ServerLine,
      UserAgent,
      ConnectionClose + CRLF,
      xml])
  }

  /** The header lines of a response to `xml`, in order, without line ends. */
  function HeaderLines(xml: string, date: string): seq<string> {
    [StatusLine, ContentLengthName + NatToString(|Encode(xml)|), ContentType,
     "DATE: " + date, LastModified, ServerLine, UserAgent, ConnectionClose]
  }

  /** The response is the header lines, a blank line, and the body verbatim. */
  lemma AddHttpHeadersShape(xml: string, date: string)
    ensures AddHttpHeaders(xml, date) == Join(CRLF, HeaderLines(xml, date)) + CRLF + CRLF + xml
  {
    var h := HeaderLines(xml, date);
    var first := h[..7];
    assert first + [ConnectionClose + CRLF] + [xml] == [
      StatusLine, ContentLengthName + NatToString(|Encode(xml)|), ContentType,
      "DATE: " + date, LastModified, ServerLine, UserAgent, ConnectionClose + CRLF, xml];
    JoinSnoc(CRLF, first + [ConnectionClose + CRLF], xml);
    JoinSnoc(CRLF, first, ConnectionClose + CRLF);
    JoinSnoc(CRLF, first, ConnectionClose);
    assert first + [ConnectionClose] == h;
  }

  // ---------------------------------------------------------------------
  // Reading a response back

  predicate BlankLineAt(r: string, i: nat) {
    OccursAt(r, CRLF + CRLF, i)
  }

  lemma BlankLineChars(r: string, i: nat)
    ensures BlankLineAt(r, i) ==> r[i] == '\r' && r[i + 1] == '\n' && r[i + 2] == '\r' && r[i + 3] == '\n'
  {
    if BlankLineAt(r, i) {
      assert r[i..i + 4] == "\r\n\r\n";
      assert r[i..i + 4][1] == r[i + 1] && r[i..i + 4][2] == r[i + 2];
    }
  }

  /** The first index at or after `from` where an empty line (CRLF CRLF) starts. */
  function FindBlankLine(r: string, from: nat): (i: Option<nat>)
    ensures i.Some? ==> from <= i.value && BlankLineAt(r, i.value)
    decreases |r| - from
  {
    if from + 4 > |r| then None
    else if BlankLineAt(r, from) then Some(from)
    else FindBlankLine(r, from + 1)
  }

  lemma {:induction false} FindBlankLineFirst(r: string, from: nat, t: nat)
    requires from <= t && BlankLineAt(r, t)
    requires forall i :: from <= i < t ==> !BlankLineAt(r, i)
    ensures FindBlankLine(r, from) == Some(t)
    decreases t - from
  {
    if from < t {
      FindBlankLineFirst(r, from + 1, t);
    }
  }

  /** The header text and the body of a response, split at its first blank line. */
  function SplitResponse(r: string): Option<(string, string)> {
    match FindBlankLine(r, 0)
    case None => None
    case Some(i) => Some((r[..i], r[i + 4..]))
  }

  /** The CONTENT-LENGTH a client finds in the header text of a response. */
  function ContentLength(head: string): Option<nat> {
    match FirstWithPrefix(SplitLines(head), ContentLengthName)
    case None => None
    case Some(line) => ParseNat(line[|ContentLengthName|..])
  }

  // Each fixed header line holds no line boundary; one literal per lemma
  // keeps each proof small.

  lemma FixedLinesAreSingle()
    ensures SingleLine(StatusLine) && SingleLine(ContentType) && SingleLine(LastModified)
    ensures SingleLine(ServerLine) && SingleLine(UserAgent) && SingleLine(ConnectionClose)
  {
    StatusLineIsSingle();
    ContentTypeIsSingle();
    LastModifiedIsSingle();
    ServerLineIsSingle();
    UserAgentIsSingle();
    ConnectionCloseIsSingle();
  }

  lemma StatusLineIsSingle() ensures SingleLine(StatusLine) { }
  lemma ContentTypeIsSingle() ensures SingleLine(ContentType) { }
  lemma LastModifiedIsSingle() ensures SingleLine(LastModified) { }
  lemma ServerLineIsSingle() ensures SingleLine(ServerLine) { }
  lemma UserAgentIsSingle() ensures SingleLine(UserAgent) { }
  lemma ConnectionCloseIsSingle() ensures SingleLine(ConnectionClose) { }

  lemma HeaderLinesAreLines(xml: string, date: string)
    requires SingleLine(date)
    ensures var h := HeaderLines(xml, date);
      forall k :: 0 <= k < |h| ==> |h[k]| > 0 && SingleLine(h[k])
  {
    var digits := NatToString(|Encode(xml)|);
    SingleLineConcat(ContentLengthName, digits);
    SingleLineConcat("DATE: ", date);
    var h := HeaderLines(xml, date);
    assert h[1] == ContentLengthName + digits && h[3] == "DATE: " + date;
    FixedLinesAreSingle();
    forall k | 0 <= k < |h| ensures |h[k]| > 0 && SingleLine(h[k]) {
      if k == 1 || k == 3 {
      } else {
        assert h[k] in [StatusLine, ContentType, LastModified, ServerLine, UserAgent, ConnectionClose];
      }
    }
  }

  /**
   * In text that is non-empty, has no empty line inside and does not end in
   * CR or LF, the CRLF CRLF placed after it is the first blank line.
   */
  lemma FirstBlankLineAfter(head: string, body: string)
    requires |head| > 0 && NoLfCr(head)
    requires head[|head| - 1] != '\r' && head[|head| - 1] != '\n'
    ensures FindBlankLine(head + CRLF + CRLF + body, 0) == Some(|head|)
  {
    var r := head + CRLF + CRLF + body;
    var n := |head|;
    assert r[n..n + 4] == CRLF + CRLF;
    forall i | 0 <= i < n ensures !BlankLineAt(r, i) {
      BlankLineChars(r, i);
      if i + 2 < n {
        assert r[i + 1] == head[i + 1] && r[i + 2] == head[i + 2];
      } else if i == n - 1 {
        assert r[i] == head[n - 1];
      } else {
        assert r[i + 1] == head[n - 1];
      }
    }
    FindBlankLineFirst(r, 0, n);
  }

  /**
   * A client that splits the response at its first blank line gets the
   * header lines and exactly the body; the CONTENT-LENGTH it reads there is
   * the number of bytes the body takes in UTF-8, and those bytes are the
   * last ones of the encoded response.
   */
  lemma ReadBackResponse(xml: string, date: string)
    requires SingleLine(date)
    ensures var r := AddHttpHeaders(xml, date);
      var head := Join(CRLF, HeaderLines(xml, date));
      && SplitResponse(r) == Some((head, xml))
      && ContentLength(head) == Some(|Encode(xml)|)
      && Encode(r) == Encode(head + CRLF + CRLF) + Encode(xml)
  {
    var lines := HeaderLines(xml, date);
    var head := Join(CRLF, lines);
    var r := AddHttpHeaders(xml, date);
    AddHttpHeadersShape(xml, date);
    HeaderLinesAreLines(xml, date);
    JoinLinesShape(lines);
    FirstBlankLineAfter(head, xml);
    assert r[..|head|] == head && r[|head| + 4..] == xml;
    SplitLinesJoin(lines);
    var cl := lines[1];
    assert FirstWithPrefix(lines, ContentLengthName) == Some(cl) by {
      assert !StartsWith(lines[0], ContentLengthName);
    }
    assert cl[|ContentLengthName|..] == NatToString(|Encode(xml)|);
    ParseNatToString(|Encode(xml)|);
    EncodeConcat(head + CRLF + CRLF, xml);
  }
}
