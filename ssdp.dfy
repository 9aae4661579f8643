/**
 * `SSDPServer`, the UDP side: a datagram that holds the discover header in
 * some letter case and one of the advertised search targets is answered with
 * one HTTP-over-UDP reply per registered device, each scheduled to be sent
 * after a random delay bounded by the datagram's MX value.
 */
module Ssdp {

  import opened Wrappers
  import opened Strings
  import opened Decimal
  import opened Utf8
  import opened Templates

  /**
   * A registered device. Devices handed to the constructor may lack the
   * address or the port; those are read with `dict.get` and so print as
   * `None`.
   */
  datatype Device = Device(name: string, ipAddress: Option<string>, port: Option<int>)

  /** A UDP peer address: host and port. */
  datatype Address = Address(host: string, port: int)

  /** A scheduled reply: the encoded datagram, its destination, and the MX it is sent under. */
  datatype Send = Send(payload: seq<byte>, addr: Address, mx: real)

  /** What one search asks for: the search target line, who asked, its MX, and the date stamped on the replies. */
  datatype Search = Search(target: string, addr: Address, mx: real, date: string)

  // ---------------------------------------------------------------------
  // Recognising a search

  const SearchPrefixChars: string := "ST: "

  /** The wildcard device target, and the bare one that is answered as if it were the wildcard. */
  const AnyDeviceTarget: string := SearchPrefixChars + "urn:Belkin:device:**"
  const BareDeviceTarget: string := SearchPrefixChars + "urn:Belkin:device:"

  /** The search targets answered, in the order they are tried. */
  const DiscoverPatterns: seq<string> := [
    AnyDeviceTarget,
    BareDeviceTarget,
    SearchPrefixChars + "urn:Belkin:service:basicevent:1",
    SearchPrefixChars + "urn:Belkin:service:insight:1",
    SearchPrefixChars + "upnp:rootdevice",
    SearchPrefixChars + "ssdp:all"
  ]

  /** Looked for in the lower-cased datagram. */
  const DiscoverMan: string := "man: \"ssdp:discover\""

  /** The first of `patterns` that occurs in `data` (Python's `next(..., None)`). */
  function FirstContained(data: string, patterns: seq<string>): (r: Option<string>)
    ensures r.Some? ==> r.value in patterns && Contains(data, r.value)
    ensures r.None? ==> forall k :: 0 <= k < |patterns| ==> !Contains(data, patterns[k])
    decreases |patterns|
  {
    if patterns == [] then None
    else if Contains(data, patterns[0]) then Some(patterns[0])
    else FirstContained(data, patterns[1..])
  }

  /** `FirstContained` picks pattern `k` exactly when it occurs and no earlier one does. */
  lemma {:induction false} FirstContainedIsFirst(data: string, patterns: seq<string>, k: nat)
    requires k < |patterns|
    requires forall i, j :: 0 <= i < j < |patterns| ==> patterns[i] != patterns[j]
    ensures FirstContained(data, patterns) == Some(patterns[k]) <==>
      Contains(data, patterns[k]) && forall j :: 0 <= j < k ==> !Contains(data, patterns[j])
    decreases k
  {
    if k > 0 && !Contains(data, patterns[0]) {
      var rest := patterns[1..];
      assert rest[k - 1] == patterns[k];
      FirstContainedIsFirst(data, rest, k - 1);
      assert forall j :: 0 <= j < k - 1 ==> rest[j] == patterns[j + 1];
    } else if k > 0 {
      assert patterns[0] != patterns[k];
    }
  }

  /** The search target a datagram asks for, if it asks for one of ours. */
  function DiscoverPattern(data: string): Option<string> {
    FirstContained(data, DiscoverPatterns)
  }

  /** `datagram_received` answers a datagram exactly when this holds. */
  predicate IsSearch(data: string) {
    Contains(Lower(data), DiscoverMan) && DiscoverPattern(data).Some?
  }

  lemma DiscoverPatternsDistinct()
    ensures forall i, j :: 0 <= i < j < |DiscoverPatterns| ==> DiscoverPatterns[i] != DiscoverPatterns[j]
  {
    var p := DiscoverPatterns;
    assert |p[0]| == 24 && |p[1]| == 22 && |p[2]| == 35 && |p[3]| == 32 && |p[4]| == 19 && |p[5]| == 12;
  }

  /** The pattern chosen is the first listed one that occurs in the datagram. */
  lemma DiscoverPatternIsFirstMatch(data: string, k: nat)
    requires k < |DiscoverPatterns|
    ensures DiscoverPattern(data) == Some(DiscoverPatterns[k]) <==>
      Contains(data, DiscoverPatterns[k]) && forall j :: 0 <= j < k ==> !Contains(data, DiscoverPatterns[j])
  {
    DiscoverPatternsDistinct();
    FirstContainedIsFirst(data, DiscoverPatterns, k);
  }

  /** A datagram is answered iff it carries the discover header and some listed target. */
  lemma IsSearchIff(data: string)
    ensures IsSearch(data) <==>
      Contains(Lower(data), DiscoverMan) && exists k :: 0 <= k < |DiscoverPatterns| && Contains(data, DiscoverPatterns[k])
  {
    if !DiscoverPattern(data).Some? {
      assert forall k :: 0 <= k < |DiscoverPatterns| ==> !Contains(data, DiscoverPatterns[k]);
    } else {
      var p := DiscoverPattern(data).value;
      var k :| 0 <= k < |DiscoverPatterns| && DiscoverPatterns[k] == p;
    }
  }

  /** The header of a search is recognised in any letter case. */
  lemma DiscoverManAnyCase(data: string, header: string)
    requires Contains(data, header) && Lower(header) == DiscoverMan
    ensures Contains(Lower(data), DiscoverMan)
  {
    ContainsLower(data, header);
  }

  // ---------------------------------------------------------------------
  // The MX value

  const MxPrefix: string := "MX: "

  /**
   * The MX of a search: the last token of its first line that starts with
   * `MX: `, when that token is a decimal number; 0 otherwise.
   */
  function MxValue(data: string): (mx: real)
    ensures mx >= 0.0
  {
    match FirstWithPrefix(SplitLines(data), MxPrefix)
    case None => 0.0
    case Some(line) =>
      var token := LastToken(line);
      if IsMxNumber(token) then MxNumber(token) else 0.0
  }

  /** A search whose first MX line reads `MX: n` has MX `n`. */
  lemma MxValueOfLine(data: string, n: nat)
    requires FirstWithPrefix(SplitLines(data), MxPrefix) == Some(MxPrefix + NatToString(n))
    ensures MxValue(data) == n as real
  {
    var t := NatToString(n);
    assert MxPrefix + t == "MX:" + " " + t;
    assert NoSpace(t) by {
      forall i | 0 <= i < |t| ensures !IsSpace(t[i]) {
        assert IsDigit(t[i]);
      }
    }
    LastTokenAfterSpace("MX:", t);
    MxNumberOfNat(n);
  }

  /** Without an MX line, or with a token that is not a number, MX is 0. */
  lemma MxValueDefault(data: string)
    requires FirstWithPrefix(SplitLines(data), MxPrefix).None?
      || !IsMxNumber(LastToken(FirstWithPrefix(SplitLines(data), MxPrefix).value))
    ensures MxValue(data) == 0.0
  {
  }

  /**
   * `random.random() * max(0, min(5, mx))`: the sleep before a reply, for a
   * draw `u` in [0, 1).
   */
  function SendDelay(u: real, mx: real): (d: real)
    requires 0.0 <= u < 1.0
    ensures 0.0 <= d <= 5.0
    ensures mx >= 0.0 ==> d <= mx
    ensures mx <= 0.0 ==> d == 0.0
    ensures mx > 0.0 ==> d < mx && d < 5.0
  {
    ScaleDown(u, Clamp(mx));
    u * Clamp(mx)
  }

  /** `max(0, min(5, mx))` */
  function Clamp(mx: real): (c: real)
    ensures 0.0 <= c <= 5.0
    ensures mx >= 0.0 ==> c <= mx
    ensures mx <= 0.0 ==> c == 0.0
    ensures mx > 0.0 ==> c > 0.0
  {
    if mx < 0.0 then 0.0 else if mx > 5.0 then 5.0 else mx
  }

  /** A draw from [0, 1) scales a non-negative value down. */
  lemma ScaleDown(u: real, c: real)
    requires 0.0 <= u < 1.0 && 0.0 <= c
    ensures 0.0 <= u * c <= c
    ensures c > 0.0 ==> u * c < c
  {
    assert c - u * c == (1.0 - u) * c;
    if c > 0.0 {
      assert (1.0 - u) * c > 0.0;
    }
  }

  // ---------------------------------------------------------------------
  // The reply to one device

  /** `respond_to_search` answers the bare device target as if it were the wildcard one. */
  function NormalizeTarget(pattern: string): string {
    if pattern == BareDeviceTarget then AnyDeviceTarget else pattern
  }

  /** Normalizing maps every listed target to a listed target other than the bare device one. */
  lemma NormalizeTargetListed(k: nat)
    requires k < |DiscoverPatterns|
    ensures NormalizeTarget(DiscoverPatterns[k]) in DiscoverPatterns
    ensures NormalizeTarget(DiscoverPatterns[k]) != BareDeviceTarget
    ensures k != 1 ==> NormalizeTarget(DiscoverPatterns[k]) == DiscoverPatterns[k]
  {
    DiscoverPatternsDistinct();
  }

  /** `pattern.lstrip("ST: ")`: every leading S, T, colon or space removed. */
  function TargetName(pattern: string): string {
    LStrip(pattern, SearchPrefixChars)
  }

  lemma LStripSearchPrefix(rest: string)
    requires rest != [] && rest[0] !in SearchPrefixChars
    ensures LStrip(SearchPrefixChars + rest, SearchPrefixChars) == rest
  {
    var s := SearchPrefixChars + rest;
    assert s[0] == 'S' && s[1..] == "T: " + rest;
    assert LStrip(s, SearchPrefixChars) == LStrip("T: " + rest, SearchPrefixChars);
    assert ("T: " + rest)[1..] == ": " + rest;
    assert LStrip("T: " + rest, SearchPrefixChars) == LStrip(": " + rest, SearchPrefixChars);
    assert (": " + rest)[1..] == " " + rest;
    assert LStrip(": " + rest, SearchPrefixChars) == LStrip(" " + rest, SearchPrefixChars);
    assert (" " + rest)[1..] == rest;
    assert LStrip(" " + rest, SearchPrefixChars) == LStrip(rest, SearchPrefixChars);
  }

  /** For every target answered, `lstrip("ST: ")` removes exactly the four characters `ST: `. */
  lemma TargetNameDropsPrefix(k: nat)
    requires k < |DiscoverPatterns|
    ensures StartsWith(DiscoverPatterns[k], SearchPrefixChars)
    ensures TargetName(DiscoverPatterns[k]) == DiscoverPatterns[k][4..]
  {
    var rest := if k == 0 then "urn:Belkin:device:**"
      else if k == 1 then "urn:Belkin:device:"
      else if k == 2 then "urn:Belkin:service:basicevent:1"
      else if k == 3 then "urn:Belkin:service:insight:1"
      else if k == 4 then "upnp:rootdevice"
      else "ssdp:all";
    assert DiscoverPatterns[k] == SearchPrefixChars + rest;
    assert rest[0] == 'u' || rest[0] == 's';
    LStripSearchPrefix(rest);
    assert (SearchPrefixChars + rest)[4..] == rest;
  }

  function ShowHost(ip: Option<string>): string {
    match ip
    case Some(h) => h
    case None => "None"
  }

  function ShowPort(port: Option<int>): string {
    match port
    case Some(p) => IntToString(p)
    case None => "None"
  }

  /** Where the device's setup document is fetched from. */
  function Location(d: Device): string {
    "http://" + ShowHost(d.ipAddress) + ":" + ShowPort(d.port) + "/setup.xml"
  }

  /** The unique service name: the device's UDN, `::`, and the stripped search target. */
  function Usn(serial: string, target: string): string {
    Udn(serial) + "::" + TargetName(target)
  }

  /** The lines of the reply, `nls` being the random `01-NLS` value. */
  function SearchResponseLines(d: Device, serial: string, target: string, date: string, nls: string): seq<string> {
    [ "HTTP/1.1 200 OK",
      "CACHE-CONTROL: max-age=86400",
      "DATE: " + date,
      "EXT:",
      "LOCATION: " + Location(d),
      "OPT: \"http://schemas.upnp.org/upnp/1/0/\"; ns=01",
      "01-NLS: " + nls,
      "SERVER: Unspecified, UPnP/1.0, Unspecified",
      target,
      "USN: " + Usn(serial, target) ]
  }

  /** The lines joined with CRLF, followed by an empty line. */
  function SearchResponse(d: Device, serial: string, target: string, date: string, nls: string): string {
    Join(CRLF, SearchResponseLines(d, serial, target, date, nls)) + CRLF + CRLF
  }

  /** The reply contains the `LOCATION` line, the `USN` line and the target line. */
  lemma SearchResponseFields(d: Device, serial: string, target: string, date: string, nls: string)
    ensures var r := SearchResponse(d, serial, target, date, nls);
      Contains(r, "LOCATION: " + Location(d))
      && Contains(r, "USN: " + Usn(serial, target))
      && Contains(r, target)
  {
    var lines := SearchResponseLines(d, serial, target, date, nls);
    assert SearchResponse(d, serial, target, date, nls) == Join(CRLF, lines) + (CRLF + CRLF);
    JoinedContains(CRLF, lines, 4, CRLF + CRLF);
    JoinedContains(CRLF, lines, 8, CRLF + CRLF);
    JoinedContains(CRLF, lines, 9, CRLF + CRLF);
  }

  /** The reply starts with the status line and ends with an empty line. */
  lemma SearchResponseFraming(d: Device, serial: string, target: string, date: string, nls: string)
    ensures var r := SearchResponse(d, serial, target, date, nls);
      StartsWith(r, "HTTP/1.1 200 OK") && r[|r| - 4..] == CRLF + CRLF
  {
    var lines := SearchResponseLines(d, serial, target, date, nls);
    var r := SearchResponse(d, serial, target, date, nls);
    assert r == Join(CRLF, lines) + (CRLF + CRLF);
    JoinedStartsWith(CRLF, lines, CRLF + CRLF);
  }

  /** The USN carries the same UDN as the setup document served for that name and serial. */
  lemma UsnMatchesSetup(name: string, serial: string, target: string)
    ensures StartsWith(Usn(serial, target), Udn(serial) + "::")
    ensures Contains(SetupXml(name, serial), Element("UDN", Udn(serial)))
  {
    SetupXmlEmbedsIdentity(name, serial);
  }

  /** The reply scheduled for the device at position `i` of the list. */
  function ReplyTo(d: Device, i: nat, search: Search, nls: nat -> string, makeSerial: string -> string): Send {
    Send(Encode(SearchResponse(d, makeSerial(d.name), search.target, search.date, nls(i))), search.addr, search.mx)
  }

  /** `[reply(d, i) for i, d in enumerate(devices)]`, built from the back. */
  function Sequenced(devices: seq<Device>, reply: (Device, nat) -> Send): seq<Send>
    decreases |devices|
  {
    if devices == [] then []
    else
      var n := |devices| - 1;
      Sequenced(devices[..n], reply) + [reply(devices[n], n)]
  }

  lemma {:induction false} SequencedInOrder(devices: seq<Device>, reply: (Device, nat) -> Send)
    ensures |Sequenced(devices, reply)| == |devices|
    ensures forall i :: 0 <= i < |devices| ==> Sequenced(devices, reply)[i] == reply(devices[i], i)
    decreases |devices|
  {
    if devices != [] {
      var n := |devices| - 1;
      SequencedInOrder(devices[..n], reply);
      assert forall i :: 0 <= i < n ==> devices[..n][i] == devices[i];
    }
  }

  /** The replies to a search, device by device. */
  function Replies(devices: seq<Device>, search: Search, nls: nat -> string, makeSerial: string -> string): seq<Send> {
    Sequenced(devices, (d: Device, i: nat) => ReplyTo(d, i, search, nls, makeSerial))
  }

  /** One reply per device, in the devices' order. */
  lemma RepliesInOrder(devices: seq<Device>, search: Search, nls: nat -> string, makeSerial: string -> string)
    ensures |Replies(devices, search, nls, makeSerial)| == |devices|
    ensures forall i :: 0 <= i < |devices| ==>
      Replies(devices, search, nls, makeSerial)[i] == ReplyTo(devices[i], i, search, nls, makeSerial)
  {
    SequencedInOrder(devices, (d: Device, i: nat) => ReplyTo(d, i, search, nls, makeSerial));
  }

  /** Every reply goes to the searcher, under the search's MX. */
  lemma RepliesGoToSearcher(devices: seq<Device>, search: Search, nls: nat -> string, makeSerial: string -> string)
    ensures forall s :: s in Replies(devices, search, nls, makeSerial) ==> s.addr == search.addr && s.mx == search.mx
  {
    RepliesInOrder(devices, search, nls, makeSerial);
  }

  /**
   * The reply at position `i` is the encoded response for device `i`: it
   * names that device's setup location and its own serial in the USN.
   */
  lemma ReplyNamesItsDevice(devices: seq<Device>, search: Search, nls: nat -> string, makeSerial: string -> string, i: nat)
    requires i < |devices|
    ensures var d := devices[i];
      var r := SearchResponse(d, makeSerial(d.name), search.target, search.date, nls(i));
      && i < |Replies(devices, search, nls, makeSerial)|
      && Replies(devices, search, nls, makeSerial)[i].payload == Encode(r)
      && Contains(r, "LOCATION: " + Location(d))
      && Contains(r, "USN: " + Usn(makeSerial(d.name), search.target))
  {
    RepliesInOrder(devices, search, nls, makeSerial);
    var d := devices[i];
    SearchResponseFields(d, makeSerial(d.name), search.target, search.date, nls(i));
  }

  // ---------------------------------------------------------------------
  // The server

  class SSDPServer {
    var devices: seq<Device>
    /** The replies scheduled so far, oldest first. */
    var pending: seq<Send>
    /** `make_serial`, the serial number derived from a device name. */
    const makeSerial: string -> string

    constructor (devices: seq<Device>, makeSerial: string -> string)
      ensures this.devices == devices && pending == [] && this.makeSerial == makeSerial
    {
      this.devices := devices;
      pending := [];
      this.makeSerial := makeSerial;
    }

    method AddDevice(name: string, ipAddress: string, port: int)
      modifies this
      ensures devices == old(devices) + [Device(name, Some(ipAddress), Some(port))]
      ensures pending == old(pending)
    {
      devices := devices + [Device(name, Some(ipAddress), Some(port))];
    }

    /** Schedule one reply per device, in order, for the normalized target. */
    method RespondToSearch(addr: Address, pattern: string, mx: real, date: string, nls: nat -> string)
      modifies this
      ensures devices == old(devices)
      ensures pending == old(pending)
        + Replies(devices, Search(NormalizeTarget(pattern), addr, mx, date), nls, makeSerial)
    {
      var target := NormalizeTarget(pattern);
      var search := Search(target, addr, mx, date);
      var i := 0;
      while i < |devices|
        invariant 0 <= i <= |devices|
        invariant devices == old(devices)
        invariant pending == old(pending) + Replies(devices[..i], search, nls, makeSerial)
      {
        var d := devices[i];
        var response := SearchResponse(d, makeSerial(d.name), target, date, nls(i));
        pending := pending + [Send(Encode(response), addr, mx)];
        assert devices[..i + 1][..i] == devices[..i];
        i := i + 1;
      }
      assert devices[..i] == devices;
    }

    /** Answer a datagram that searches for one of our targets; ignore any other. */
    method DatagramReceived(data: string, addr: Address, date: string, nls: nat -> string)
      modifies this
      ensures devices == old(devices)
      ensures !IsSearch(data) ==> pending == old(pending)
      ensures IsSearch(data) ==> (pending == old(pending)
        + Replies(devices, Search(NormalizeTarget(DiscoverPattern(data).value), addr, MxValue(data), date), nls, makeSerial))
    {
      var pattern := FirstContained(data, DiscoverPatterns);
      if Contains(Lower(data), DiscoverMan) && pattern.Some? {
        var mx := 0.0;
        var mxLine := FirstWithPrefix(SplitLines(data), MxPrefix);
        if mxLine.Some? {
          var token := LastToken(mxLine.value);
          if IsMxNumber(token) {
            mx := MxNumber(token);
          }
        }
        RespondToSearch(addr, pattern.value, mx, date, nls);
      }
    }
  }
}
