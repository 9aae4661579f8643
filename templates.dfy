/**
 * The documents a Fauxmo device sends: the setup (device description)
 * document, the SOAP action and time-sync envelopes, and the three static
 * service descriptions.
 */
module Templates {

  import opened Wrappers
  import opened Strings
  import opened Decimal

  /**
   * The XML of the insight, event-service and meta-info service
   * descriptions. They are fixed texts that no input changes; the model
   * takes them as arbitrary strings.
   */
  datatype ServiceDocuments = ServiceDocuments(insight: string, eventService: string, metaInfo: string)

  /** A service description as sent: its XML followed by an empty line. */
  function ServiceDocument(xml: string): string {
    xml + CRLF + CRLF
  }

  // The fixed parts of the device description, one literal per line of the
  // template, so that each stays short.
  const SetupHead: string :=
    "<?xml version=\"1.0\"?>"
    + "<root xmlns=\"urn:Belkin:device-1-0\">"
    + "<specVersion><major>1</major><minor>0</minor></specVersion>"
    + "<device>"
    + "<deviceType>urn:Belkin:device:insight:1</deviceType>"
  const SetupMiddle: string :=
    "<manufacturer>Belkin International Inc.</manufacturer>"
    + "<modelName>Insight</modelName>"
    + "<modelNumber>1.0</modelNumber>"
  const SetupTail: string :=
    "<UPC>123456789</UPC>"
    + "<macAddress>001122334455</macAddress>"
    + "<firmwareVersion>WeMo_WW_2.00.11532.PVT-OWRT-InsightV2</firmwareVersion>"
    + "<iconVersion>3|49153</iconVersion>"
    + "<binaryState>0</binaryState>"
    + "<binaryOption>1</binaryOption>"
    + "<serviceList>"
    + "<service>"
    + "<serviceType>urn:Belkin:service:basicevent:1</serviceType>"
    + "<serviceId>urn:Belkin:serviceId:basicevent1</serviceId>"
    + "<controlURL>/upnp/control/basicevent1</controlURL>"
    + "<eventSubURL>/upnp/event/basicevent1</eventSubURL>"
    + "<SCPDURL>/eventservice.xml</SCPDURL>"
    + "</service>"
    + "<service>"
    + "<serviceType>urn:Belkin:service:metainfo:1</serviceType>"
    + "<serviceId>urn:Belkin:serviceId:metainfo1</serviceId>"
    + "<controlURL>/upnp/control/metainfo1</controlURL>"
    + "<eventSubURL>/upnp/event/metainfo1</eventSubURL>"
    + "<SCPDURL>/metainfoservice.xml</SCPDURL>"
    + "</service>"
    + "<service>"
    + "<serviceType>urn:Belkin:service:insight:1</serviceType>"
    + "<serviceId>urn:Belkin:serviceId:insight1</serviceId>"
    + "<controlURL>/upnp/control/insight1</controlURL>"
    + "<eventSubURL>/upnp/event/insight1</eventSubURL>"
    + "<SCPDURL>/insightservice.xml</SCPDURL>"
    + "</service>"
    + "</serviceList>"
    + "</device>"
    + "</root>"

  function OpenTag(tag: string): string {
    "<" + tag + ">"
  }

  function CloseTag(tag: string): string {
    "</" + tag + ">"
  }

  /** `<tag>value</tag>` */
  function Element(tag: string, value: string): string {
    OpenTag(tag) + value + CloseTag(tag)
  }

  /** The unique device name a serial number is advertised under. */
  function Udn(serial: string): string {
    "uuid:Insight-1_0-" + serial
  }

  /** The device description sent for `GET /setup.xml`. */
  function SetupXml(name: string, serial: string): string {
    SetupHead
    + Element("friendlyName", name)
    + SetupMiddle
    + Element("serialNumber", serial)
    + Element("UDN", Udn(serial))
    + SetupTail
  }

  lemma FiveParts(a: string, p: string, b: string, q: string, r: string, c: string)
    ensures Contains(a + p + b + q + r + c, p)
    ensures Contains(a + p + b + q + r + c, q)
    ensures Contains(a + p + b + q + r + c, r)
  {
    var x := a + p + b + q + r + c;
    assert x == a + p + (b + q + r + c);
    ContainsInfix(a, p, b + q + r + c);
    assert x == (a + p + b) + q + (r + c);
    ContainsInfix(a + p + b, q, r + c);
    assert x == (a + p + b + q) + r + c;
    ContainsInfix(a + p + b + q, r, c);
  }

  /** The setup document names the device and carries its serial twice. */
  lemma SetupXmlEmbedsIdentity(name: string, serial: string)
    ensures Contains(SetupXml(name, serial), Element("friendlyName", name))
    ensures Contains(SetupXml(name, serial), Element("serialNumber", serial))
    ensures Contains(SetupXml(name, serial), Element("UDN", Udn(serial)))
  {
    FiveParts(SetupHead, Element("friendlyName", name), SetupMiddle,
      Element("serialNumber", serial), Element("UDN", Udn(serial)), SetupTail);
  }

  // ---------------------------------------------------------------------
  // SOAP action responses

  /** What `handle_action` fills into its SOAP response template. */
  datatype SoapReply = SoapReply(action: string, actionType: string, serviceType: string, returnVal: string)

  /** The opening tag shared by every SOAP envelope. */
  const SoapEnvelopeOpen: string :=
    "<s:Envelope "
    + "xmlns:s=\"http://schemas.xmlsoap.org/soap/envelope/\" "
    + "s:encodingStyle=\"http://schemas.xmlsoap.org/soap/encoding/\">"

  function EnvelopeOpen(action: string, actionType: string, serviceType: string): string {
    SoapEnvelopeOpen
    + "<s:Body>"
    + "<u:" + action + actionType + "Response "
    + "xmlns:u=\"urn:Belkin:service:" + serviceType + ":1\">"
  }

  function EnvelopeClose(action: string, actionType: string): string {
    "<CountdownEndTime>0</CountdownEndTime>"
    + "<deviceCurrentTime>1611532922</deviceCurrentTime>"
    + "</u:" + action + actionType + "Response>"
    + "</s:Body>"
    + "</s:Envelope>"
  }

  function Envelope(r: SoapReply): string {
    EnvelopeOpen(r.action, r.actionType, r.serviceType)
    + Element(r.actionType, r.returnVal)
    + EnvelopeClose(r.action, r.actionType)
  }

  /** The text of `env` between a known head and a known tail. */
  function Between(head: string, tail: string, env: string): Option<string> {
    if |head| + |tail| <= |env| && env[..|head|] == head && env[|env| - |tail|..] == tail
    then Some(env[|head|..|env| - |tail|])
    else None
  }

  /** An element placed between two texts is found in, and read back from, the whole. */
  lemma ElementReadBack(before: string, tag: string, v: string, after: string)
    ensures var env := before + Element(tag, v) + after;
      Contains(env, Element(tag, v))
      && Between(before + OpenTag(tag), CloseTag(tag) + after, env) == Some(v)
  {
    var head := before + OpenTag(tag);
    var tail := CloseTag(tag) + after;
    var env := before + Element(tag, v) + after;
    ContainsInfix(before, Element(tag, v), after);
    assert env == head + v + tail;
    assert env[..|head|] == head && env[|env| - |tail|..] == tail && env[|head|..|env| - |tail|] == v;
  }

  /**
   * What a client reads out of a SOAP response it expects for the given
   * action: the text between the opening and the closing value element.
   */
  function ReturnValue(action: string, actionType: string, serviceType: string, env: string): Option<string> {
    Between(EnvelopeOpen(action, actionType, serviceType) + OpenTag(actionType),
      CloseTag(actionType) + EnvelopeClose(action, actionType), env)
  }

  /** The return value rendered into an envelope is read back unchanged. */
  lemma ReturnValueOfEnvelope(r: SoapReply)
    ensures ReturnValue(r.action, r.actionType, r.serviceType, Envelope(r)) == Some(r.returnVal)
  {
    ElementReadBack(EnvelopeOpen(r.action, r.actionType, r.serviceType), r.actionType, r.returnVal,
      EnvelopeClose(r.action, r.actionType));
  }

  /** The envelope carries `<Type>value</Type>`. */
  lemma EnvelopeCarriesValue(r: SoapReply)
    ensures Contains(Envelope(r), Element(r.actionType, r.returnVal))
  {
    ElementReadBack(EnvelopeOpen(r.action, r.actionType, r.serviceType), r.actionType, r.returnVal,
      EnvelopeClose(r.action, r.actionType));
  }

  // ---------------------------------------------------------------------
  // Time-sync responses

  const TimeSyncOpen: string :=
    SoapEnvelopeOpen
    + "<s:Body>"
    + "<u:TimeSyncResponse "
    + "xmlns:u=\"urn:Belkin:service:timesync:1\">"
  const TimeSyncClose: string := "</u:TimeSyncResponse>" + "</s:Body>" + "</s:Envelope>"

  /** The time-sync envelope for `now`, the whole seconds of the Unix clock. */
  function TimeSyncEnvelope(now: int): string {
    TimeSyncOpen + Element("UTC", IntToString(now)) + TimeSyncClose
  }

  /** What a client reads as the time out of a time-sync response. */
  function TimeSyncValue(env: string): Option<string> {
    Between(TimeSyncOpen + OpenTag("UTC"), CloseTag("UTC") + TimeSyncClose, env)
  }

  /** The time-sync reply carries `<UTC>now</UTC>`, and a client reads `now` back from it. */
  lemma TimeSyncCarriesTime(now: int)
    ensures Contains(TimeSyncEnvelope(now), Element("UTC", IntToString(now)))
    ensures TimeSyncValue(TimeSyncEnvelope(now)) == Some(IntToString(now))
  {
    ElementReadBack(TimeSyncOpen, "UTC", IntToString(now), TimeSyncClose);
  }
}
