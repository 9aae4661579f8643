# Fauxmo protocols, modelled in Dafny

Fauxmo makes a computer look like a set of Belkin WeMo devices to an Amazon
Echo. This project models the module that speaks the two protocols,
`src/fauxmo/protocols.py`:

- `Fauxmo` is the TCP side of one emulated device. It classifies each HTTP
  request. It answers with the device description (`setup.xml`), one of the
  three service descriptions, a time-sync envelope, or the SOAP reply to a
  control action. Every answer goes behind a fixed block of HTTP headers, and
  then the connection is closed.
- `SSDPServer` is the UDP side. It treats a datagram as a search when two
  substring tests pass: the header `man: "ssdp:discover"` occurs in it in
  some letter case, and one of the advertised search targets occurs in it.
  It then reads the datagram's `MX` value. It then schedules
  one reply per registered device. Each reply carries the device's `LOCATION`
  and `USN`, and goes out after a random delay clamped to `[0, min(5, MX)]`.

The modules follow the program's structure:

- `Wrappers`: `Option`.
- `Strings`: the Python string operations the code relies on. These are
  `in`, `startswith`, `lower`/`casefold` (ASCII), `replace(" ", "")`,
  `join`, `lstrip`, `splitlines` and `split()[-1]`. `splitlines` and `split`
  use Python's own sets of line-boundary and whitespace characters.
- `Decimal`: `str(int)`, and `float(tok)` after `tok.replace(".", "", 1).isnumeric()`.
- `Utf8`: `str.encode("utf8")`.
- `Http`: `add_http_headers`, and how a client reads a response back.
- `Templates`: the device description, the SOAP envelopes and the time-sync
  envelope.
- `Requests`: the request classifier and the SOAP action selection. It also
  holds `ActionReply`, the reply `handle_action` renders for a given plugin
  answer.
- `Collaborators`: the asyncio TCP transport and the plugin, as classes. The
  plugin's `on`, `off` and `get_state` return unconstrained values, and the
  plugin keeps a log of every call with the value it returned.
- `FauxmoProtocol`: the class `Fauxmo`.
- `Ssdp`: the search recognition, the reply rendering and the class
  `SSDPServer`.

Inputs the code takes from the environment are parameters:

- the HTTP date string;
- the Unix time of the time-sync reply;
- the `random.randint(1000, 300000)` insight sample;
- the `uuid4` value of each SSDP reply, as a function of the device's position;
- the `random.random()` draw of each send delay;
- `make_serial`, as a function `string -> string` given to both constructors.
  The setup document and the SSDP `USN` carry the same serial only when both
  objects are built with the same function. The model does not tie the two
  objects together.

Three details of the code that a reader might not expect:

- The control routes require the literal suffix ` HTTP/1.1` after
  `/upnp/control/insight1`, `/timesync1` and `/basicevent1`.
- The MX value is kept as parsed and clamped only when the delay is computed
  (`SendDelay`). The clamp is not applied when the MX value is read.
- `handle_setup` renders its document before it checks for a transport.
  `HandleSetup` keeps that order, although it is not observable.

## Model

| member | source | states |
|---|---|---|
| Requests.Classify | src/fauxmo/protocols.py:63-92 | the route `data_received` picks: setup line prefix, then the three service documents, then the three POST control paths, in the source's order |
| Requests.ClassifyIsFirstMatch | src/fauxmo/protocols.py:63-92 | classification is first match over the seven request shapes in priority order; a request of no shape is unrecognized, and the converse holds too |
| Requests.GetIsNeverControl | src/fauxmo/protocols.py:75-92 | a request starting with `GET` never reaches a control handler |
| Requests.SetupLineWins | src/fauxmo/protocols.py:63-65 | a request starting with `GET /setup.xml HTTP/1.1` is a setup request, whatever follows |
| Requests.HasToken | src/fauxmo/protocols.py:217 | defines the token test: the case-folded token occurs in the case-folded request with its spaces deleted |
| Requests.ActionOf | src/fauxmo/protocols.py:217-262 | defines the action carried out: the GetBinaryState, GetInsightParams, SetBinaryState and GetFriendlyName tokens are tried in this order; each branch is stated by the lemmas below |
| Requests.HasTokenIgnoresSpace | src/fauxmo/protocols.py:217 | inserting a space anywhere in the request does not change whether an action token is found |
| Requests.HasTokenIgnoresCase | src/fauxmo/protocols.py:217 | lower-casing the request does not change whether an action token is found |
| Requests.HasTokenKeepsOthers | src/fauxmo/protocols.py:217 | in a request without spaces, a token is found exactly when it occurs case-folded in the case-folded request: only spaces are ignored |
| Requests.TabIsNotIgnored | src/fauxmo/protocols.py:217 | a space inside a token is ignored, a tab is not |
| Requests.SwitchOf | src/fauxmo/protocols.py:242-253 | defines the switch direction: the off marker is tested first, then the on marker, both case-sensitively |
| Requests.PluginCall | src/fauxmo/protocols.py:217-253 | defines the one plugin method a request calls: `get_state` for GetBinaryState, `off`/`on` as `SwitchOf` says for SetBinaryState, none otherwise |
| Requests.InsightParams | src/fauxmo/protocols.py:229-234 | defines the GetInsightParams telemetry line with the random sample in its eighth field |
| Requests.ActionReply | src/fauxmo/protocols.py:217-266 | defines the SOAP reply rendered for a plugin answer, or none when `success` stays false |
| Requests.GetBinaryStateReply | src/fauxmo/protocols.py:217-228 | GetBinaryState calls `get_state`; a state of `on`/`off` in any letter case replies `1`/`0`; any other state gives no reply |
| Requests.SetBinaryStateReply | src/fauxmo/protocols.py:238-253 | SetBinaryState looks for the off marker first and case-sensitively; with neither marker no plugin call and no reply; otherwise a reply exists exactly when the plugin call succeeded, carrying that direction's metering line |
| Requests.AlwaysAnsweredActions | src/fauxmo/protocols.py:229-236 | GetInsightParams and GetFriendlyName call nothing and always reply; the friendly name is the plugin's name and the insight line carries the random sample |
| Requests.NoActionNoReply | src/fauxmo/protocols.py:263-275 | a request naming no known action calls nothing and gets no reply |
| Http.AddHttpHeaders | src/fauxmo/protocols.py:617-638 | defines the response: the fixed header lines, CONTENT-LENGTH and DATE, `CONNECTION: close` with an extra CRLF, then the body, all joined by CRLF |
| Http.AddHttpHeadersShape | src/fauxmo/protocols.py:617-638 | the response is the eight header lines joined by CRLF, a blank line, then the body verbatim |
| Http.ReadBackResponse | src/fauxmo/protocols.py:617-638 | splitting at the first blank line gives the header block and exactly the body; the CONTENT-LENGTH read from the headers equals the body's UTF-8 byte count; the encoded response ends with the encoded body |
| Http.FirstBlankLineAfter | src/fauxmo/protocols.py:635 | the blank line after the header block is the first one in the response |
| Utf8.Encode | src/fauxmo/protocols.py:629 | defines UTF-8 encoding, character by character |
| Utf8.EncodeLength | src/fauxmo/protocols.py:629 | each character takes one to four UTF-8 bytes; the byte count equals the character count exactly for ASCII text |
| Utf8.EncodeConcat | src/fauxmo/protocols.py:629 | encoding distributes over concatenation |
| Decimal.IntToString | src/fauxmo/protocols.py:112-114 | defines `str(i)` for any integer: a minus sign before the digits of a negative one |
| Decimal.NatToString | src/fauxmo/protocols.py:629 | `str(n)` is a non-empty run of digits with no leading zero |
| Decimal.ParseNatToString | src/fauxmo/protocols.py:629 | the decimal CONTENT-LENGTH written out reads back as the same number |
| Decimal.IsMxNumber | src/fauxmo/protocols.py:718 | defines the test `tok.replace(".", "", 1).isnumeric()` on ASCII digits |
| Decimal.MxNumber | src/fauxmo/protocols.py:718-719 | an accepted MX token denotes a non-negative number |
| Decimal.MxNumberOfNat | src/fauxmo/protocols.py:718-719 | a whole number written in decimal is accepted and reads back as itself |
| Templates.SetupXml | src/fauxmo/protocols.py:122-165 | defines the setup document, literal line by literal line, with the name and serial filled in |
| Templates.SetupXmlEmbedsIdentity | src/fauxmo/protocols.py:122-165 | the setup document contains `<friendlyName>` with the name, `<serialNumber>` with the serial, and `<UDN>` with the serial's UUID |
| Templates.Envelope | src/fauxmo/protocols.py:188-200 | defines the SOAP reply envelope filled with action, type, service and value |
| Templates.ReturnValueOfEnvelope | src/fauxmo/protocols.py:188-200 | the return value rendered into a SOAP envelope is read back unchanged between its opening and closing elements |
| Templates.EnvelopeCarriesValue | src/fauxmo/protocols.py:188-200 | the envelope contains `<actionType>value</actionType>` |
| Templates.TimeSyncEnvelope | src/fauxmo/protocols.py:99-114 | defines the time-sync envelope with the whole seconds `now` |
| Templates.ServiceDocument | src/fauxmo/protocols.py:522 | defines a service description as sent: its XML and then two CRLFs |
| Templates.TimeSyncCarriesTime | src/fauxmo/protocols.py:99-113 | the time-sync envelope contains `<UTC>now</UTC>`, and a client reads `now` back from it |
| Collaborators.Transport.Write | src/fauxmo/protocols.py:117 | a write appends its bytes and does not close |
| Collaborators.Transport.Close | src/fauxmo/protocols.py:118 | a close counts one close and writes nothing |
| Collaborators.Plugin.GetState | src/fauxmo/protocols.py:223 | one `get_state` call, logged with the state it returned; the state is arbitrary |
| Collaborators.Plugin.On | src/fauxmo/protocols.py:250 | one `on` call, logged with its result; the result is arbitrary |
| Collaborators.Plugin.Off | src/fauxmo/protocols.py:245 | one `off` call, logged with its result; the result is arbitrary |
| FauxmoProtocol.Fauxmo.constructor | src/fauxmo/protocols.py:26-37 | the serial is `make_serial(name)` and there is no transport yet |
| FauxmoProtocol.Fauxmo.ConnectionMade | src/fauxmo/protocols.py:39-48 | the transport is the one given |
| FauxmoProtocol.Fauxmo.HandleSetup | src/fauxmo/protocols.py:120-174 | with a transport: exactly one write of the encoded headed setup document, then one close; without one: fails, changing nothing |
| FauxmoProtocol.Fauxmo.HandleEvent | src/fauxmo/protocols.py:566-615 | with a transport: one write of the headed event-service document, then one close; without one: fails, changing nothing |
| FauxmoProtocol.Fauxmo.HandleMetaInfo | src/fauxmo/protocols.py:529-564 | with a transport: one write of the headed meta-info document, then one close; without one: fails, changing nothing |
| FauxmoProtocol.Fauxmo.HandleInsight | src/fauxmo/protocols.py:278-527 | with a transport: one write of the headed insight document, then one close; without one: fails, changing nothing |
| FauxmoProtocol.Fauxmo.HandleTimeSync | src/fauxmo/protocols.py:94-118 | with a transport: one write of the headed time-sync envelope for `now`, whatever the request body, then one close; without one: fails, changing nothing |
| FauxmoProtocol.Logged | src/fauxmo/protocols.py:223-250 | defines what the plugin log gains for a call and its answer: nothing for no call, else that call with its result |
| FauxmoProtocol.LoggedDeterminesAnswer | src/fauxmo/protocols.py:223-250 | the log gains one entry per plugin call, and a fitting answer is determined by that entry: the answer is exactly what the plugin returned |
| FauxmoProtocol.ActionSucceedsIff | src/fauxmo/protocols.py:215-262 | `success`: GetBinaryState succeeds exactly when the state folds to `on` or `off`; SetBinaryState with a marker exactly when `off`/`on` returned true, without one never; GetInsightParams and GetFriendlyName always; no action never |
| FauxmoProtocol.ActionWritesIffSuccess | src/fauxmo/protocols.py:263-270 | at most one write, made exactly when there is a reply; for SetBinaryState with a marker, exactly when the plugin returned true |
| FauxmoProtocol.Fauxmo.QueryState | src/fauxmo/protocols.py:217-228 | one `get_state` call, logged; the answer is the state it returned, and the reply is `ActionReply` of that state |
| FauxmoProtocol.Fauxmo.Switch | src/fauxmo/protocols.py:238-253 | exactly the `off`/`on` call `PluginCall` names, logged; the answer is the value it returned, and the reply is `ActionReply` of it |
| FauxmoProtocol.Fauxmo.Perform | src/fauxmo/protocols.py:215-262 | the plugin log grows by exactly the call `PluginCall` names with its result, the answer is that result, and the reply is `ActionReply` of it |
| FauxmoProtocol.Fauxmo.HandleAction | src/fauxmo/protocols.py:176-276 | with a transport: the plugin log grows by exactly the call `PluginCall` names with its result, and the answer is that result; the writes grow by the reply `ActionReply` gives for it, if any, encoded behind the headers; exactly one close in every case; without a transport: fails, calling and changing nothing |
| FauxmoProtocol.Fauxmo.HandleDocument | src/fauxmo/protocols.py:63-91 | the non-control handlers write their document once and close |
| FauxmoProtocol.Fauxmo.DataReceived | src/fauxmo/protocols.py:50-92 | an unrecognized request writes, closes and calls nothing; a control request behaves as `HandleAction`, its answer being what the plugin returned; any other request writes its document once and closes; with no transport a recognized request fails |
| Ssdp.FirstContained | src/fauxmo/protocols.py:700-702 | the pattern found occurs in the datagram; `None` only when no listed pattern occurs |
| Ssdp.DiscoverPattern | src/fauxmo/protocols.py:691-702 | defines the target chosen: the first of the six listed targets the datagram contains |
| Ssdp.IsSearch | src/fauxmo/protocols.py:703-706 | defines the search test: the lower-cased datagram holds `man: "ssdp:discover"` and some target was chosen |
| Ssdp.FirstContainedIsFirst | src/fauxmo/protocols.py:700-702 | with distinct patterns, pattern `k` is chosen exactly when it occurs and no earlier pattern does |
| Ssdp.DiscoverPatternIsFirstMatch | src/fauxmo/protocols.py:691-702 | over the six search targets, the target chosen is the first listed one that occurs |
| Ssdp.IsSearchIff | src/fauxmo/protocols.py:703-706 | a datagram is answered exactly when its lower-cased text holds `man: "ssdp:discover"` and it holds some listed target |
| Ssdp.DiscoverManAnyCase | src/fauxmo/protocols.py:704 | a datagram holding the discover header in any letter case passes the header test |
| Ssdp.MxValue | src/fauxmo/protocols.py:707-719 | the MX read from a datagram is never negative |
| Ssdp.MxValueOfLine | src/fauxmo/protocols.py:707-719 | when the first line starting with `MX: ` is `MX: n`, the MX is `n` |
| Ssdp.MxValueDefault | src/fauxmo/protocols.py:707-719 | with no MX line, or a token that is not a number, the MX is 0 |
| Ssdp.SendDelay | src/fauxmo/protocols.py:766-771 | the sleep is within `[0, 5]`, at most the MX, zero when the MX is not positive, and strictly below both 5 and the MX when the MX is positive |
| Ssdp.Clamp | src/fauxmo/protocols.py:770 | `max(0, min(5, mx))` lies in `[0, 5]`, does not exceed a non-negative MX, and is zero for a non-positive MX |
| Ssdp.NormalizeTarget | src/fauxmo/protocols.py:732-733 | defines the rewrite of the bare device target to `ST: urn:Belkin:device:**` |
| Ssdp.NormalizeTargetListed | src/fauxmo/protocols.py:732-733 | normalizing maps every listed target to a listed target other than the bare `ST: urn:Belkin:device:`, and leaves the others unchanged |
| Ssdp.TargetName | src/fauxmo/protocols.py:745 | defines the USN suffix as `lstrip("ST: ")` of the target |
| Ssdp.TargetNameDropsPrefix | src/fauxmo/protocols.py:743-746 | for every listed target, `lstrip("ST: ")` removes exactly the four characters `ST: ` |
| Ssdp.Location | src/fauxmo/protocols.py:741 | defines `http://{ip_address}:{port}/setup.xml`, with `None` for a missing field |
| Ssdp.Usn | src/fauxmo/protocols.py:743-746 | defines the USN: the UDN of the serial, `::`, then the target name |
| Ssdp.SearchResponse | src/fauxmo/protocols.py:748-761 | defines a search reply: its ten lines joined by CRLF, then two CRLFs |
| Ssdp.SearchResponseFields | src/fauxmo/protocols.py:739-761 | a reply contains the `LOCATION` line, the `USN` line and the `ST` target line |
| Ssdp.SearchResponseFraming | src/fauxmo/protocols.py:739-761 | a reply starts with the status line `HTTP/1.1 200 OK` and ends with an empty line |
| Ssdp.SequencedInOrder | src/fauxmo/protocols.py:736-764 | rendering a sequence of devices gives one item per device, the `i`-th rendered from device `i` at index `i` |
| Ssdp.UsnMatchesSetup | src/fauxmo/protocols.py:132-133 | the USN starts with the same UDN that the setup document for that serial contains |
| Ssdp.Replies | src/fauxmo/protocols.py:736-764 | defines the replies to one search: one rendered per device, in registry order |
| Ssdp.RepliesInOrder | src/fauxmo/protocols.py:736-764 | a search produces one reply per device, in device order, the `i`-th rendered for device `i` |
| Ssdp.RepliesGoToSearcher | src/fauxmo/protocols.py:762-764 | every reply goes to the searcher under the search's MX |
| Ssdp.ReplyNamesItsDevice | src/fauxmo/protocols.py:736-764 | the `i`-th reply's payload encodes the response for device `i`, holding that device's `LOCATION` and its own serial in the `USN` |
| Ssdp.SSDPServer.constructor | src/fauxmo/protocols.py:644-652 | the registry is the devices given, and nothing is scheduled |
| Ssdp.SSDPServer.AddDevice | src/fauxmo/protocols.py:654-664 | the registry grows by exactly the one device given, at the end |
| Ssdp.SSDPServer.RespondToSearch | src/fauxmo/protocols.py:723-764 | the scheduled replies grow by exactly `Replies` for the normalized target; the registry is unchanged |
| Ssdp.SSDPServer.DatagramReceived | src/fauxmo/protocols.py:675-721 | a datagram that is not a search schedules nothing; a search schedules the replies for its first matching target and its parsed MX |
| Strings.ContainsIff | src/fauxmo/protocols.py:66 | Python's `p in s` holds exactly when `p` occurs at some index of `s` |
| Strings.SplitLinesJoin | src/fauxmo/protocols.py:711 | `splitlines` of lines joined by CRLF gives those lines back |
| Strings.FirstWithPrefix | src/fauxmo/protocols.py:708-715 | the line found is the first line that starts with the prefix; `None` only when no line does |
| Strings.SplitLines | src/fauxmo/protocols.py:711 | defines `splitlines` over Python's line boundaries, a CR LF pair ending one line |
| Strings.LastToken | src/fauxmo/protocols.py:717 | defines `split()[-1]` as the last run of non-whitespace characters |
| Strings.RemoveSpaces | src/fauxmo/protocols.py:217 | defines `replace(" ", "")`, character by character |
| Strings.RemoveSpacesKeepsOthers | src/fauxmo/protocols.py:217 | a text without spaces is kept whole |
| Strings.RemoveSpacesKeepsChar | src/fauxmo/protocols.py:217 | a character other than a space is kept, in its place between what remains of the text around it |
| Strings.StartsWith | src/fauxmo/protocols.py:63-76 | defines `str.startswith`: the text begins with the prefix |
| Strings.Join | src/fauxmo/protocols.py:626-638 | defines `sep.join(parts)`: the parts with `sep` between each two |
| Strings.LStrip | src/fauxmo/protocols.py:745 | defines `lstrip(chars)`: leading characters in the set are dropped one at a time |
| Strings.LStripStrips | src/fauxmo/protocols.py:745 | `lstrip` keeps a suffix; every character it drops is in the set, and what it keeps is empty or starts outside the set |
| Strings.LastTokenAfterSpace | src/fauxmo/protocols.py:717 | `split()[-1]` of a text ending in a space and one token is that token |
| Strings.LowerConcat | src/fauxmo/protocols.py:217 | case folding distributes over concatenation |
| Strings.ContainsLower | src/fauxmo/protocols.py:704 | text found in a string is found, case-folded, in the case-folded string |

## Left out

- Asyncio plumbing: the event loop, task scheduling, the actual `sleep` and `sendto`. A scheduled reply is a `Send` record in `SSDPServer.pending`. The sleep before it is `SendDelay`.
- `SSDPServer.connection_made` and `connection_lost`, and the datagram transport they manage, because no modelled behaviour depends on them.
- Logging, because it has no effect on the protocol.
- Byte decoding of the incoming request and datagram. Both are taken as already decoded text.
- Unicode case mapping. `lower` and `casefold` are modelled on ASCII letters only. Characters such as `ß` or `ﬀ`, which fold to other text, are not covered.
- `isnumeric` accepts only ASCII digits in the model. Python also accepts other numeric characters (for example `½`, on which `float` then raises). Those are not covered.
- Floating point: `float(mx_str)` and `random.random() * ...` are exact reals, without rounding.
- The XML text of the insight, event-service and meta-info descriptions (source lines 278-615). It never varies, so the model takes it as arbitrary strings in `ServiceDocuments`. `ServiceDocument` appends the empty line that the source adds to each. The setup document is modelled literally.
- `make_serial`, the clock, `formatdate`, `uuid4` and `random` are parameters, not computed.
- The plugin implementations. The plugin's answers are unconstrained.
- A registry entry without a `name`, on which `respond_to_search` raises `KeyError` after scheduling the replies to earlier devices. Every device is assumed to carry a name.
