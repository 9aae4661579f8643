/**
 * `Fauxmo`, the TCP side of one emulated WeMo device: it classifies each
 * request, answers it with a description document or a SOAP envelope behind
 * the fixed HTTP headers, and closes the connection.
 */
module FauxmoProtocol {

  import opened Wrappers
  import opened Strings
  import opened Utf8
  import opened Http
  import opened Templates
  import opened Requests
  import opened Collaborators

  /** `Done`, or the exception a handler raises when no connection was made. */
  datatype Status = Done | NoTransport

  /** The document a non-control route answers with; `None` for the control routes and `Unrecognized`. */
  function DocumentBody(route: Route, name: string, serial: string, docs: ServiceDocuments, now: int): Option<string> {
    match route
    case Setup => Some(SetupXml(name, serial))
    case EventService => Some(ServiceDocument(docs.eventService))
    case MetaInfoService => Some(ServiceDocument(docs.metaInfo))
    case InsightService => Some(ServiceDocument(docs.insight))
    case TimeSync => Some(TimeSyncEnvelope(now))
    case _ => None
  }

  predicate IsControl(route: Route) {
    route == InsightControl || route == BasicEventControl
  }

  function EnvelopeOf(reply: Option<SoapReply>): Option<string> {
    match reply
    case Some(r) => Some(Envelope(r))
    case None => None
  }

  /** The bytes written for a body: one write of the encoded response, or none. */
  function Emitted(body: Option<string>, date: string): seq<seq<byte>> {
    match body
    case Some(b) => [Encode(AddHttpHeaders(b, date))]
    case None => []
  }

  /**
   * What the plugin's log gains when `call` is made and returns `answer`:
   * nothing for no call, else the one call with its result.
   */
  function Logged(call: Call, answer: Answer): seq<PluginEvent> {
    match call
    case NoCall => []
    case GetStateCall => if answer.StateAnswer? then [GotState(answer.state)] else []
    case OffCall => if answer.SwitchAnswer? then [SwitchedOff(answer.ok)] else []
    case OnCall => if answer.SwitchAnswer? then [SwitchedOn(answer.ok)] else []
  }

  /**
   * A fitting answer is recovered from the log: it is exactly what the
   * plugin returned, and the log grows by one entry per plugin call.
   */
  lemma LoggedDeterminesAnswer(call: Call, a: Answer, b: Answer)
    requires AnswerFits(call, a) && AnswerFits(call, b)
    ensures |Logged(call, a)| == (if call == NoCall then 0 else 1)
    ensures Logged(call, a) == Logged(call, b) <==> a == b
  {
    if Logged(call, a) == Logged(call, b) && call != NoCall {
      assert Logged(call, a)[0] == Logged(call, b)[0];
    }
  }

  /** A reply is written once, and no reply is not written at all. */
  lemma EmittedOnce(reply: Option<SoapReply>, date: string)
    ensures |Emitted(EnvelopeOf(reply), date)| == (if reply.Some? then 1 else 0)
  {
  }

  /**
   * `handle_action`'s `success`: for GetBinaryState a reply exists exactly
   * when the plugin reported `on` or `off` in some letter case; for
   * SetBinaryState with a marker, exactly when `on`/`off` returned true;
   * GetInsightParams and GetFriendlyName always reply, and a request naming
   * no action, or SetBinaryState with no marker, never does.
   */
  lemma ActionSucceedsIff(msg: string, answer: Answer, pluginName: string, sample: int)
    requires AnswerFits(PluginCall(msg), answer)
    ensures var r := ActionReply(msg, answer, pluginName, sample);
      (ActionOf(msg) == GetBinaryState ==>
         (r.Some? <==> Lower(answer.state) == "on" || Lower(answer.state) == "off"))
      && (ActionOf(msg) == SetBinaryState && PluginCall(msg) != NoCall ==> (r.Some? <==> answer.ok))
      && (ActionOf(msg) == SetBinaryState && PluginCall(msg) == NoCall ==> r.None?)
      && (ActionOf(msg) == GetInsightParams || ActionOf(msg) == GetFriendlyName ==> r.Some?)
      && (ActionOf(msg) == NoAction ==> r.None?)
  {
    if ActionOf(msg) == SetBinaryState && PluginCall(msg) != NoCall {
      SetBinaryStateReply(msg, answer.ok, pluginName, sample);
    }
  }

  /**
   * `handle_action` writes at most once, and writes exactly when its
   * `success` holds: when `ActionReply` gives a reply.
   */
  lemma ActionWritesIffSuccess(msg: string, answer: Answer, pluginName: string, sample: int, date: string)
    requires AnswerFits(PluginCall(msg), answer)
    ensures var r := ActionReply(msg, answer, pluginName, sample);
      var w := Emitted(EnvelopeOf(r), date);
      |w| <= 1 && (|w| == 1 <==> r.Some?)
      && (ActionOf(msg) == SetBinaryState && PluginCall(msg) != NoCall ==> (|w| == 1 <==> answer.ok))
  {
    ActionSucceedsIff(msg, answer, pluginName, sample);
    EmittedOnce(ActionReply(msg, answer, pluginName, sample), date);
  }

  class Fauxmo {
    const name: string
    const serial: string
    const plugin: Plugin
    const documents: ServiceDocuments
    /** `None` until `connection_made`. */
    var transport: Transport?

    constructor (name: string, plugin: Plugin, makeSerial: string -> string, documents: ServiceDocuments)
      ensures this.name == name && serial == makeSerial(name) && this.plugin == plugin
      ensures this.documents == documents && transport == null
    {
      this.name := name;
      serial := makeSerial(name);
      this.plugin := plugin;
      this.documents := documents;
      transport := null;
    }

    method ConnectionMade(t: Transport)
      modifies this
      ensures transport == t
    {
      transport := t;
    }

    /** Write the headed and encoded `body`, then close. */
    method WriteAndClose(body: string, date: string)
      requires transport != null
      modifies transport
      ensures transport.writes == old(transport.writes) + [Encode(AddHttpHeaders(body, date))]
      ensures transport.closes == old(transport.closes) + 1
    {
      transport.Write(Encode(AddHttpHeaders(body, date)));
      transport.Close();
    }

    /** Write the headed and encoded body if there is one, then close. */
    method WriteIfAnyAndClose(body: Option<string>, date: string)
      requires transport != null
      modifies transport
      ensures transport.writes == old(transport.writes) + Emitted(body, date)
      ensures transport.closes == old(transport.closes) + 1
    {
      if body.Some? {
        transport.Write(Encode(AddHttpHeaders(body.value, date)));
      }
      transport.Close();
    }

    method HandleSetup(date: string) returns (status: Status)
      modifies transport
      ensures transport == null ==> status == NoTransport
      ensures transport != null ==> (status == Done
        && transport.writes == old(transport.writes) + [Encode(AddHttpHeaders(SetupXml(name, serial), date))]
        && transport.closes == old(transport.closes) + 1)
    {
      var setupXml := SetupXml(name, serial);
      if transport == null {
        return NoTransport;
      }
      WriteAndClose(setupXml, date);
      status := Done;
    }

    method HandleEvent(date: string) returns (status: Status)
      modifies transport
      ensures transport == null ==> status == NoTransport
      ensures transport != null ==> (status == Done
        && transport.writes == old(transport.writes) + [Encode(AddHttpHeaders(ServiceDocument(documents.eventService), date))]
        && transport.closes == old(transport.closes) + 1)
    {
      if transport == null {
        return NoTransport;
      }
      WriteAndClose(ServiceDocument(documents.eventService), date);
      status := Done;
    }

    method HandleMetaInfo(date: string) returns (status: Status)
      modifies transport
      ensures transport == null ==> status == NoTransport
      ensures transport != null ==> (status == Done
        && transport.writes == old(transport.writes) + [Encode(AddHttpHeaders(ServiceDocument(documents.metaInfo), date))]
        && transport.closes == old(transport.closes) + 1)
    {
      if transport == null {
        return NoTransport;
      }
      WriteAndClose(ServiceDocument(documents.metaInfo), date);
      status := Done;
    }

    method HandleInsight(date: string) returns (status: Status)
      modifies transport
      ensures transport == null ==> status == NoTransport
      ensures transport != null ==> (status == Done
        && transport.writes == old(transport.writes) + [Encode(AddHttpHeaders(ServiceDocument(documents.insight), date))]
        && transport.closes == old(transport.closes) + 1)
    {
      if transport == null {
        return NoTransport;
      }
      WriteAndClose(ServiceDocument(documents.insight), date);
      status := Done;
    }

    /** Any POST to the time-sync path is answered with the clock reading `now`. */
    method HandleTimeSync(msg: string, date: string, now: int) returns (status: Status)
      modifies transport
      ensures transport == null ==> status == NoTransport
      ensures transport != null ==> (status == Done
        && transport.writes == old(transport.writes) + [Encode(AddHttpHeaders(TimeSyncEnvelope(now), date))]
        && transport.closes == old(transport.closes) + 1)
    {
      if transport == null {
        return NoTransport;
      }
      WriteAndClose(TimeSyncEnvelope(now), date);
      status := Done;
    }

    /** `GetBinaryState`: ask the plugin, and reply "1" or "0" when it said on or off. */
    method QueryState(ghost msg: string) returns (reply: Option<SoapReply>, answer: Answer)
      requires ActionOf(msg) == GetBinaryState
      modifies plugin
      ensures answer.StateAnswer? && plugin.log == old(plugin.log) + [GotState(answer.state)]
      ensures reply == ActionReply(msg, answer, plugin.name, 1000)
    {
      var s := plugin.GetState();
      answer := StateAnswer(s);
      var state := Lower(s);
      if state == "off" || state == "on" {
        reply := Some(SoapReply("Get", "BinaryState", "basicevent", if state == "on" then "1" else "0"));
      } else {
        reply := None;
      }
    }

    /** `SetBinaryState`: switch off if the off marker is present, else on if the on marker is. */
    method Switch(msg: string) returns (reply: Option<SoapReply>, answer: Answer)
      requires ActionOf(msg) == SetBinaryState
      modifies plugin
      ensures AnswerFits(PluginCall(msg), answer)
      ensures plugin.log == old(plugin.log) + Logged(PluginCall(msg), answer)
      ensures reply == ActionReply(msg, answer, plugin.name, 1000)
    {
      answer := NoAnswer;
      reply := None;
      if Contains(msg, OffMarker) {
        var success := plugin.Off();
        answer := SwitchAnswer(success);
        if success {
          reply := Some(SoapReply("Set", "BinaryState", "basicevent", OffMetering));
        }
      } else if Contains(msg, OnMarker) {
        var success := plugin.On();
        answer := SwitchAnswer(success);
        if success {
          reply := Some(SoapReply("Set", "BinaryState", "basicevent", OnMetering));
        }
      }
    }

    /** The plugin side of `handle_action`: the calls it makes and the reply it builds, if any. */
    method Perform(msg: string, sample: int) returns (reply: Option<SoapReply>, answer: Answer)
      modifies plugin
      ensures AnswerFits(PluginCall(msg), answer)
      ensures plugin.log == old(plugin.log) + Logged(PluginCall(msg), answer)
      ensures reply == ActionReply(msg, answer, plugin.name, sample)
    {
      var action := ActionOf(msg);
      answer := NoAnswer;
      if action == GetBinaryState {
        reply, answer := QueryState(msg);
      } else if action == GetInsightParams {
        reply := Some(SoapReply("Get", "InsightParams", "insight", InsightParams(sample)));
      } else if action == SetBinaryState {
        reply, answer := Switch(msg);
      } else if action == GetFriendlyName {
        reply := Some(SoapReply("Get", "FriendlyName", "basicevent", plugin.name));
      } else {
        reply := None;
      }
    }

    /**
     * Carry out the SOAP action of `msg`: call the plugin as `PluginCall`
     * says, write the reply `ActionReply` gives for its answer (at most one
     * write), and close the connection in every case.
     */
    method HandleAction(msg: string, date: string, sample: int) returns (status: Status, answer: Answer)
      requires 1000 <= sample <= 300000
      modifies transport, plugin
      ensures transport == null ==> status == NoTransport && answer == NoAnswer && unchanged(plugin)
      ensures transport != null ==> status == Done && AnswerFits(PluginCall(msg), answer)
      ensures transport != null ==> plugin.log == old(plugin.log) + Logged(PluginCall(msg), answer)
      ensures transport != null ==>
        transport.writes == old(transport.writes) + Emitted(EnvelopeOf(ActionReply(msg, answer, plugin.name, sample)), date)
      ensures transport != null ==> transport.closes == old(transport.closes) + 1
    {
      if transport == null {
        status, answer := NoTransport, NoAnswer;
      } else {
        var reply;
        reply, answer := Perform(msg, sample);
        ghost var written := transport.writes;
        WriteIfAnyAndClose(EnvelopeOf(reply), date);
        assert transport.writes == written + Emitted(EnvelopeOf(ActionReply(msg, answer, plugin.name, sample)), date);
        status := Done;
      }
    }

    /** The handler of a document route, chosen in the order `data_received` tests them. */
    method HandleDocument(route: Route, msg: string, date: string, now: int) returns (status: Status)
      requires !IsControl(route) && route != Unrecognized
      modifies transport
      ensures transport == null ==> status == NoTransport
      ensures transport != null ==> (status == Done
        && transport.writes == old(transport.writes) + Emitted(DocumentBody(route, name, serial, documents, now), date)
        && transport.closes == old(transport.closes) + 1)
    {
      if route == Setup {
        status := HandleSetup(date);
      } else if route == EventService {
        status := HandleEvent(date);
      } else if route == MetaInfoService {
        status := HandleMetaInfo(date);
      } else if route == InsightService {
        status := HandleInsight(date);
      } else {
        status := HandleTimeSync(msg, date, now);
      }
    }

    /**
     * `data_received`: route the request as `Classify` says and run its
     * handler. An unrecognized request writes nothing, closes nothing and
     * calls nothing; a control request behaves as `HandleAction`; any other
     * writes its document once and closes.
     */
    method DataReceived(msg: string, date: string, now: int, sample: int) returns (status: Status, answer: Answer)
      requires 1000 <= sample <= 300000
      modifies transport, plugin
      ensures Classify(msg) == Unrecognized ==>
        status == Done && answer == NoAnswer && unchanged(plugin)
        && (transport != null ==> unchanged(transport))
      ensures Classify(msg) != Unrecognized && transport == null ==>
        status == NoTransport && answer == NoAnswer && unchanged(plugin)
      ensures IsControl(Classify(msg)) && transport != null ==> (status == Done
        && AnswerFits(PluginCall(msg), answer)
        && plugin.log == old(plugin.log) + Logged(PluginCall(msg), answer)
        && transport.writes == old(transport.writes)
             + Emitted(EnvelopeOf(ActionReply(msg, answer, plugin.name, sample)), date)
        && transport.closes == old(transport.closes) + 1)
      ensures !IsControl(Classify(msg)) && Classify(msg) != Unrecognized && transport != null ==> (status == Done
        && answer == NoAnswer && unchanged(plugin)
        && transport.writes == old(transport.writes)
             + Emitted(DocumentBody(Classify(msg), name, serial, documents, now), date)
        && transport.closes == old(transport.closes) + 1)
    {
      answer := NoAnswer;
      status := Done;
      var route := Classify(msg);
      if IsControl(route) {
        status, answer := HandleAction(msg, date, sample);
      } else if route != Unrecognized {
        status := HandleDocument(route, msg, date, now);
      }
    }
  }
}
