/**
 * How a Fauxmo device reads a TCP request: the route that
 * `Fauxmo.data_received` picks, and the SOAP action, plugin call and reply
 * that `Fauxmo.handle_action` derives from a control request.
 */
module Requests {

  import opened Wrappers
  import opened Strings
  import opened Decimal
  import opened Templates

  // ---------------------------------------------------------------------
  // Routing

  datatype Route =
    | Setup | EventService | MetaInfoService | InsightService
    | InsightControl | TimeSync | BasicEventControl
    | Unrecognized

  const SetupRequestLine: string := "GET /setup.xml HTTP/1.1"

  /** The request shape each handler answers, taken on its own. */
  predicate Shape(r: Route, msg: string) {
    match r
    case Setup => StartsWith(msg, SetupRequestLine)
    case EventService => Contains(msg, "/eventservice.xml")
    case MetaInfoService => Contains(msg, "/metainfoservice.xml")
    case InsightService => Contains(msg, "/insightservice.xml")
    case InsightControl => StartsWith(msg, "POST") && Contains(msg, "/upnp/control/insight1 HTTP/1.1")
    case TimeSync => StartsWith(msg, "POST") && Contains(msg, "/upnp/control/timesync1 HTTP/1.1")
    case BasicEventControl => StartsWith(msg, "POST") && Contains(msg, "/upnp/control/basicevent1 HTTP/1.1")
    case Unrecognized => false
  }

  /** `data_received`: the first test that the message passes decides the handler. */
  function Classify(msg: string): Route {
    if Shape(Setup, msg) then Setup
    else if Shape(EventService, msg) then EventService
    else if Shape(MetaInfoService, msg) then MetaInfoService
    else if Shape(InsightService, msg) then InsightService
    else if Shape(InsightControl, msg) then InsightControl
    else if Shape(TimeSync, msg) then TimeSync
    else if Shape(BasicEventControl, msg) then BasicEventControl
    else Unrecognized
  }

  /** The order in which the shapes are tried. */
  const Priority: seq<Route> :=
    [Setup, EventService, MetaInfoService, InsightService, InsightControl, TimeSync, BasicEventControl]

  /**
   * Classification is first match: the route chosen has its shape and no
   * route before it in `Priority` does; a message of no shape is left
   * unrecognized.
   */
  lemma ClassifyIsFirstMatch(msg: string)
    ensures Classify(msg) == Unrecognized <==> forall k :: 0 <= k < |Priority| ==> !Shape(Priority[k], msg)
    ensures Classify(msg) != Unrecognized ==>
      exists k :: 0 <= k < |Priority| && Priority[k] == Classify(msg) && Shape(Priority[k], msg)
        && forall j :: 0 <= j < k ==> !Shape(Priority[j], msg)
  {
    var r := Classify(msg);
    var k := match r
      case Setup => 0 case EventService => 1 case MetaInfoService => 2 case InsightService => 3
      case InsightControl => 4 case TimeSync => 5 case BasicEventControl => 6 case Unrecognized => 7;
    if k < 7 {
      assert Priority[k] == r && Shape(r, msg);
    }
  }

  /** A GET request is never routed to a control handler. */
  lemma GetIsNeverControl(msg: string)
    requires StartsWith(msg, "GET")
    ensures Classify(msg) != InsightControl && Classify(msg) != TimeSync && Classify(msg) != BasicEventControl
  {
    assert msg[..3][0] == 'G';
  }

  /** The request line `GET /setup.xml HTTP/1.1` wins over anything that follows it. */
  lemma SetupLineWins(rest: string)
    ensures Classify(SetupRequestLine + rest) == Setup
  {
    assert (SetupRequestLine + rest)[..|SetupRequestLine|] == SetupRequestLine;
  }

  // ---------------------------------------------------------------------
  // SOAP actions

  datatype Action = GetBinaryState | GetInsightParams | SetBinaryState | GetFriendlyName | NoAction

  function BasicEventAction(name: string): string {
    "SOAPACTION:\"urn:Belkin:service:basicevent:1#" + name + "\""
  }

  function InsightAction(name: string): string {
    "SOAPACTION:\"urn:Belkin:service:insight:1#" + name + "\""
  }

  /** The request text as the action tokens are looked up in: case folded, spaces deleted. */
  function Normalized(msg: string): string {
    RemoveSpaces(Lower(msg))
  }

  /** `token.casefold() in msg.casefold().replace(" ", "")` */
  predicate HasToken(msg: string, token: string) {
    Contains(Normalized(msg), Lower(token))
  }

  /** The action `handle_action` carries out; the tokens are tried in this order. */
  function ActionOf(msg: string): Action {
    if HasToken(msg, BasicEventAction("GetBinaryState")) then GetBinaryState
    else if HasToken(msg, InsightAction("GetInsightParams")) then GetInsightParams
    else if HasToken(msg, BasicEventAction("SetBinaryState")) then SetBinaryState
    else if HasToken(msg, BasicEventAction("GetFriendlyName")) then GetFriendlyName
    else NoAction
  }

  /** Spaces anywhere in the request do not change whether a token is found. */
  lemma HasTokenIgnoresSpace(a: string, b: string, token: string)
    ensures HasToken(a + " " + b, token) == HasToken(a + b, token)
  {
    LowerConcat(a + " ", b);
    LowerConcat(a, " ");
    LowerConcat(a, b);
    RemoveSpacesConcat(Lower(a) + " ", Lower(b));
    RemoveSpacesConcat(Lower(a), " ");
    RemoveSpacesConcat(Lower(a), Lower(b));
    assert Lower(" ") == " ";
    assert RemoveSpaces(" ") == [];
    assert RemoveSpaces(Lower(a)) + [] == RemoveSpaces(Lower(a));
  }

  /**
   * Only spaces are ignored: in a request without spaces, a token is found
   * exactly when its case-folded text occurs in the case-folded request.
   */
  lemma HasTokenKeepsOthers(msg: string, token: string)
    requires ' ' !in msg
    ensures HasToken(msg, token) <==> Contains(Lower(msg), Lower(token))
  {
    assert ' ' !in Lower(msg) by {
      forall i | 0 <= i < |msg| ensures Lower(msg)[i] != ' ' {
        assert msg[i] != ' ';
      }
    }
    RemoveSpacesKeepsOthers(Lower(msg));
  }

  /** A tab, unlike a space, inside a token breaks the match. */
  lemma TabIsNotIgnored()
    ensures HasToken("a b", "ab") && !HasToken("a\tb", "ab")
  {
    assert Normalized("a b") == "ab";
    assert StartsWith("ab", "ab");
    assert Normalized("a\tb") == "a\tb" by {
      RemoveSpacesKeepsOthers("a\tb");
    }
  }

  lemma LowerIdempotent(s: string)
    ensures Lower(Lower(s)) == Lower(s)
  {
  }

  /** Changing the case of letters in the request does not change whether a token is found. */
  lemma HasTokenIgnoresCase(msg: string, token: string)
    ensures HasToken(Lower(msg), token) == HasToken(msg, token)
  {
    LowerIdempotent(msg);
  }

  // ---------------------------------------------------------------------
  // SetBinaryState and the plugin

  datatype Switch = SwitchOff | SwitchOn | NoSwitch

  const OffMarker: string := "<BinaryState>0</BinaryState>"
  const OnMarker: string := "<BinaryState>1</BinaryState>"

  /** The requested switch direction: looked up case-sensitively, off first. */
  function SwitchOf(msg: string): Switch {
    if Contains(msg, OffMarker) then SwitchOff
    else if Contains(msg, OnMarker) then SwitchOn
    else NoSwitch
  }

  /** The plugin method a request makes `handle_action` call, if any. */
  datatype Call = NoCall | GetStateCall | OffCall | OnCall

  function PluginCall(msg: string): Call {
    match ActionOf(msg)
    case GetBinaryState => GetStateCall
    case SetBinaryState =>
      (match SwitchOf(msg)
       case SwitchOff => OffCall
       case SwitchOn => OnCall
       case NoSwitch => NoCall)
    case _ => NoCall
  }

  /** What the plugin answered: nothing, a state string, or the result of on/off. */
  datatype Answer = NoAnswer | StateAnswer(state: string) | SwitchAnswer(ok: bool)

  predicate AnswerFits(call: Call, answer: Answer) {
    match call
    case NoCall => answer == NoAnswer
    case GetStateCall => answer.StateAnswer?
    case _ => answer.SwitchAnswer?
  }

  const OffMetering: string := "0|1611532923|231|300|183183|1209600|8|1170|1164707|99830512"
  const OnMetering: string := "8|1611530424|231|300|183183|1209600|8|1190|1164707|99830512"

  /** The insight telemetry line, with `sample` the random power-draw reading. */
  function InsightParams(sample: int): string {
    "8|1549126755|0|0|0|9319|10|" + IntToString(sample) + "|0|0.000000|7000"
  }

  /**
   * The SOAP reply `handle_action` renders, or `None` when `success` stays
   * false and nothing is written. `pluginName` is the plugin's name.
   */
  function ActionReply(msg: string, answer: Answer, pluginName: string, sample: int): Option<SoapReply> {
    match ActionOf(msg)
    case GetBinaryState =>
      (match answer
       case StateAnswer(s) =>
         var state := Lower(s);
         if state == "off" || state == "on"
         then Some(SoapReply("Get", "BinaryState", "basicevent", if state == "on" then "1" else "0"))
         else None
       case _ => None)
    case GetInsightParams =>
      Some(SoapReply("Get", "InsightParams", "insight", InsightParams(sample)))
    case SetBinaryState =>
      (match SwitchOf(msg)
       case SwitchOff =>
         if answer == SwitchAnswer(true) then Some(SoapReply("Set", "BinaryState", "basicevent", OffMetering)) else None
       case SwitchOn =>
         if answer == SwitchAnswer(true) then Some(SoapReply("Set", "BinaryState", "basicevent", OnMetering)) else None
       case NoSwitch => None)
    case GetFriendlyName =>
      Some(SoapReply("Get", "FriendlyName", "basicevent", pluginName))
    case NoAction => None
  }

  /** GetBinaryState: "on" gives 1, "off" gives 0 (in any case), anything else no reply. */
  lemma GetBinaryStateReply(msg: string, state: string, pluginName: string, sample: int)
    requires ActionOf(msg) == GetBinaryState
    ensures PluginCall(msg) == GetStateCall
    ensures Lower(state) == "on" ==>
      ActionReply(msg, StateAnswer(state), pluginName, sample) == Some(SoapReply("Get", "BinaryState", "basicevent", "1"))
    ensures Lower(state) == "off" ==>
      ActionReply(msg, StateAnswer(state), pluginName, sample) == Some(SoapReply("Get", "BinaryState", "basicevent", "0"))
    ensures Lower(state) != "on" && Lower(state) != "off" ==>
      ActionReply(msg, StateAnswer(state), pluginName, sample) == None
  {
  }

  /**
   * SetBinaryState: the off marker is looked for first, so a request with
   * both markers switches off; with neither, the plugin is not called and
   * there is no reply; otherwise the reply exists exactly when the plugin
   * call succeeded, and carries the metering line of its direction.
   */
  lemma SetBinaryStateReply(msg: string, ok: bool, pluginName: string, sample: int)
    requires ActionOf(msg) == SetBinaryState
    ensures Contains(msg, OffMarker) ==> PluginCall(msg) == OffCall
    ensures !Contains(msg, OffMarker) && Contains(msg, OnMarker) ==> PluginCall(msg) == OnCall
    ensures !Contains(msg, OffMarker) && !Contains(msg, OnMarker) ==>
      PluginCall(msg) == NoCall && ActionReply(msg, NoAnswer, pluginName, sample) == None
    ensures PluginCall(msg) != NoCall ==>
      ActionReply(msg, SwitchAnswer(ok), pluginName, sample).Some? == ok
    ensures PluginCall(msg) == OffCall && ok ==>
      ActionReply(msg, SwitchAnswer(ok), pluginName, sample).value.returnVal == OffMetering
    ensures PluginCall(msg) == OnCall && ok ==>
      ActionReply(msg, SwitchAnswer(ok), pluginName, sample).value.returnVal == OnMetering
  {
  }

  /** GetInsightParams and GetFriendlyName never call the plugin and always reply. */
  lemma AlwaysAnsweredActions(msg: string, pluginName: string, sample: int)
    requires ActionOf(msg) == GetInsightParams || ActionOf(msg) == GetFriendlyName
    ensures PluginCall(msg) == NoCall
    ensures ActionReply(msg, NoAnswer, pluginName, sample).Some?
    ensures ActionOf(msg) == GetFriendlyName ==>
      ActionReply(msg, NoAnswer, pluginName, sample).value.returnVal == pluginName
    ensures ActionOf(msg) == GetInsightParams ==>
      Contains(ActionReply(msg, NoAnswer, pluginName, sample).value.returnVal, "|" + IntToString(sample) + "|")
  {
    if ActionOf(msg) == GetInsightParams {
      var t := IntToString(sample);
      assert InsightParams(sample) == "8|1549126755|0|0|0|9319|10" + ("|" + t + "|") + "0|0.000000|7000";
      ContainsInfix("8|1549126755|0|0|0|9319|10", "|" + t + "|", "0|0.000000|7000");
    }
  }

  /** A request that names no action gets no reply and calls nothing. */
  lemma NoActionNoReply(msg: string, answer: Answer, pluginName: string, sample: int)
    requires ActionOf(msg) == NoAction
    ensures PluginCall(msg) == NoCall && ActionReply(msg, answer, pluginName, sample) == None
  {
  }
}
