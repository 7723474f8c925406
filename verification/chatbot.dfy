/** The `/chatbot` handler: the query is lower-cased and stripped, and the reply of the
    first key of a fixed table that occurs in it is returned, or a default reply. */
module Chatbot {
  import opened Wrappers
  import opened StrOps

  const WhereIsMyCabKey := "where is my cab"
  const WhatDoesThisAppDoKey := "what does this app do"
  const HelpMeKey := "help me"
  const HowToBookCabKey := "how to book cab"
  const HowToScanPlateKey := "how to scan plate"
  const NavigationHelpKey := "navigation help"
  const AppFeaturesKey := "app features"
  const EmergencyKey := "emergency"
  const VoiceCommandsKey := "voice commands"

  const WhereIsMyCabReply := "Your cab should arrive in 2-3 minutes. Please wait at the pickup location."
  const WhatDoesThisAppDoReply := "Netra AI helps visually impaired users book cabs, detect license plates, navigate, and get assistance through voice commands."
  const HelpMeReply := "I can help you with: booking a cab, scanning license plates, navigation, or answering questions. Just ask!"
  const HowToBookCabReply := "Say \"Book a cab\" or tap the Book Ride button. I will generate a cab booking for you."
  const HowToScanPlateReply := "Say \"Scan license plate\" or tap the Scan Plate button to open the camera and detect license plates."
  const NavigationHelpReply := "Use the Navigate button to get voice-guided directions to your destination."
  const AppFeaturesReply := "Key features include voice commands, cab booking, license plate detection, navigation, and AI assistance."
  const EmergencyReply := "For emergencies, please contact local emergency services immediately. This app provides mobility assistance only."
  const VoiceCommandsReply := "Available commands: \"Book a cab\", \"Scan license plate\", \"Navigate me\", \"Help me\", \"Where is my cab\""

  /** The rule table, in its insertion order: (key, reply). */
  const Responses: seq<(string, string)> := [
    (WhereIsMyCabKey, WhereIsMyCabReply),
    (WhatDoesThisAppDoKey, WhatDoesThisAppDoReply),
    (HelpMeKey, HelpMeReply),
    (HowToBookCabKey, HowToBookCabReply),
    (HowToScanPlateKey, HowToScanPlateReply),
    (NavigationHelpKey, NavigationHelpReply),
    (AppFeaturesKey, AppFeaturesReply),
    (EmergencyKey, EmergencyReply),
    (VoiceCommandsKey, VoiceCommandsReply)
  ]

  const DefaultReply := "I'm here to help with cab booking, license plate detection, and navigation. Try asking 'What does this app do?' or 'Help me' for more information."

  datatype ChatResponse = ChatReply(response: string, query: string) | ChatServerError

  /** `data.get('query', '')` as a string; None when the body is not a JSON object or
      the query is not a string, where `.lower()` raises and the handler answers 500. */
  function RawQuery(body: Body): (q: Option<string>)
    ensures q.None? <==> body.None? || ("query" in body.value && body.value["query"].JOther?)
    ensures body.Some? && "query" !in body.value ==> q == Some("")
    ensures body.Some? && "query" in body.value && body.value["query"].JString? ==>
              q == Some(body.value["query"].s)
  {
    if body.None? then None
    else if "query" !in body.value then Some("")
    else match body.value["query"]
      case JString(s) => Some(s)
      case JOther => None
  }

  /** `query.lower().strip()`. */
  function NormalizeQuery(query: string): (q: string)
    ensures forall i :: 0 <= i < |q| ==> !IsAsciiUpper(q[i])
    ensures q == [] || (!IsSpace(q[0]) && !IsSpace(q[|q| - 1]))
  {
    StripOfLowerHasNoUpper(query);
    Strip(Lower(query))
  }

  /** A rule table: (key, reply) pairs in insertion order. */
  type Table = seq<(string, string)>

  /** The index of the first key at or after `i` that occurs in `q`, or |table|. */
  function MatchFrom(table: Table, q: string, i: nat): (k: nat)
    requires i <= |table|
    ensures i <= k <= |table|
    ensures forall j :: i <= j < k ==> !Occurs(table[j].0, q)
    ensures k < |table| ==> Occurs(table[k].0, q)
    decreases |table| - i
  {
    if i == |table| then i
    else if Occurs(table[i].0, q) then i
    else MatchFrom(table, q, i + 1)
  }

  /** The reply a table gives to a normalised query: one of its replies, or the default. */
  function ReplyIn(table: Table, q: string): (reply: string)
    ensures reply == DefaultReply || exists k :: 0 <= k < |table| && reply == table[k].1
  {
    var k := MatchFrom(table, q, 0);
    if k < |table| then table[k].1 else DefaultReply
  }

  /** The reply of the handler's own table. */
  function ReplyFor(q: string): string {
    ReplyIn(Responses, q)
  }

  /** `chatbot`: reads and normalises the query and answers it. */
  method Chat(body: Body) returns (r: ChatResponse)
    ensures body.None? ==> r == ChatServerError
    ensures body.Some? && "query" !in body.value ==> r == ChatReply(DefaultReply, "")
    ensures body.Some? && "query" in body.value && body.value["query"].JOther? ==> r == ChatServerError
    ensures body.Some? && "query" in body.value && body.value["query"].JString? ==>
              var q := NormalizeQuery(body.value["query"].s);
              r == ChatReply(ReplyFor(q), q)
  {
    var raw := RawQuery(body);
    if raw.None? {
      return ChatServerError;
    }
    var query := NormalizeQuery(raw.value);
    if "query" !in body.value {
      ShortQueryGetsDefault(query);
    }
    var response := FindResponse(query);
    r := ChatReply(response, query);
  }

  /** The `for`/`break` scan of the rule table at backend/app.py:177-185. */
  method FindResponse(query: string) returns (reply: string)
    ensures reply == ReplyFor(query)
  {
    var responses := Responses;
    var response: Option<string> := None;
    for i := 0 to |responses|
      invariant response.None?
      invariant forall j :: 0 <= j < i ==> !Occurs(responses[j].0, query)
    {
      var (key, value) := responses[i];
      if Occurs(key, query) {
        response := Some(value);
        FirstMatchIsFound(responses, query, i);
        break;
      }
    }
    if response.None? {
      NoMatchIsDefault(responses, query);
      response := Some(DefaultReply);
    }
    reply := response.value;
  }

  /** Matching scans the table in order: an occurring key wins over later keys. */
  lemma FirstMatchIsFound(table: Table, q: string, k: nat)
    requires k < |table| && Occurs(table[k].0, q)
    requires forall j :: 0 <= j < k ==> !Occurs(table[j].0, q)
    ensures ReplyIn(table, q) == table[k].1
  {
    var m := MatchFrom(table, q, 0);
    assert !(m < k);
  }

  lemma NoMatchIsDefault(table: Table, q: string)
    requires forall j :: 0 <= j < |table| ==> !Occurs(table[j].0, q)
    ensures ReplyIn(table, q) == DefaultReply
  {
  }

  /** No rule of the handler's table answers with the default reply. */
  lemma RepliesDifferFromDefault()
    ensures forall j :: 0 <= j < |Responses| ==> Responses[j].1 != DefaultReply
  {
    forall j | 0 <= j < |Responses| ensures Responses[j].1 != DefaultReply {
      assert |Responses[j].1| != |DefaultReply|;
    }
  }

  /** The reply is the value of the first key, in table order, that occurs in the
      query, and the default reply exactly when no key occurs. */
  lemma ReplyIsFirstMatch(q: string)
    ensures ReplyFor(q) == DefaultReply <==>
              forall j :: 0 <= j < |Responses| ==> !Occurs(Responses[j].0, q)
    ensures forall k :: 0 <= k < |Responses| && Occurs(Responses[k].0, q)
                        && (forall j :: 0 <= j < k ==> !Occurs(Responses[j].0, q))
                        ==> ReplyFor(q) == Responses[k].1
  {
    forall k | 0 <= k < |Responses| && Occurs(Responses[k].0, q)
                && (forall j :: 0 <= j < k ==> !Occurs(Responses[j].0, q))
      ensures ReplyFor(q) == Responses[k].1
    {
      FirstMatchIsFound(Responses, q, k);
    }
    RepliesDifferFromDefault();
  }

  /** Table order decides, not the position in the query: `help me` comes before
      `emergency` in the table, so a query holding both words, such as
      "emergency help me", never gets the emergency reply. */
  lemma EmergencyShadowedByHelpMe(q: string)
    requires Occurs(HelpMeKey, q)
    ensures ReplyFor(q) != EmergencyReply
  {
    var k := MatchFrom(Responses, q, 0);
    assert Responses[2].0 == HelpMeKey;
    assert k <= 2;
    assert |Responses[k].1| != |EmergencyReply|;
  }

  /** Every key has at least seven characters, so shorter queries get the default reply. */
  lemma ShortQueryGetsDefault(q: string)
    requires |q| < 7
    ensures ReplyFor(q) == DefaultReply
  {
    forall j | 0 <= j < |Responses| ensures !Occurs(Responses[j].0, q) {
      assert |Responses[j].0| >= 7;
    }
    NoMatchIsDefault(Responses, q);
  }

  /** Normalising twice is normalising once: the echoed query is already normal. */
  lemma NormalizeIdempotent(query: string)
    ensures NormalizeQuery(NormalizeQuery(query)) == NormalizeQuery(query)
  {
    var q := NormalizeQuery(query);
    LowerFixesLowercase(q);
    StripFixesTrimmed(q);
  }

  /** Matching ignores ASCII case: an upper-cased query gets the same echo and reply. */
  lemma CaseInsensitive(query: string)
    ensures NormalizeQuery(Upper(query)) == NormalizeQuery(query)
  {
    assert Lower(Upper(query)) == Lower(query) by {
      forall i | 0 <= i < |query| ensures Lower(Upper(query))[i] == Lower(query)[i] {
        var c := query[i];
        assert LowerChar(UpperChar(c)) == LowerChar(c);
      }
    }
  }
}
