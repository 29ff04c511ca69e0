/**
  The reply selection of `main.py`: the demo keyword table, `get_demo_response`
  and the `/api/chat` handler's choice of source and write-back to the store.
  The language-model collaborator is an input: what it would answer for this
  message, if it is configured at all.
 */
module Chat {
  import opened Wrappers
  import opened PyStr
  import opened Scoring
  import opened Knowledge

  /** `DEMO_RESPONSES['default']`. */
  const DefaultReply: String :=
    "That's an interesting question! In demo mode, I can provide helpful responses. For more advanced AI features, please configure an OpenAI API key."

  /** `DEMO_RESPONSES`, in declaration order (the dict's iteration order). */
  const DemoResponses: seq<(String, String)> := [
    ("hello", "Hello! How can I help you today?"),
    ("hi", "Hi there! What can I do for you?"),
    ("how are you", "I'm doing great, thanks for asking! How about you?"),
    ("what is ai", "AI (Artificial Intelligence) refers to computer systems designed to perform tasks that typically require human intelligence."),
    ("what is python", "Python is a popular programming language known for its simplicity and readability."),
    ("help", "You can ask me questions about anything! Try asking me about AI, Python, or just say hello."),
    ("thank you", "You're welcome! If you have more questions, feel free to ask."),
    ("default", DefaultReply)
  ]

  /** The position of the first key of `table` that occurs in `text`. */
  function FirstKeyIn(table: seq<(String, String)>, text: String): (r: Option<nat>)
    ensures r.Some? ==> r.value < |table| && Contains(text, table[r.value].0)
    ensures r.Some? ==> forall j :: 0 <= j < r.value ==> !Contains(text, table[j].0)
    ensures r.None? ==> forall j :: 0 <= j < |table| ==> !Contains(text, table[j].0)
  {
    if table == [] then None
    else if Contains(text, table[0].0) then Some(0)
    else
      var rest := table[1..];
      assert forall j :: 0 <= j < |rest| ==> rest[j] == table[j + 1];
      match FirstKeyIn(rest, text)
      case None => None
      case Some(k) => Some(k + 1)
  }

  /** The reply of the first key of `table` found in `text`, else `fallback`. */
  function TableReply(table: seq<(String, String)>, text: String, fallback: String): (r: String)
    ensures forall k :: 0 <= k < |table| && Contains(text, table[k].0)
                        && (forall j :: 0 <= j < k ==> !Contains(text, table[j].0))
                        ==> r == table[k].1
    ensures (forall k :: 0 <= k < |table| ==> !Contains(text, table[k].0)) ==> r == fallback
    ensures r == fallback || exists k :: 0 <= k < |table| && r == table[k].1
  {
    match FirstKeyIn(table, text)
    case Some(k) => table[k].1
    case None => fallback
  }

  /** `get_demo_response(user_message)`: the reply of the first key, in table
      order, found in the lower-cased and stripped message; the default reply
      when there is none. The reply is always one of the table's. */
  function GetDemoResponse(userMessage: String): (r: String)
    ensures var text := Strip(Lower(userMessage));
      forall k :: 0 <= k < |DemoResponses| && Contains(text, DemoResponses[k].0)
                  && (forall j :: 0 <= j < k ==> !Contains(text, DemoResponses[j].0))
                  ==> r == DemoResponses[k].1
    ensures var text := Strip(Lower(userMessage));
      (forall k :: 0 <= k < |DemoResponses| ==> !Contains(text, DemoResponses[k].0)) ==> r == DefaultReply
    ensures exists k :: 0 <= k < |DemoResponses| && r == DemoResponses[k].1
  {
    var messageLower := Strip(Lower(userMessage));
    var r := TableReply(DemoResponses, messageLower, DefaultReply);
    assert DemoResponses[7].1 == DefaultReply;
    r
  }

  /** Where a reply came from: the `source` field of the answer. */
  datatype Source = Learned | OpenAI | Demo

  /** What the language-model collaborator does for this message: it is not
      configured (no API key), it answers with a text, or the call raises. */
  datatype Client = NoClient | Answers(text: String) | Fails

  /** The JSON answer of `/api/chat`, with its HTTP status for errors. */
  datatype ChatResult =
    | Success(message: String, source: Source, learned: nat)
    | Error(status: nat, message: String)

  /** In a well-formed store every record `get_learned_response` can return has
      been used at least once, so the handler's `count > 0` test always passes. */
  lemma LearnedCountPositive(entries: seq<Entry>, message: String)
    requires WellFormed(entries)
    ensures LearnedResponse(entries, message).Some? ==> LearnedResponse(entries, message).value.count >= 1
  {
  }

  /** The `/api/chat` handler for the message `userMessage` at time `now`.
      `consulted` tells whether the collaborator was called. */
  method HandleChat(kb: KnowledgeBase, userMessage: String, client: Client, now: Timestamp)
    returns (result: ChatResult, consulted: bool)
    requires kb.Valid()
    modifies kb
    ensures kb.Valid()
    ensures userMessage == [] ==>
      && result == Error(400, "Empty message") && !consulted
      && kb.learned == old(kb.learned) && kb.totalMessages == old(kb.totalMessages)
    ensures userMessage != [] ==> result.Success?
    ensures userMessage != [] && LearnedResponse(old(kb.learned), userMessage).Some? ==>
      && result.message == LearnedResponse(old(kb.learned), userMessage).value.response
      && result.source == Learned && !consulted
    ensures userMessage != [] && LearnedResponse(old(kb.learned), userMessage).None? ==>
      && consulted == !client.NoClient?
      && (client.Answers? ==> result.message == client.text && result.source == OpenAI)
      && (!client.Answers? ==> result.message == GetDemoResponse(userMessage) && result.source == Demo)
    ensures userMessage != [] ==>
      && kb.learned == Learn(old(kb.learned), userMessage, result.message, now)
      && kb.totalMessages == old(kb.totalMessages) + 2
      && result.learned == |kb.learned|
  {
    if userMessage == [] {
      return Error(400, "Empty message"), false;
    }
    var botMessage: String;
    var source: Source;
    consulted := false;
    var learned := kb.GetLearnedResponse(userMessage);
    LearnedCountPositive(kb.learned, userMessage);
    if learned.Some? && learned.value.count > 0 {
      botMessage := learned.value.response;
      source := Learned;
    } else if !client.NoClient? {
      consulted := true;
      if client.Answers? {
        botMessage := client.text;
        source := OpenAI;
      } else {
        botMessage := GetDemoResponse(userMessage);
        source := Demo;
      }
    } else {
      botMessage := GetDemoResponse(userMessage);
      source := Demo;
    }
    kb.AddConversation(userMessage, botMessage, now);
    result := Success(botMessage, source, |kb.learned|);
  }
}
