/**
  Worked cases of `get_demo_response` with the source's own table, and a
  two-request conversation through the `/api/chat` handler.
 */
module ChatScenarios {
  import opened Wrappers
  import opened PyStr
  import opened Scoring
  import opened Knowledge
  import opened Chat

  /** `key` occurs nowhere in `text` because no position of `text` holds the
      first two characters of `key` in a row. */
  lemma NoOccurrence(text: String, key: String)
    requires |key| >= 2
    requires forall i :: 0 <= i < |text| - 1 ==> text[i] != key[0] || text[i + 1] != key[1]
    ensures !Contains(text, key)
  {
    forall i | 0 <= i <= |text| ensures !OccursAt(text, key, i) {
      if 0 <= i <= |text| - |key| {
        assert text[i..i + |key|][0] == text[i];
        assert text[i..i + |key|][1] == text[i + 1];
      }
    }
  }

  lemma LowerWhatIsAi(message: String)
    requires message == "What is AI?"
    ensures Strip(Lower(message)) == "what is ai?"
  {
    assert Lower("What is AI?") == "what is ai?";
  }

  lemma NormalizeHello(message: String)
    requires message == "Hello"
    ensures Strip(Lower(message)) == "hello"
  {
    assert Lower(message) == "hello";
  }

  /** A text that begins with "hello" holds the first demo key. */
  lemma HelloKey(text: String)
    requires |text| >= 5 && text[..5] == "hello"
    ensures Contains(text, "hello")
  {
    assert OccursAt(text, "hello", 0);
  }

  lemma NormalizeHiHello(message: String)
    requires message == "Hi, hello"
    ensures Strip(Lower(message)) == "hi, hello"
  {
    assert Lower(message) == "hi, hello";
  }

  lemma NormalizeWhichOne(message: String)
    requires message == "Which one?"
    ensures Strip(Lower(message)) == "which one?"
  {
    assert Lower(message) == "which one?";
  }

  /** The table lookup, restated for one position `k` of the table. */
  lemma DemoReplyAt(message: String, text: String, k: nat)
    requires Strip(Lower(message)) == text && k < |DemoResponses|
    requires Contains(text, DemoResponses[k].0)
    requires forall j :: 0 <= j < k ==> !Contains(text, DemoResponses[j].0)
    ensures GetDemoResponse(message) == DemoResponses[k].1
  {
  }

  /** The table lookup for the first, second and fourth positions, with the
      misses before them spelled out. */
  lemma DemoReplyFirst(message: String, text: String)
    requires Strip(Lower(message)) == text
    requires Contains(text, DemoResponses[0].0)
    ensures GetDemoResponse(message) == DemoResponses[0].1
  {
    DemoReplyAt(message, text, 0);
  }

  lemma DemoReplySecond(message: String, text: String)
    requires Strip(Lower(message)) == text
    requires !Contains(text, DemoResponses[0].0) && Contains(text, DemoResponses[1].0)
    ensures GetDemoResponse(message) == DemoResponses[1].1
  {
    forall j | 0 <= j < 1 ensures !Contains(text, DemoResponses[j].0) {
      assert j == 0;
    }
    DemoReplyAt(message, text, 1);
  }

  lemma DemoReplyFourth(message: String, text: String)
    requires Strip(Lower(message)) == text
    requires !Contains(text, DemoResponses[0].0) && !Contains(text, DemoResponses[1].0)
    requires !Contains(text, DemoResponses[2].0) && Contains(text, DemoResponses[3].0)
    ensures GetDemoResponse(message) == DemoResponses[3].1
  {
    forall j | 0 <= j < 3 ensures !Contains(text, DemoResponses[j].0) {
      if j == 0 {
      } else if j == 1 {
      } else {
        assert j == 2;
      }
    }
    DemoReplyAt(message, text, 3);
  }

  /** The keys of the table, in order. */
  lemma DemoKeys()
    ensures DemoResponses[0].0 == "hello" && DemoResponses[1].0 == "hi"
    ensures DemoResponses[2].0 == "how are you" && DemoResponses[3].0 == "what is ai"
  {
  }

  lemma WhatIsAiKeys()
    ensures Contains("what is ai?", "what is ai")
    ensures !Contains("what is ai?", "hello")
    ensures !Contains("what is ai?", "hi")
    ensures !Contains("what is ai?", "how are you")
  {
    assert OccursAt("what is ai?", "what is ai", 0);
    NoOccurrence("what is ai?", "hello");
    NoOccurrence("what is ai?", "hi");
    NoOccurrence("what is ai?", "how are you");
  }

  /** Any message reading "what is ai?" once lower-cased and stripped gets the
      'what is ai' reply: none of 'hello', 'hi' and 'how are you' occurs in it. */
  lemma DemoWhatIsAiText(message: String)
    requires Strip(Lower(message)) == "what is ai?"
    ensures GetDemoResponse(message) == DemoResponses[3].1
  {
    var text := "what is ai?";
    DemoKeys();
    WhatIsAiKeys();
    assert Contains(text, DemoResponses[3].0);
    assert !Contains(text, DemoResponses[0].0) && !Contains(text, DemoResponses[1].0);
    assert !Contains(text, DemoResponses[2].0);
    DemoReplyFourth(message, text);
  }

  /** "What is AI?" gets the 'what is ai' reply. */
  lemma DemoWhatIsAi(message: String)
    requires message == "What is AI?"
    ensures GetDemoResponse(message) == DemoResponses[3].1
  {
    LowerWhatIsAi(message);
    DemoWhatIsAiText(message);
  }

  lemma HiHelloKeys()
    ensures Contains("hi, hello", "hello") && Contains("hi, hello", "hi")
  {
    assert OccursAt("hi, hello", "hello", 4);
    assert OccursAt("hi, hello", "hi", 0);
  }

  lemma WhichOneKeys()
    ensures Contains("which one?", "hi") && !Contains("which one?", "hello")
  {
    assert OccursAt("which one?", "hi", 1);
    NoOccurrence("which one?", "hello");
  }

  /** A message reading "hello there" gets the 'hello' reply, the first key. */
  lemma DemoHelloThere(message: String)
    requires Strip(Lower(message)) == "hello there"
    ensures GetDemoResponse(message) == DemoResponses[0].1
  {
    var text := "hello there";
    DemoKeys();
    HelloKey(text);
    assert Contains(text, DemoResponses[0].0);
    DemoReplyFirst(message, text);
  }

  /** A message holding both 'hi' and 'hello' gets the 'hello' reply, because
      'hello' comes first in the table. */
  lemma DemoHelloBeforeHiText(message: String)
    requires Strip(Lower(message)) == "hi, hello"
    ensures GetDemoResponse(message) == DemoResponses[0].1
  {
    var text := "hi, hello";
    DemoKeys();
    HiHelloKeys();
    assert Contains(text, DemoResponses[0].0);
    DemoReplyFirst(message, text);
  }

  lemma DemoHelloBeforeHi(message: String)
    requires message == "Hi, hello"
    ensures GetDemoResponse(message) == DemoResponses[0].1
  {
    NormalizeHiHello(message);
    DemoHelloBeforeHiText(message);
  }

  /** Keys are matched as substrings, not as words: "which one?" holds 'hi'
      inside "which" and gets the 'hi' reply. */
  lemma DemoSubstringMatchText(message: String)
    requires Strip(Lower(message)) == "which one?"
    ensures GetDemoResponse(message) == DemoResponses[1].1
  {
    var text := "which one?";
    DemoKeys();
    WhichOneKeys();
    assert Contains(text, DemoResponses[1].0) && !Contains(text, DemoResponses[0].0);
    DemoReplySecond(message, text);
  }

  lemma DemoSubstringMatch(message: String)
    requires message == "Which one?"
    ensures GetDemoResponse(message) == DemoResponses[1].1
  {
    NormalizeWhichOne(message);
    DemoSubstringMatchText(message);
  }

  lemma DemoHelloText(message: String)
    requires Strip(Lower(message)) == "hello"
    ensures GetDemoResponse(message) == DemoResponses[0].1
  {
    var text := "hello";
    DemoKeys();
    HelloKey(text);
    assert Contains(text, DemoResponses[0].0);
    DemoReplyFirst(message, text);
  }

  /** "Hello" gets the 'hello' reply. */
  lemma DemoHello(message: String)
    requires message == "Hello"
    ensures GetDemoResponse(message) == DemoResponses[0].1
  {
    NormalizeHello(message);
    DemoHelloText(message);
  }

  /** The first record of an empty store. */
  lemma LearnIntoEmpty(message: String, reply: String, now: Timestamp)
    ensures LearnedResponse([], message) == None
    ensures Learn([], message, reply, now) == [NewEntry(1, message, reply, now)]
  {
    assert Scores([], message) == [];
  }

  /** A store holding only the record of `message` answers `message` from it and
      merges a repeat of `message` into it. */
  lemma RecallOwnQuestion(e: Entry, message: String, reply: String, now: Timestamp)
    requires e.qa.question == message && Tokens(message) != {}
    ensures LearnedResponse([e], message) == Some(e.qa)
    ensures Learn([e], message, reply, now) == [Bump(e, now)]
  {
    assert Score(message, e) == 1.0 by {
      SimilaritySelf(message, message);
    }
    assert Scores([e], message) == [1.0];
    assert BestIndex([1.0]) == Some(0) by {
      assert [1.0][..0] == [];
    }
    assert FirstSimilar([e], message) == Some(0);
  }

  /** The same message, holding at least one word, sent twice to an empty store
      with no collaborator: the first answer comes from the demo table and
      creates one record; the second is served from that record, from the
      store, and only raises its use count to 2. */
  method AskTwice(message: String) returns (first: ChatResult, second: ChatResult, uses: nat)
    requires exists i :: 0 <= i < |message| && !IsSpace(message[i])
    ensures first == Success(GetDemoResponse(message), Demo, 1)
    ensures second == Success(GetDemoResponse(message), Learned, 1)
    ensures uses == 2
  {
    TokensEmpty(message);
    assert message != [];
    var reply := GetDemoResponse(message);
    var kb := new KnowledgeBase();
    LearnIntoEmpty(message, reply, "2024-01-01T00:00:00");
    var consulted;
    first, consulted := HandleChat(kb, message, NoClient, "2024-01-01T00:00:00");
    assert first.message == reply && first.source == Demo;
    var e := NewEntry(1, message, reply, "2024-01-01T00:00:00");
    assert kb.learned == [e];
    RecallOwnQuestion(e, message, reply, "2024-01-01T00:00:01");
    second, consulted := HandleChat(kb, message, NoClient, "2024-01-01T00:00:01");
    assert second.message == reply && second.source == Learned;
    assert kb.learned == [Bump(e, "2024-01-01T00:00:01")];
    uses := kb.learned[0].qa.count;
  }
}
