/** The chat store: the conversation shown on screen, the text being typed,
    and the simulated streaming of the bot's reply into the conversation. */
module Chat {
  import opened Text

  datatype Sender = User | Bot

  /** One entry of the conversation. `id` is a millisecond timestamp (the
      greeting uses 1). */
  datatype Message = Message(id: int, text: string, sender: Sender)

  /** The text of the bot message the store starts with. */
  const Greeting: string := "Hello! How can I help you today?"

  /** The fixed opening of every simulated reply. */
  const ReplyOpening: string := "This is a mock streamed response for the message: \""

  /** The reply streamed back for the user text `userMessage`: the fixed
      opening, the user's text verbatim, and a closing double quote. */
  function MockResponse(userMessage: string): (r: string)
    ensures |r| == |ReplyOpening| + |userMessage| + 1
    ensures r[..|ReplyOpening|] == ReplyOpening
    ensures r[|ReplyOpening|..|r| - 1] == userMessage
    ensures r[|r| - 1] == '"'
  {
    ReplyOpening + userMessage + "\""
  }

  /** Different user texts get different replies, so the streamed reply
      identifies the message it answers. */
  lemma MockResponseInjective(u: string, v: string)
    requires MockResponse(u) == MockResponse(v)
    ensures u == v
  {
  }

  /** The state captured by one running interval: the position of the bot
      message it writes into (the message object it keeps a reference to),
      the reply it streams, how many characters it has written (`i`), and
      whether it has cleared itself. */
  datatype Stream = Stream(bot: nat, reply: string, i: nat, cleared: bool)

  /** Each interval writes into its own bot message, which holds exactly
      the part of the reply streamed so far; an interval clears itself only
      after the whole reply is out. */
  ghost predicate StreamsFit(messages: seq<Message>, streams: seq<Stream>) {
    (forall k :: 0 <= k < |streams| ==>
      streams[k].bot < |messages| &&
      messages[streams[k].bot].sender == Bot &&
      streams[k].i <= |streams[k].reply| &&
      messages[streams[k].bot].text == streams[k].reply[..streams[k].i] &&
      (streams[k].cleared ==> streams[k].i == |streams[k].reply|)) &&
    (forall j, k :: 0 <= j < k < |streams| ==> streams[j].bot < streams[k].bot)
  }

  /** A send keeps the invariant: the two pushed messages leave every
      earlier bot message where it was, and the new interval starts at the
      new, empty bot message. */
  lemma SendKeepsFit(messages: seq<Message>, streams: seq<Stream>, user: Message, bot: Message, reply: string)
    requires StreamsFit(messages, streams)
    requires bot.sender == Bot && bot.text == ""
    ensures StreamsFit(messages + [user, bot], streams + [Stream(|messages| + 1, reply, 0, false)])
  {
  }

  /** One firing keeps the invariant: the next character of the reply
      extends exactly the prefix already written. */
  lemma TickKeepsFit(messages: seq<Message>, streams: seq<Stream>, k: nat)
    requires StreamsFit(messages, streams)
    requires k < |streams| && streams[k].i < |streams[k].reply|
    ensures var s := streams[k];
      StreamsFit(messages[s.bot := messages[s.bot].(text := messages[s.bot].text + [s.reply[s.i]])],
                 streams[k := s.(i := s.i + 1)])
  {
  }

  class ChatStore {
    /** The conversation, in display order. */
    var messages: seq<Message>
    /** The input box's text. */
    var newMessage: string
    /** Every interval started by a send, oldest first. */
    var streams: seq<Stream>

    /** The store's invariant: its intervals fit its conversation. */
    ghost predicate Valid()
      reads this
    {
      StreamsFit(messages, streams)
    }

    /** The initial state: the greeting alone and an empty input box. */
    constructor ()
      ensures Valid()
      ensures messages == [Message(1, Greeting, Bot)]
      ensures newMessage == ""
      ensures streams == []
    {
      messages := [Message(1, Greeting, Bot)];
      newMessage := "";
      streams := [];
    }

    /** `sendMessage`, with `userNow` and `botNow` standing for the two
        readings of `Date.now()`, for the user message and the bot message. Blank input
        changes nothing. Otherwise the typed text becomes a user message, the
        input box is emptied, an empty bot message follows, and an interval
        starts that will stream the reply into that bot message. */
    method SendMessage(userNow: int, botNow: int)
      requires Valid()
      modifies this
      ensures Valid()
      ensures IsBlank(old(newMessage)) ==>
        messages == old(messages) && newMessage == old(newMessage) && streams == old(streams)
      ensures !IsBlank(old(newMessage)) ==>
        messages == old(messages) + [Message(userNow, old(newMessage), User), Message(botNow + 1, "", Bot)] &&
        newMessage == "" &&
        streams == old(streams) + [Stream(|old(messages)| + 1, MockResponse(old(newMessage)), 0, false)]
    {
      var blank := TrimmedIsEmpty(newMessage);
      if blank {
        return;
      }
      messages := messages + [Message(userNow, newMessage, User)];
      var userMessage := newMessage;
      newMessage := "";
      messages := messages + [Message(botNow + 1, "", Bot)];
      var botMessage := |messages| - 1;
      assert messages == old(messages) + [Message(userNow, userMessage, User), Message(botNow + 1, "", Bot)];
      SendKeepsFit(old(messages), streams, messages[botMessage - 1], messages[botMessage], MockResponse(userMessage));
      streams := streams + [Stream(botMessage, MockResponse(userMessage), 0, false)];
    }

    /** One firing of interval `k`. While characters remain, the next one is
        appended to that interval's bot message and the counter advances;
        once the reply is complete the interval clears itself and writes
        nothing. No other message, interval or the input box changes. */
    method Tick(k: nat)
      requires Valid()
      requires k < |streams| && !streams[k].cleared
      modifies this
      ensures Valid()
      ensures newMessage == old(newMessage)
      ensures |messages| == |old(messages)|
      ensures forall m :: 0 <= m < |messages| && m != old(streams[k].bot) ==> messages[m] == old(messages[m])
      ensures |streams| == |old(streams)|
      ensures forall j :: 0 <= j < |streams| && j != k ==> streams[j] == old(streams[j])
      ensures streams[k].bot == old(streams[k].bot) && streams[k].reply == old(streams[k].reply)
      ensures old(streams[k].i) < |old(streams[k].reply)| ==>
        messages[streams[k].bot] == old(messages[streams[k].bot]).(text := old(messages[streams[k].bot].text) + [streams[k].reply[old(streams[k].i)]]) &&
        streams[k].i == old(streams[k].i) + 1 && !streams[k].cleared
      ensures old(streams[k].i) == |old(streams[k].reply)| ==>
        messages == old(messages) && streams[k].i == old(streams[k].i) && streams[k].cleared
    {
      var s := streams[k];
      if s.i < |s.reply| {
        TickKeepsFit(messages, streams, k);
        var botMessage := messages[s.bot];
        messages := messages[s.bot := botMessage.(text := botMessage.text + [s.reply[s.i]])];
        streams := streams[k := s.(i := s.i + 1)];
      } else {
        streams := streams[k := s.(cleared := true)];
      }
    }

    /** Lets interval `k` fire until it clears itself: afterwards its bot
        message holds the whole reply, and nothing else has changed. */
    method StreamToEnd(k: nat)
      requires Valid()
      requires k < |streams| && !streams[k].cleared
      modifies this
      ensures Valid()
      ensures newMessage == old(newMessage)
      ensures |messages| == |old(messages)|
      ensures forall m :: 0 <= m < |messages| && m != old(streams[k].bot) ==> messages[m] == old(messages[m])
      ensures |streams| == |old(streams)|
      ensures forall j :: 0 <= j < |streams| && j != k ==> streams[j] == old(streams[j])
      ensures streams[k] == old(streams[k]).(i := |old(streams[k].reply)|, cleared := true)
      ensures messages[streams[k].bot] == old(messages[streams[k].bot]).(text := streams[k].reply)
    {
      while !streams[k].cleared
        invariant Valid()
        invariant newMessage == old(newMessage)
        invariant |messages| == |old(messages)|
        invariant forall m :: 0 <= m < |messages| && m != old(streams[k].bot) ==> messages[m] == old(messages[m])
        invariant |streams| == |old(streams)|
        invariant forall j :: 0 <= j < |streams| && j != k ==> streams[j] == old(streams[j])
        invariant streams[k].bot == old(streams[k].bot) && streams[k].reply == old(streams[k].reply)
        invariant messages[streams[k].bot].id == old(messages[streams[k].bot].id)
        decreases |streams[k].reply| - streams[k].i, if streams[k].cleared then 0 else 1
      {
        Tick(k);
      }
    }

    /** `rate`: the rating is only logged, so the store is left as it is. */
    method Rate(rating: string)
      ensures unchanged(this)
    {
    }
  }

  /** Streaming never writes past the reply: every interval's bot message is
      a prefix of its reply, no longer than it, and equals it once the
      interval has cleared itself. */
  lemma StreamedTextIsPrefix(store: ChatStore, k: nat)
    requires store.Valid()
    requires k < |store.streams|
    ensures |store.messages[store.streams[k].bot].text| <= |store.streams[k].reply|
    ensures store.messages[store.streams[k].bot].text <= store.streams[k].reply
    ensures store.streams[k].cleared ==> store.messages[store.streams[k].bot].text == store.streams[k].reply
  {
  }
}

/** A session driven through the store's operations: typing "hi", sending
    it, and letting its interval run out yields the greeting, the user's
    message and the complete reply; typing only spaces and sending adds
    nothing. */
module ChatSession {
  import opened Text
  import opened Chat

  method SendHi(userNow: int, botNow: int) returns (conversation: seq<Message>, input: string)
    ensures conversation == [Message(1, Greeting, Bot), Message(userNow, "hi", User), Message(botNow + 1, MockResponse("hi"), Bot)]
    ensures input == ""
  {
    var store := new ChatStore();
    store.newMessage := "hi";
    assert !IsBlank(store.newMessage) by {
      assert store.newMessage[0] == 'h';
    }
    store.SendMessage(userNow, botNow);
    store.StreamToEnd(0);
    conversation, input := store.messages, store.newMessage;
  }

  method SendSpaces(userNow: int, botNow: int) returns (conversation: seq<Message>, input: string)
    ensures conversation == [Message(1, Greeting, Bot)]
    ensures input == "  "
  {
    var store := new ChatStore();
    store.newMessage := "  ";
    store.SendMessage(userNow, botNow);
    conversation, input := store.messages, store.newMessage;
  }
}
