/** Sending a chat message: the blocked sender, the blank body, and twenty messages a minute. */
module Chat {
  import SlidingWindow
  import Text

  type Time = int // microseconds

  const MINUTE: Time := 60_000_000
  const MAX_MESSAGES_PER_MINUTE := 20
  const MAX_BODY := 1000

  datatype Conversation = Conversation(client: int, professional: int) {
    function OtherParty(user: int): int {
      if user == client then professional else client
    }
  }

  datatype Message = Message(conversation: int, sender: int, body: string, createdAt: Time)

  datatype Outcome = Sent | EmptyMessage | Blocked | TooMany | TooLong

  /** The characters Python's `str.strip` removes. */
  predicate IsSpace(c: char) {
    || '\t' <= c <= '\r' || '\U{1c}' <= c <= ' ' || c == '\U{85}' || c == '\U{a0}' || c == '\U{1680}'
    || '\U{2000}' <= c <= '\U{200a}' || c == '\U{2028}' || c == '\U{2029}' || c == '\U{202f}'
    || c == '\U{205f}' || c == '\U{3000}'
  }

  function Strip(s: string): string {
    Text.Trim(s, IsSpace)
  }

  function RecentOf(messages: seq<Message>, sender: int, now: Time): set<nat> {
    set k: nat | k < |messages| && messages[k].sender == sender && messages[k].createdAt >= now - MINUTE
  }

  /** The messages of the sender that are no older than a minute, in all conversations. */
  function LastMinute(messages: seq<Message>, sender: int, now: Time): set<nat> {
    set k: nat | k < |messages| && messages[k].sender == sender && now <= messages[k].createdAt + 60_000_000
  }

  function SendTimes(messages: seq<Message>): seq<Time> {
    seq(|messages|, k requires 0 <= k < |messages| => messages[k].createdAt)
  }

  function SentBy(messages: seq<Message>, sender: int): set<nat> {
    set k: nat | k < |messages| && messages[k].sender == sender
  }

  /** Every message of the sender passed the limit at the instant it was stamped. */
  ghost predicate Admitted(messages: seq<Message>, sender: int) {
    forall k :: k in SentBy(messages, sender) ==>
      |SlidingWindow.Earlier(SendTimes(messages), SentBy(messages, sender), k, MINUTE)| < MAX_MESSAGES_PER_MINUTE
  }

  class ChatService {
    var messages: seq<Message>
    var blocks: set<(int, int)> // (blocker, blocked)

    ghost predicate Valid()
      reads this
    {
      forall sender :: Admitted(messages, sender)
    }

    constructor ()
      ensures Valid() && messages == [] && blocks == {}
    {
      messages, blocks := [], {};
    }

    method SendMessage(id: int, conversation: Conversation, sender: int, body: string, now: Time)
      returns (outcome: Outcome)
      requires Valid()
      modifies `messages
      ensures Valid()
      ensures messages == if outcome == Sent then old(messages) + [Message(id, sender, Strip(body), now)]
                else old(messages)
      ensures outcome == EmptyMessage <==> forall c :: c in body ==> IsSpace(c)
      ensures outcome != EmptyMessage ==>
                (outcome == Blocked <==>
                  if sender == conversation.client then (conversation.professional, sender) in blocks
                  else (conversation.client, sender) in blocks)
      ensures outcome != EmptyMessage && outcome != Blocked ==>
                (outcome == TooMany <==> |LastMinute(old(messages), sender, now)| >= 20)
      ensures outcome == Sent ==> |Strip(body)| <= 1000
      ensures outcome == TooLong ==> |Strip(body)| > 1000
    {
      var text := Strip(body);
      Text.TrimTrims(body, IsSpace);
      if text == "" {
        return EmptyMessage;
      }
      if (conversation.OtherParty(sender), sender) in blocks {
        return Blocked;
      }
      assert LastMinute(messages, sender, now) == RecentOf(messages, sender, now);
      if |RecentOf(messages, sender, now)| >= MAX_MESSAGES_PER_MINUTE {
        return TooMany;
      }
      if |text| > MAX_BODY {
        return TooLong; // the column rejects it
      }
      var message := Message(id, sender, text, now);
      forall user ensures Admitted(messages + [message], user) {
        SendingKeepsLimit(messages, message, user);
      }
      messages := messages + [message];
      return Sent;
    }

    method BlockUser(conversation: Conversation, blocker: int)
      requires Valid()
      modifies `blocks
      ensures Valid()
      ensures blocks == old(blocks)
                        + {(blocker, if blocker == conversation.client then conversation.professional
                                     else conversation.client)}
    {
      blocks := blocks + {(blocker, conversation.OtherParty(blocker))};
    }

    /** Over all conversations together, no closed interval of 60 seconds holds more than twenty
        messages of one sender. */
    lemma SenderLimit(sender: int, from: Time)
      requires Valid()
      ensures |SlidingWindow.Inside(SendTimes(messages), SentBy(messages, sender), from, from + MINUTE)|
                <= MAX_MESSAGES_PER_MINUTE
    {
      assert Admitted(messages, sender);
      SlidingWindow.AdmittedBound(SendTimes(messages), SentBy(messages, sender), MINUTE, MAX_MESSAGES_PER_MINUTE, from);
    }
  }

  lemma SendingKeepsLimit(messages: seq<Message>, next: Message, sender: int)
    requires Admitted(messages, sender)
    requires |RecentOf(messages, next.sender, next.createdAt)| < MAX_MESSAGES_PER_MINUTE
    ensures Admitted(messages + [next], sender)
  {
    var all, n := messages + [next], |messages|;
    forall k | k in SentBy(all, sender)
      ensures |SlidingWindow.Earlier(SendTimes(all), SentBy(all, sender), k, MINUTE)| < MAX_MESSAGES_PER_MINUTE
    {
      var earlier := SlidingWindow.Earlier(SendTimes(all), SentBy(all, sender), k, MINUTE);
      if k < n {
        assert k in SentBy(messages, sender);
        assert earlier == SlidingWindow.Earlier(SendTimes(messages), SentBy(messages, sender), k, MINUTE);
      } else {
        assert earlier == RecentOf(messages, next.sender, next.createdAt);
      }
    }
  }
}
