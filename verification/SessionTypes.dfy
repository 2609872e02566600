/** Messages, sessions and the printed session identifier. */
module SessionTypes {
  import opened Wrappers
  import Text

  datatype MsgRef = MsgRef(
    msgId: int,
    chatId: string,
    replyTo: Option<int>,
    text: string,
    speaker: string,
    ts: string)

  datatype Session = Session(
    sessionId: string,
    chatId: string,
    messages: seq<MsgRef>,
    lastActive: nat)
  {
    function Ids(): set<int> {
      set m | m in messages :: m.msgId
    }

    predicate Has(id: int) {
      id in Ids()
    }

    /** Appends a message and refreshes the time of last activity. */
    function Add(m: MsgRef, now: nat): Session {
      this.(messages := messages + [m], lastActive := now)
    }
  }

  function SessionId(chatId: string, msgId: int): string {
    "s-" + chatId + "-" + Text.Decimal(msgId)
  }

  function NewSession(m: MsgRef, now: nat): Session {
    Session(SessionId(m.chatId, m.msgId), m.chatId, [m], now)
  }

  /** A session carries the identifier printed from its first message. */
  ghost predicate NamedByRoot(s: Session) {
    |s.messages| > 0 && s.sessionId == SessionId(s.messages[0].chatId, s.messages[0].msgId)
  }

  /** With non-negative message ids the printed identifier determines chat and message, whatever
      dashes the chat name holds. */
  lemma SessionIdInjective(c: string, m: nat, d: string, n: nat)
    requires SessionId(c, m) == SessionId(d, n)
    ensures c == d && m == n
  {
    assert ("s-" + c) + "-" + Text.Digits(m) == SessionId(c, m);
    assert ("s-" + d) + "-" + Text.Digits(n) == SessionId(d, n);
    Text.DashedInjective("s-" + c, m, "s-" + d, n);
    assert c == ("s-" + c)[2..] == ("s-" + d)[2..] == d;
  }

  /** A negative message id breaks it: two different chats can print the same identifier. */
  lemma NegativeIdsCollide(c: string, n: int)
    requires n < 0
    ensures SessionId(c, n) == SessionId(c + "-", -n)
    ensures c != c + "-"
  {
    assert "s-" + c + "-" + ("-" + Text.Digits(-n)) == "s-" + (c + "-") + "-" + Text.Digits(-n);
    assert |c| != |c + "-"|;
  }

  lemma AddIds(s: Session, m: MsgRef, now: nat)
    ensures s.Add(m, now).Ids() == s.Ids() + {m.msgId}
  {
    var t := s.Add(m, now);
    assert m in t.messages;
    assert forall x :: x in s.messages ==> x in t.messages;
  }
}
