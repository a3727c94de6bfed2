/** Signalling messages and the topics they travel on. */
module SignalMessages {
  import Text
  import opened SignalSessions

  const PROTOCOL_VERSION := 1
  const MAX_MESSAGE_TYPE := 64

  /** The envelope the server writes; `sender` comes from the authenticated request, never from the body. */
  datatype Envelope = Envelope(
    version: int, sessionId: string, callId: string, kind: string, sender: string, payload: string)

  predicate ValidEnvelope(e: Envelope) {
    && e.version == PROTOCOL_VERSION
    && Text.Trim(e.sessionId) != ""
    && Text.Trim(e.callId) != "" && |e.callId| <= MAX_CALL_ID
    && Text.Trim(e.kind) != "" && |e.kind| <= MAX_MESSAGE_TYPE
    && e.payload != ""
  }

  function SessionTopic(sessionId: string): string {
    "session/" + sessionId
  }

  function InboxTopic(user: string): string {
    "inbox/" + user
  }

  /** Topic names are injective, and the two kinds never meet. */
  lemma TopicsApart(a: string, b: string)
    ensures SessionTopic(a) == SessionTopic(b) ==> a == b
    ensures InboxTopic(a) == InboxTopic(b) ==> a == b
    ensures SessionTopic(a) != InboxTopic(b)
  {
    assert SessionTopic(a)[|"session/"|..] == a && SessionTopic(b)[|"session/"|..] == b;
    assert InboxTopic(a)[|"inbox/"|..] == a && InboxTopic(b)[|"inbox/"|..] == b;
    assert SessionTopic(a)[0] == 's' && InboxTopic(b)[0] == 'i';
  }
}
