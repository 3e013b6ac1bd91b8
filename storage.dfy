/** The chat domain model and its mapping to and from the stored rows:
    messages keep their `isUser` flag as the integer 0 or 1 and their status
    as its name; sessions are copied field by field. */
module Storage {
  import opened Ids

  datatype MessageStatus = Sent | Sending | Error

  /** `ChatMessageDomainModel`. */
  datatype ChatMessage = ChatMessage(
    id: Uuid, sessionId: Uuid, content: string, isUser: bool, status: MessageStatus, timestamp: int)

  /** `ChatSessionDomainModel`. */
  datatype ChatSession = ChatSession(id: Uuid, title: string, createdAt: int, lastModified: int)

  /** The stored message row. */
  datatype MessageRow = MessageRow(
    id: Uuid, sessionId: Uuid, content: string, isUser: int, status: string, timestamp: int)

  /** The stored session row. */
  datatype SessionRow = SessionRow(id: Uuid, title: string, createdAt: int, lastModified: int)

  /** A new message, with the constructor's default status. */
  function NewMessage(id: Uuid, sessionId: Uuid, content: string, isUser: bool, timestamp: int): (m: ChatMessage)
    ensures m.status == Sent && m.content == content && m.isUser == isUser
    ensures m.id == id && m.sessionId == sessionId && m.timestamp == timestamp
  {
    ChatMessage(id, sessionId, content, isUser, Sent, timestamp)
  }

  /** The status names a row may hold. */
  const StatusNames: set<string> := {"SENT", "SENDING", "ERROR"}

  /** The status column of `toDataModel`. */
  function StatusName(s: MessageStatus): (r: string)
    ensures r in StatusNames
  {
    match s
    case Sent => "SENT"
    case Sending => "SENDING"
    case Error => "ERROR"
  }

  /** The status of `asDomainModel`: one of the three names, or `Sent` for
      anything else. */
  function StatusOf(name: string): (r: MessageStatus)
    ensures name !in StatusNames ==> r == Sent
  {
    if name == "SENDING" then Sending
    else if name == "ERROR" then Error
    else Sent
  }

  /** Distinct statuses are stored under distinct names, and reading a
      stored name gives the status back. */
  lemma StatusNameInverse(s: MessageStatus, t: MessageStatus)
    ensures StatusOf(StatusName(s)) == s
    ensures StatusName(s) == StatusName(t) <==> s == t
  {
  }

  /** A known name read and written back is the same name. */
  lemma StatusOfInverse(name: string)
    ensures StatusName(StatusOf(name)) == name <==> name in StatusNames
  {
  }

  /** `ChatMessageDomainModel.toDataModel()`. */
  function MessageToRow(m: ChatMessage): (r: MessageRow)
    ensures r.id == m.id && r.sessionId == m.sessionId && r.content == m.content && r.timestamp == m.timestamp
    ensures (m.isUser ==> r.isUser == 1) && (!m.isUser ==> r.isUser == 0)
    ensures StatusOf(r.status) == m.status && r.status in StatusNames
  {
    StatusNameInverse(m.status, m.status);
    MessageRow(m.id, m.sessionId, m.content, if m.isUser then 1 else 0, StatusName(m.status), m.timestamp)
  }

  /** `ChatMessage.asDomainModel()`. */
  function MessageOfRow(row: MessageRow): (m: ChatMessage)
    ensures m.id == row.id && m.sessionId == row.sessionId && m.content == row.content
    ensures m.timestamp == row.timestamp
    ensures m.isUser <==> row.isUser == 1
    ensures row.status == "SENT" ==> m.status == Sent
    ensures row.status == "SENDING" ==> m.status == Sending
    ensures row.status == "ERROR" ==> m.status == Error
    ensures row.status !in StatusNames ==> m.status == Sent
  {
    ChatMessage(row.id, row.sessionId, row.content, row.isUser == 1, StatusOf(row.status), row.timestamp)
  }

  /** A stored message read back is the message written. */
  lemma MessageRoundTrip(m: ChatMessage)
    ensures MessageOfRow(MessageToRow(m)) == m
  {
  }

  /** A row survives being read and written back exactly when its flag is 0
      or 1 and its status one of the three names. */
  lemma RowRoundTrip(row: MessageRow)
    ensures MessageToRow(MessageOfRow(row)) == row <==> row.isUser in {0, 1} && row.status in StatusNames
  {
    if MessageToRow(MessageOfRow(row)) == row {
      assert row.status == StatusName(StatusOf(row.status));
    } else if row.isUser in {0, 1} && row.status in StatusNames {
      StatusOfInverse(row.status);
    }
  }

  /** Reading and writing back normalises a row: once is enough. */
  lemma RowNormalisationIdempotent(row: MessageRow)
    ensures var once := MessageToRow(MessageOfRow(row));
      MessageToRow(MessageOfRow(once)) == once
  {
    MessageRoundTrip(MessageOfRow(row));
  }

  /** `ChatSessionDomainModel.toDataModel()`. */
  function SessionToRow(s: ChatSession): (r: SessionRow)
    ensures r.id == s.id && r.title == s.title && r.createdAt == s.createdAt && r.lastModified == s.lastModified
  {
    SessionRow(s.id, s.title, s.createdAt, s.lastModified)
  }

  /** `ChatSession.asDomainModel()`. */
  function SessionOfRow(row: SessionRow): (s: ChatSession)
    ensures s.id == row.id && s.title == row.title && s.createdAt == row.createdAt && s.lastModified == row.lastModified
  {
    ChatSession(row.id, row.title, row.createdAt, row.lastModified)
  }

  /** No session field is normalised, so both round trips are the identity. */
  lemma SessionRoundTrips(s: ChatSession, row: SessionRow)
    ensures SessionOfRow(SessionToRow(s)) == s
    ensures SessionToRow(SessionOfRow(row)) == row
  {
  }

  /** The list version of `toDataModel` for messages. */
  function MessagesToRows(ms: seq<ChatMessage>): (rs: seq<MessageRow>)
    ensures |rs| == |ms| && forall i | 0 <= i < |ms| :: rs[i] == MessageToRow(ms[i])
  {
    if ms == [] then [] else [MessageToRow(ms[0])] + MessagesToRows(ms[1..])
  }

  /** The list version of `asDomainModel` for messages. */
  function MessagesOfRows(rs: seq<MessageRow>): (ms: seq<ChatMessage>)
    ensures |ms| == |rs| && forall i | 0 <= i < |rs| :: ms[i] == MessageOfRow(rs[i])
  {
    if rs == [] then [] else [MessageOfRow(rs[0])] + MessagesOfRows(rs[1..])
  }

  /** The list version of `toDataModel` for sessions. */
  function SessionsToRows(ss: seq<ChatSession>): (rs: seq<SessionRow>)
    ensures |rs| == |ss| && forall i | 0 <= i < |ss| :: rs[i] == SessionToRow(ss[i])
  {
    if ss == [] then [] else [SessionToRow(ss[0])] + SessionsToRows(ss[1..])
  }

  /** The list version of `asDomainModel` for sessions. */
  function SessionsOfRows(rs: seq<SessionRow>): (ss: seq<ChatSession>)
    ensures |ss| == |rs| && forall i | 0 <= i < |rs| :: ss[i] == SessionOfRow(rs[i])
  {
    if rs == [] then [] else [SessionOfRow(rs[0])] + SessionsOfRows(rs[1..])
  }

  /** Stored lists read back are the lists written, in the same order. */
  lemma ListRoundTrips(ms: seq<ChatMessage>, ss: seq<ChatSession>)
    ensures MessagesOfRows(MessagesToRows(ms)) == ms
    ensures SessionsOfRows(SessionsToRows(ss)) == ss
  {
    var ms' := MessagesOfRows(MessagesToRows(ms));
    forall i | 0 <= i < |ms|
      ensures ms'[i] == ms[i]
    {
      MessageRoundTrip(ms[i]);
    }
  }
}
