/** The state both view models keep on screen: the messages of a session,
    replaced one at a time by id as a reply streams in, and the session list
    with the current session, renamed by id. The two view models share
    these rules word for word. */
module Conversation {
  import opened Wrappers
  import opened Ids
  import opened Storage

  /** `indexOfFirst { it.id == id }`: the index of the first message with
      the id, or -1. */
  function FirstIndexById(ms: seq<ChatMessage>, id: Uuid): (k: int)
    ensures -1 <= k < |ms|
    ensures k == -1 <==> forall j | 0 <= j < |ms| :: ms[j].id != id
    ensures k != -1 ==> ms[k].id == id && forall j | 0 <= j < k :: ms[j].id != id
  {
    if ms == [] then -1
    else if ms[0].id == id then 0
    else
      var k := FirstIndexById(ms[1..], id);
      if k == -1 then -1 else k + 1
  }

  /** The search of `indexOfFirst`, front to back. */
  method IndexOfFirst(ms: seq<ChatMessage>, id: Uuid) returns (index: int)
    ensures index == FirstIndexById(ms, id)
  {
    var i := 0;
    while i < |ms|
      invariant 0 <= i <= |ms|
      invariant forall j | 0 <= j < i :: ms[j].id != id
    {
      if ms[i].id == id {
        return i;
      }
      i := i + 1;
    }
    return -1;
  }

  /** `list[indexOfFirst { it.id == m.id }] = m` when there is such an
      element; the list unchanged otherwise. */
  function ReplaceFirstById(ms: seq<ChatMessage>, m: ChatMessage): (r: seq<ChatMessage>)
    ensures |r| == |ms|
  {
    var k := FirstIndexById(ms, m.id);
    if k == -1 then ms else ms[k := m]
  }

  /** A replacement changes only the first message with the id, keeps every
      position's id, and leaves a list without the id alone. */
  lemma ReplaceFirstOnly(ms: seq<ChatMessage>, m: ChatMessage)
    ensures var r := ReplaceFirstById(ms, m);
      && (forall j | 0 <= j < |ms| :: r[j].id == ms[j].id)
      && ((forall j | 0 <= j < |ms| :: ms[j].id != m.id) ==> r == ms)
      && forall j | 0 <= j < |ms| ::
           if j == FirstIndexById(ms, m.id) then r[j] == m else r[j] == ms[j]
  {
  }

  /** Replacing by the same id twice is replacing once with the later
      message: the first match stays where it was. */
  lemma ReplaceTwice(ms: seq<ChatMessage>, m1: ChatMessage, m2: ChatMessage)
    requires m1.id == m2.id
    ensures ReplaceFirstById(ReplaceFirstById(ms, m1), m2) == ReplaceFirstById(ms, m2)
  {
    var k := FirstIndexById(ms, m1.id);
    if k != -1 {
      var r := ms[k := m1];
      assert r[k].id == m2.id;
      assert forall j | 0 <= j < k :: r[j].id != m2.id;
      FirstIndexAt(r, m2.id, k);
    }
  }

  /** The first index is the only index with the id and none before it. */
  lemma FirstIndexAt(ms: seq<ChatMessage>, id: Uuid, k: int)
    requires 0 <= k < |ms| && ms[k].id == id
    requires forall j | 0 <= j < k :: ms[j].id != id
    ensures FirstIndexById(ms, id) == k
  {
  }

  /** `takeLast(n)`. */
  function TakeLast<T>(s: seq<T>, n: nat): seq<T>
  {
    if |s| <= n then s else s[|s| - n..]
  }

  /** The window holds the last `n` elements (all of them when there are
      fewer), in their original order. */
  lemma TakeLastSuffix<T>(s: seq<T>, n: nat)
    ensures var r := TakeLast(s, n);
      && |r| == (if |s| <= n then |s| else n)
      && s == s[..|s| - |r|] + r
  {
  }

  /** `find { it.id == id }` over the session list. */
  function FindSession(sessions: seq<ChatSession>, id: Uuid): (r: Option<ChatSession>)
    ensures r.None? <==> forall j | 0 <= j < |sessions| :: sessions[j].id != id
    ensures r.Some? ==> exists j | 0 <= j < |sessions| :: sessions[j] == r.value && r.value.id == id
    ensures r.Some? ==> forall j | 0 <= j < |sessions| && sessions[j].id == id ::
      r.value == sessions[j] || exists i | 0 <= i < j :: sessions[i].id == id
  {
    if sessions == [] then None
    else if sessions[0].id == id then Some(sessions[0])
    else FindSession(sessions[1..], id)
  }

  /** The session list and the current session. */
  datatype Sessions = Sessions(list: seq<ChatSession>, current: Option<ChatSession>)

  /** The state update of `renameSession`: the first session with the id,
      retitled, takes the place of every session with the id and of the
      current session when that has the id; without such a session nothing
      changes. */
  function Rename(s: Sessions, id: Uuid, title: string): (r: Sessions)
    ensures |r.list| == |s.list|
  {
    match FindSession(s.list, id)
    case None => s
    case Some(found) =>
      var renamed := found.(title := title);
      var current := if s.current.Some? && s.current.value.id == id then Some(renamed) else s.current;
      Sessions(ReplaceAllById(s.list, renamed), current)
  }

  /** `map { if (it.id == s.id) s else it }`. */
  function ReplaceAllById(list: seq<ChatSession>, s: ChatSession): (r: seq<ChatSession>)
    ensures |r| == |list|
    ensures forall j | 0 <= j < |list| :: r[j] == if list[j].id == s.id then s else list[j]
  {
    if list == [] then [] else [if list[0].id == s.id then s else list[0]] + ReplaceAllById(list[1..], s)
  }

  /** Renaming retitles exactly the sessions with the id and keeps their
      ids, dates and positions; the others, and a current session with
      another id, stay as they were. */
  lemma RenameOnly(s: Sessions, id: Uuid, title: string)
    ensures var r := Rename(s, id, title);
      && (forall j | 0 <= j < |s.list| && s.list[j].id != id :: r.list[j] == s.list[j])
      && (forall j | 0 <= j < |s.list| && s.list[j].id == id ::
            r.list[j].id == id && r.list[j].title == title)
      && (s.current.None? || s.current.value.id != id ==> r.current == s.current)
      && (s.current.Some? && s.current.value.id == id && FindSession(s.list, id).Some? ==>
            r.current.Some? && r.current.value.id == id && r.current.value.title == title)
      && ((forall j | 0 <= j < |s.list| :: s.list[j].id != id) ==> r == s)
  {
  }

  /** Renaming twice to the same title is renaming once. */
  lemma RenameIdempotent(s: Sessions, id: Uuid, title: string)
    ensures Rename(Rename(s, id, title), id, title) == Rename(s, id, title)
  {
    match FindSession(s.list, id)
    case None =>
    case Some(found) =>
      var renamed := found.(title := title);
      FindAfterReplaceAll(s.list, renamed);
      ReplaceAllSettled(ReplaceAllById(s.list, renamed), renamed);
  }

  /** After every session with the id is replaced by `s`, the first session
      with the id is `s`. */
  lemma {:induction false} FindAfterReplaceAll(list: seq<ChatSession>, s: ChatSession)
    requires FindSession(list, s.id).Some?
    ensures FindSession(ReplaceAllById(list, s), s.id) == Some(s)
  {
    var r := ReplaceAllById(list, s);
    if list[0].id != s.id {
      assert r[1..] == ReplaceAllById(list[1..], s);
      FindAfterReplaceAll(list[1..], s);
    }
  }

  /** A list whose sessions with the id are all `s` is left as it is. */
  lemma ReplaceAllSettled(list: seq<ChatSession>, s: ChatSession)
    requires forall j | 0 <= j < |list| && list[j].id == s.id :: list[j] == s
    ensures ReplaceAllById(list, s) == list
  {
  }

  /** `retryMessage`: the content to send again, for an assistant message
      that failed, and nothing for any other message. */
  function Retry(m: ChatMessage): (r: Option<string>)
    ensures r.Some? <==> !m.isUser && m.status == Error
    ensures r.Some? ==> r.value == m.content
  {
    if !m.isUser && m.status == Error then Some(m.content) else None
  }
}
