/** The AI lab page's chat bookkeeping: the session list, the open session and
    its messages, and how sending, starting, loading and deleting a chat move
    that state. Database rows and the chat reply are parameters. */
module AiLab {
  import opened Optional
  import opened JsText
  import opened JsMath

  datatype Role = UserRole | AiRole

  datatype Message = Message(role: Role, content: string)

  datatype Session = Session(id: string, title: string, createdAt: string)

  /** The page's state hooks that the handlers touch. */
  datatype ChatState = ChatState(
    sessions: seq<Session>,
    currentId: Option<string>,
    messages: seq<Message>,
    input: string,
    aiLoading: bool)

  const TitleLength: nat := 12

  /** `content.slice(0, 12) + (content.length > 12 ? "..." : "")`. */
  function SessionTitle(content: string): (t: string)
    ensures |content| <= TitleLength ==> t == content
    ensures |content| > TitleLength ==> t == content[..TitleLength] + "..."
    ensures |t| <= TitleLength + 3
    ensures var k := Min(TitleLength, |content|); |t| >= k && t[..k] == content[..k]
  {
    content[..Min(TitleLength, |content|)] + (if |content| > TitleLength then "..." else "")
  }

  /** `handleSend`'s guard, negated: the input has a non-whitespace
      character and no reply is pending. */
  predicate CanSend(s: ChatState)
  {
    Trim(s.input) != "" && !s.aiLoading
  }

  /** `currentSessionId` is truthy. */
  predicate HasSession(s: ChatState)
  {
    s.currentId.Some? && s.currentId.value != ""
  }

  /** The row the session insert returns: its id and creation time (the
      title is the one the page sent). */
  datatype SessionRow = SessionRow(id: string, createdAt: string)

  /** The synchronous start of `handleSend`: clear the input, mark a reply
      pending, show the user's message. */
  function BeginSend(s: ChatState): ChatState
  {
    s.(input := "", aiLoading := true, messages := s.messages + [Message(UserRole, s.input)])
  }

  /** Opening a session for a first message: `None` when the insert failed,
      which aborts the send. */
  function OpenSession(s: ChatState, content: string, created: Option<SessionRow>): Option<ChatState>
  {
    if HasSession(s) then Some(s)
    else match created
      case None => None
      case Some(row) =>
        Some(s.(currentId := Some(row.id), sessions := [Session(row.id, SessionTitle(content), row.createdAt)] + s.sessions))
  }

  /** `handleSend` as a whole. `created` is the session insert's returned
      row and `reply` the chat service's answer (`None` when the request or
      its JSON failed or carried an error). */
  function Send(s: ChatState, created: Option<SessionRow>, reply: Option<string>): (r: ChatState)
    ensures !CanSend(s) ==> r == s
    ensures CanSend(s) ==> r.input == "" && !r.aiLoading
    ensures CanSend(s) ==>
      var delivered := (HasSession(s) || created.Some?) && reply.Some?;
      r.messages == s.messages + [Message(UserRole, s.input)]
                    + (if delivered then [Message(AiRole, reply.value)] else [])
    ensures CanSend(s) && !HasSession(s) && created.Some? ==>
      && r.currentId == Some(created.value.id)
      && r.sessions == [Session(created.value.id, SessionTitle(s.input), created.value.createdAt)] + s.sessions
    ensures HasSession(s) || created.None? ==> r.sessions == s.sessions && r.currentId == s.currentId
  {
    if !CanSend(s) then s
    else
      var content := s.input;
      var started := BeginSend(s);
      match OpenSession(started, content, created)
      case None => started.(aiLoading := false)
      case Some(live) =>
        match reply
        case None => live.(aiLoading := false)
        case Some(text) => live.(messages := live.messages + [Message(AiRole, text)], aiLoading := false)
  }

  /** A blank or whitespace-only input is never sent. */
  lemma BlankInputIgnored(s: ChatState, created: Option<SessionRow>, reply: Option<string>)
    requires forall k :: 0 <= k < |s.input| ==> IsWhitespace(s.input[k])
    ensures Send(s, created, reply) == s
  {
  }

  /** `handleNewChat`. */
  function NewChat(s: ChatState): (r: ChatState)
    ensures r.currentId.None? && r.messages == []
    ensures r.sessions == s.sessions && r.input == s.input && r.aiLoading == s.aiLoading
  {
    s.(currentId := None, messages := [])
  }

  /** `loadSession`: open the session and show its stored messages; `rows`
      is `None` when the query returned no data. */
  function LoadSession(s: ChatState, id: string, rows: Option<seq<Message>>): (r: ChatState)
    ensures r.currentId == Some(id) && !r.aiLoading
    ensures r.messages == rows.GetOr(s.messages)
    ensures r.sessions == s.sessions && r.input == s.input
  {
    s.(currentId := Some(id), messages := rows.GetOr(s.messages), aiLoading := false)
  }

  /** `prev.filter(s => s.id !== id)`. */
  function RemoveSession(ss: seq<Session>, id: string): (r: seq<Session>)
    ensures forall x :: x in r <==> x in ss && x.id != id
    ensures |r| <= |ss|
  {
    if |ss| == 0 then []
    else if ss[0].id == id then RemoveSession(ss[1..], id)
    else [ss[0]] + RemoveSession(ss[1..], id)
  }

  /** Removal works piecewise, so the surviving sessions keep their order. */
  lemma {:induction false} RemoveSessionAppend(a: seq<Session>, b: seq<Session>, id: string)
    ensures RemoveSession(a + b, id) == RemoveSession(a, id) + RemoveSession(b, id)
    decreases |a|
  {
    if |a| == 0 {
      assert a + b == b;
    } else {
      assert (a + b)[1..] == a[1..] + b;
      RemoveSessionAppend(a[1..], b, id);
    }
  }

  /** Removing an id no session has changes nothing. */
  lemma {:induction false} RemoveAbsentSession(ss: seq<Session>, id: string)
    requires forall k :: 0 <= k < |ss| ==> ss[k].id != id
    ensures RemoveSession(ss, id) == ss
    decreases |ss|
  {
    if |ss| > 0 {
      RemoveAbsentSession(ss[1..], id);
    }
  }

  /** `handleDeleteSession`: nothing happens unless the user confirms and the
      delete succeeds; then every session with that id leaves the list, and
      if it was the open one the page starts a new chat. */
  function DeleteSession(s: ChatState, id: string, confirmed: bool, deleteFailed: bool): (r: ChatState)
    ensures !confirmed || deleteFailed ==> r == s
    ensures confirmed && !deleteFailed ==> r.sessions == RemoveSession(s.sessions, id)
    ensures confirmed && !deleteFailed && s.currentId == Some(id) ==> r.currentId.None? && r.messages == []
    ensures s.currentId != Some(id) ==> r.currentId == s.currentId && r.messages == s.messages
    ensures r.input == s.input && r.aiLoading == s.aiLoading
  {
    if !confirmed || deleteFailed then s
    else
      var pruned := s.(sessions := RemoveSession(s.sessions, id));
      if s.currentId == Some(id) then NewChat(pruned) else pruned
  }

  /** Deleting twice is deleting once. */
  lemma DeleteTwice(s: ChatState, id: string)
    ensures DeleteSession(DeleteSession(s, id, true, false), id, true, false) == DeleteSession(s, id, true, false)
  {
    var once := DeleteSession(s, id, true, false);
    forall k | 0 <= k < |once.sessions|
      ensures once.sessions[k].id != id
    {
      assert once.sessions[k] in once.sessions;
    }
    RemoveAbsentSession(once.sessions, id);
  }

  // ---------------------------------------------------------------------------
  // The open session is one of the listed sessions
  // ---------------------------------------------------------------------------

  /** Some listed session has this id. */
  predicate Listed(ss: seq<Session>, id: string)
  {
    exists k :: 0 <= k < |ss| && ss[k].id == id
  }

  /** The page's invariant: a truthy `currentSessionId` names a session in
      the sidebar list. */
  predicate OpenSessionListed(s: ChatState)
  {
    HasSession(s) ==> Listed(s.sessions, s.currentId.value)
  }

  /** Sending keeps the open session listed: either the open session and the
      list are untouched, or the new session is both opened and prepended. */
  lemma SendKeepsOpenSessionListed(s: ChatState, created: Option<SessionRow>, reply: Option<string>)
    requires OpenSessionListed(s)
    ensures OpenSessionListed(Send(s, created, reply))
  {
    var r := Send(s, created, reply);
    if CanSend(s) && !HasSession(s) && created.Some? {
      assert r.sessions[0].id == created.value.id;
    }
  }

  /** A new chat has no open session. */
  lemma NewChatKeepsOpenSessionListed(s: ChatState)
    ensures OpenSessionListed(NewChat(s))
  {
  }

  /** Loading a session picked from the list opens a listed session. */
  lemma LoadSessionOpensListed(s: ChatState, id: string, rows: Option<seq<Message>>)
    requires Listed(s.sessions, id)
    ensures OpenSessionListed(LoadSession(s, id, rows))
  {
  }

  /** Deleting keeps the open session listed: deleting the open one closes
      it, and deleting another keeps the open one in the filtered list. */
  lemma DeleteKeepsOpenSessionListed(s: ChatState, id: string, confirmed: bool, deleteFailed: bool)
    requires OpenSessionListed(s)
    ensures OpenSessionListed(DeleteSession(s, id, confirmed, deleteFailed))
  {
    var r := DeleteSession(s, id, confirmed, deleteFailed);
    if confirmed && !deleteFailed && HasSession(r) {
      var k :| 0 <= k < |s.sessions| && s.sessions[k].id == s.currentId.value;
      assert s.sessions[k] in RemoveSession(s.sessions, id);
      var m :| 0 <= m < |r.sessions| && r.sessions[m] == s.sessions[k];
    }
  }
}
