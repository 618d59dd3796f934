/**
  The chat-session store of the chat frontend: a most-recent-first list of
  sessions, the id of the active session, and the live message buffer of the
  streaming chat client. The operations are the component's handlers
  (create, select, delete, submit) and its two effects (startup and save).
*/
module ChatInterface {
  import opened Wrappers
  import opened Strings
  import opened Seqs

  /** Session ids are opaque strings (`nanoid()` in the frontend). */
  type Id = string

  datatype Role = User | Assistant

  datatype Message = Message(role: Role, content: string)

  /** A `ChatSession` record; `createdAt` is not modelled. */
  datatype Session = Session(id: Id, title: string, summary: string, messages: seq<Message>)

  const NewChatTitle: string := "New Chat"
  const NewChatSummary: string := "New conversation"
  /** Characters of the first message kept in a derived title. */
  const TitleLength: nat := 30
  const Ellipsis: string := "..."

  /** The record `createNewChat` builds around a fresh id. */
  function NewSession(id: Id): Session
  {
    Session(id, NewChatTitle, NewChatSummary, [])
  }

  function Ids(ss: seq<Session>): set<Id>
  {
    set s | s in ss :: s.id
  }

  predicate UniqueIds(ss: seq<Session>)
  {
    forall i, j :: 0 <= i < j < |ss| ==> ss[i].id != ss[j].id
  }

  /**
    What holds of the list at all times: ids are pairwise distinct and never
    empty (so `if (activeChatId)` tests exactly whether an id is set).
  */
  predicate ListInvariant(ss: seq<Session>)
  {
    UniqueIds(ss) && forall i :: 0 <= i < |ss| ==> ss[i].id != []
  }

  /** Length of the longest id in the list. */
  function LongestId(ss: seq<Session>): (n: nat)
    ensures forall s :: s in ss ==> |s.id| <= n
  {
    if ss == [] then 0
    else
      var rest := LongestId(ss[1..]);
      assert forall s :: s in ss ==> s == ss[0] || s in ss[1..];
      if |ss[0].id| > rest then |ss[0].id| else rest
  }

  /** Stands for `nanoid()`: an id that no session in the list has. */
  function FreshId(ss: seq<Session>): (id: Id)
    ensures id != [] && id !in Ids(ss)
  {
    seq(LongestId(ss) + 1, _ => 'c')
  }

  /** `ss.find(c => c.id === id)`: the first session with that id. */
  function Find(ss: seq<Session>, id: Id): (r: Option<Session>)
    ensures r.Some? <==> id in Ids(ss)
    ensures r.Some? ==> r.value in ss && r.value.id == id
  {
    if ss == [] then None
    else if ss[0].id == id then Some(ss[0])
    else
      assert forall s :: s in ss ==> s == ss[0] || s in ss[1..];
      Find(ss[1..], id)
  }

  /** With distinct ids, looking up the id of any session finds that session. */
  lemma {:induction false} FindUnique(ss: seq<Session>, i: nat)
    requires UniqueIds(ss) && i < |ss|
    ensures Find(ss, ss[i].id) == Some(ss[i])
  {
    if i > 0 {
      assert ss[0].id != ss[i].id;
      assert ss[1..][i - 1] == ss[i];
      FindUnique(ss[1..], i - 1);
    }
  }

  /** `prev.map(s => s.id === id ? f(s) : s)`. */
  function UpdateWhere(ss: seq<Session>, id: Id, f: Session -> Session): (r: seq<Session>)
    ensures |r| == |ss|
    ensures forall i {:trigger r[i]} :: 0 <= i < |ss| ==> r[i] == if ss[i].id == id then f(ss[i]) else ss[i]
  {
    if ss == [] then []
    else [if ss[0].id == id then f(ss[0]) else ss[0]] + UpdateWhere(ss[1..], id, f)
  }

  function SetMessages(msgs: seq<Message>): Session -> Session
  {
    (s: Session) => s.(messages := msgs)
  }

  function SetTitle(title: string): Session -> Session
  {
    (s: Session) => s.(title := title)
  }

  /** The save effect's update: the session with `id` gets `msgs` as its history; nothing else changes. */
  function WithMessages(ss: seq<Session>, id: Id, msgs: seq<Message>): (r: seq<Session>)
    ensures |r| == |ss|
    ensures forall i {:trigger r[i]} :: 0 <= i < |ss| ==> r[i].id == ss[i].id && r[i].title == ss[i].title && r[i].summary == ss[i].summary
    ensures forall i {:trigger r[i]} :: 0 <= i < |ss| ==> r[i].messages == if ss[i].id == id then msgs else ss[i].messages
  {
    UpdateWhere(ss, id, SetMessages(msgs))
  }

  /** The title update of the submit handler: the session with `id` gets `title`; nothing else changes. */
  function WithTitle(ss: seq<Session>, id: Id, title: string): (r: seq<Session>)
    ensures |r| == |ss|
    ensures forall i {:trigger r[i]} :: 0 <= i < |ss| ==> r[i].id == ss[i].id && r[i].summary == ss[i].summary && r[i].messages == ss[i].messages
    ensures forall i {:trigger r[i]} :: 0 <= i < |ss| ==> r[i].title == if ss[i].id == id then title else ss[i].title
  {
    UpdateWhere(ss, id, SetTitle(title))
  }

  /** Saving the same buffer twice is the same as saving it once. */
  lemma SaveIdempotent(ss: seq<Session>, id: Id, msgs: seq<Message>)
    ensures WithMessages(WithMessages(ss, id, msgs), id, msgs) == WithMessages(ss, id, msgs)
  {
    var once := WithMessages(ss, id, msgs);
    var twice := WithMessages(once, id, msgs);
    forall i | 0 <= i < |ss|
      ensures twice[i] == once[i]
    {
    }
  }

  /** Saving a buffer a session already holds changes nothing. */
  lemma {:induction false} SaveSynced(ss: seq<Session>, s: Session, msgs: seq<Message>)
    requires UniqueIds(ss) && s in ss && s.messages == msgs
    ensures WithMessages(ss, s.id, msgs) == ss
  {
    var r := WithMessages(ss, s.id, msgs);
    var k :| 0 <= k < |ss| && ss[k] == s;
    forall i | 0 <= i < |ss|
      ensures r[i] == ss[i]
    {
      if ss[i].id == s.id {
        assert i == k;
      }
    }
  }

  /** Lists whose ids agree position by position share the invariant and the id set. */
  lemma SameIds(ss: seq<Session>, r: seq<Session>)
    requires |r| == |ss| && forall i :: 0 <= i < |ss| ==> r[i].id == ss[i].id
    ensures ListInvariant(r) <==> ListInvariant(ss)
    ensures Ids(r) == Ids(ss)
  {
    forall id | id in Ids(ss) ensures id in Ids(r) {
      var k :| 0 <= k < |ss| && ss[k].id == id;
      assert r[k] in r;
    }
    forall id | id in Ids(r) ensures id in Ids(ss) {
      var k :| 0 <= k < |r| && r[k].id == id;
      assert ss[k] in ss;
    }
  }

  /** After the save step the session with `id` holds the saved buffer and nothing else about it changed. */
  lemma SavedIsStored(ss: seq<Session>, id: Id, msgs: seq<Message>)
    requires ListInvariant(ss) && id in Ids(ss)
    ensures var r := WithMessages(ss, id, msgs);
      ListInvariant(r) && id in Ids(r) && Find(r, id) == Some(Find(ss, id).value.(messages := msgs))
  {
    var r := WithMessages(ss, id, msgs);
    SameIds(ss, r);
    var k :| 0 <= k < |ss| && ss[k].id == id;
    FindUnique(ss, k);
    FindUnique(r, k);
  }

  /** After the title update the session with `id` carries the new title and nothing else about it changed. */
  lemma TitleIsStored(ss: seq<Session>, id: Id, title: string)
    requires ListInvariant(ss) && id in Ids(ss)
    ensures var r := WithTitle(ss, id, title);
      ListInvariant(r) && id in Ids(r) && Find(r, id) == Some(Find(ss, id).value.(title := title))
  {
    var r := WithTitle(ss, id, title);
    SameIds(ss, r);
    var k :| 0 <= k < |ss| && ss[k].id == id;
    FindUnique(ss, k);
    FindUnique(r, k);
  }

  /** `deleteChat`'s filter keeps the sessions whose id is not `id`. */
  function Other(id: Id): Session -> bool
  {
    (s: Session) => s.id != id
  }

  /** `prev.filter(c => c.id !== id)`. */
  function RemoveSession(ss: seq<Session>, id: Id): seq<Session>
  {
    Filter(ss, Other(id))
  }

  /** The tail of a well-formed list is well formed and does not repeat the head's id. */
  lemma TailInvariant(ss: seq<Session>)
    requires ListInvariant(ss) && ss != []
    ensures ListInvariant(ss[1..]) && ss[0].id !in Ids(ss[1..])
    ensures Ids(ss) == {ss[0].id} + Ids(ss[1..])
  {
    forall i, j | 0 <= i < j < |ss[1..]| ensures ss[1..][i].id != ss[1..][j].id {
      assert ss[1..][i] == ss[i + 1] && ss[1..][j] == ss[j + 1];
    }
    assert ss == [ss[0]] + ss[1..];
  }

  /** Prepending a session with a new, non-empty id keeps the list well formed. */
  lemma ConsInvariant(head: Session, rest: seq<Session>)
    requires ListInvariant(rest) && head.id != [] && head.id !in Ids(rest)
    ensures ListInvariant([head] + rest) && Ids([head] + rest) == {head.id} + Ids(rest)
  {
    var r := [head] + rest;
    forall i, j | 0 <= i < j < |r| ensures r[i].id != r[j].id {
      assert r[j] == rest[j - 1] && r[j] in r;
      if i > 0 {
        assert r[i] == rest[i - 1];
      } else {
        assert rest[j - 1] in rest;
      }
    }
  }

  /** Removing a session deletes exactly the records with that id and keeps the others, in order. */
  lemma RemoveSessionKeepsOthers(ss: seq<Session>, id: Id)
    ensures Subsequence(RemoveSession(ss, id), ss)
    ensures forall s :: s in RemoveSession(ss, id) <==> s in ss && s.id != id
  {
    FilterSubsequence(ss, Other(id));
    forall s ensures s in RemoveSession(ss, id) <==> s in ss && s.id != id {
      FilterMembership(ss, Other(id), s);
    }
  }

  /**
    On a well-formed list, removal keeps the list well formed, drops exactly
    `id` from the id set and shortens the list by one exactly when `id` was present.
  */
  lemma {:induction false} RemoveSessionIds(ss: seq<Session>, id: Id)
    requires ListInvariant(ss)
    ensures var r := RemoveSession(ss, id);
      ListInvariant(r) && Ids(r) == Ids(ss) - {id} &&
      |r| == if id in Ids(ss) then |ss| - 1 else |ss|
  {
    if ss != [] {
      var r := RemoveSession(ss, id);
      var rest := RemoveSession(ss[1..], id);
      TailInvariant(ss);
      RemoveSessionIds(ss[1..], id);
      if ss[0].id != id {
        assert r == [ss[0]] + rest;
        ConsInvariant(ss[0], rest);
      } else {
        assert r == rest;
      }
    }
  }

  /** Removing one id does not disturb the lookup of any other id. */
  lemma FindAfterRemove(ss: seq<Session>, id: Id, other: Id)
    requires ListInvariant(ss) && other != id && other in Ids(ss)
    ensures Find(RemoveSession(ss, id), other) == Find(ss, other)
  {
    RemoveSessionKeepsOthers(ss, id);
    RemoveSessionIds(ss, id);
    var r := RemoveSession(ss, id);
    var s := Find(ss, other).value;
    assert s in r;
    var k :| 0 <= k < |r| && r[k] == s;
    var j :| 0 <= j < |ss| && ss[j] == s;
    FindUnique(r, k);
    FindUnique(ss, j);
  }

  /**
    `input.slice(0, 30) + (input.length > 30 ? "..." : "")`: the title a
    session takes from its first message.
  */
  function DeriveTitle(input: string): (t: string)
    ensures |t| <= TitleLength + |Ellipsis|
    ensures |input| <= TitleLength ==> t == input
    ensures |input| > TitleLength ==> |t| == TitleLength + |Ellipsis| && input[..TitleLength] <= t && t[TitleLength..] == Ellipsis
  {
    if |input| > TitleLength then input[..TitleLength] + Ellipsis else input
  }

  /** A 34-character first message is cut to its first 30 characters and marked with "...". */
  lemma LongFirstMessageTitle()
    ensures DeriveTitle("Show me the latest legal documents") == "Show me the latest legal docum..."
  {
    var input := "Show me the latest legal documents";
    assert |input| == 34;
    assert input[..TitleLength] == "Show me the latest legal docum";
  }

  /**
    The session list after a non-blank submit: the title update (only while
    the buffer is empty), then the save of the buffer with the user message
    appended.
  */
  function Submitted(ss: seq<Session>, id: Id, buffer: seq<Message>, input: string): seq<Session>
  {
    WithMessages(if buffer == [] then WithTitle(ss, id, DeriveTitle(input)) else ss,
                 id, buffer + [Message(User, input)])
  }

  /**
    A submit retitles the active session from its first message only, appends
    the user message to its history, and keeps the list well formed.
  */
  lemma SubmittedSpec(ss: seq<Session>, id: Id, buffer: seq<Message>, input: string)
    requires ListInvariant(ss) && id in Ids(ss)
    ensures var r := Submitted(ss, id, buffer, input);
      ListInvariant(r) && |r| == |ss| && id in Ids(r) &&
      Find(r, id) == Some(Find(ss, id).value.(
        title := if buffer == [] then DeriveTitle(input) else Find(ss, id).value.title,
        messages := buffer + [Message(User, input)]))
  {
    var titled := if buffer == [] then WithTitle(ss, id, DeriveTitle(input)) else ss;
    if buffer == [] {
      TitleIsStored(ss, id, DeriveTitle(input));
    }
    SavedIsStored(titled, id, buffer + [Message(User, input)]);
  }

  /**
    The component's state. `sessions` is `chatSessions`, `active` is
    `activeChatId` and `buffer` is the `messages` array of the chat hook.
    React runs the save effect after each render in which `messages` or
    `activeChatId` changed, so the operations that change the buffer or the
    active id end with `SaveActiveSession`; the others leave both as they
    were and do not call it.
  */
  class ChatStore {
    var sessions: seq<Session>
    var active: Option<Id>
    var buffer: seq<Message>

    /** The active id, when set, names a stored session whose history is the buffer. */
    ghost predicate WellFormed()
      reads this
    {
      ListInvariant(sessions) &&
      (active.Some? ==> active.value in Ids(sessions) && Find(sessions, active.value).value.messages == buffer)
    }

    /** After the startup effect: some session exists and one of them is active. */
    ghost predicate Valid()
      reads this
    {
      WellFormed() && sessions != [] && active.Some?
    }

    /** The first render followed by the startup effect. */
    constructor ()
      ensures Valid()
      ensures |sessions| == 1 && sessions[0] == NewSession(sessions[0].id)
      ensures active == Some(sessions[0].id) && buffer == []
    {
      sessions := [];
      active := None;
      buffer := [];
      new;
      Startup();
    }

    /** The save effect: copy the buffer into the session whose id is active. */
    method SaveActiveSession()
      modifies this
      ensures active == old(active) && buffer == old(buffer)
      ensures sessions == if active.Some? then WithMessages(old(sessions), active.value, buffer) else old(sessions)
    {
      if active.Some? {
        sessions := WithMessages(sessions, active.value, buffer);
      }
    }

    /** The startup effect: create a session when there is none, else activate the first if none is active. */
    method Startup()
      requires WellFormed()
      modifies this
      ensures Valid()
      ensures old(sessions) == [] ==>
        |sessions| == 1 && sessions[0] == NewSession(sessions[0].id) &&
        active == Some(sessions[0].id) && buffer == []
      ensures old(sessions) != [] && old(active).None? ==>
        active == Some(old(sessions)[0].id) && buffer == old(buffer) &&
        sessions == WithMessages(old(sessions), old(sessions)[0].id, buffer)
      ensures old(sessions) != [] && old(active).Some? ==>
        sessions == old(sessions) && active == old(active) && buffer == old(buffer)
    {
      if sessions == [] {
        CreateNewChat();
      } else if active.None? {
        assert sessions[0] in sessions;
        active := Some(sessions[0].id);
        SaveActiveSession();
        SavedIsStored(old(sessions), active.value, buffer);
      }
    }

    /** `createNewChat`: prepend a fresh empty session, make it active and clear the buffer. */
    method CreateNewChat()
      requires ListInvariant(sessions)
      modifies this
      ensures Valid()
      ensures |sessions| == |old(sessions)| + 1 && sessions[1..] == old(sessions)
      ensures sessions[0] == NewSession(sessions[0].id) && sessions[0].id !in Ids(old(sessions))
      ensures active == Some(sessions[0].id) && buffer == []
    {
      var id := FreshId(sessions);
      var prev := sessions;
      sessions := [NewSession(id)] + prev;
      assert sessions[1..] == prev;
      ConsInvariant(NewSession(id), prev);
      active := Some(id);
      buffer := [];
      assert sessions[0] in sessions;
      SaveSynced(sessions, sessions[0], []);
      SaveActiveSession();
      FindUnique(sessions, 0);
    }

    /** `loadChat`: activate an existing session and load its history; an unknown id changes nothing. */
    method LoadChat(id: Id)
      requires Valid()
      modifies this
      ensures Valid() && sessions == old(sessions)
      ensures id in Ids(sessions) ==> active == Some(id) && buffer == Find(sessions, id).value.messages
      ensures id !in Ids(sessions) ==> active == old(active) && buffer == old(buffer)
    {
      var chat := Find(sessions, id);
      if chat.Some? {
        active := Some(id);
        buffer := chat.value.messages;
        SaveSynced(sessions, chat.value, buffer);
        SaveActiveSession();
      }
    }

    /**
      `deleteChat`: remove the session; when it was the active one, promote the
      first remaining session, or create a fresh one when none remains.
    */
    method DeleteChat(id: Id)
      requires Valid()
      modifies this
      ensures Valid()
      ensures old(active) != Some(id) ==>
        sessions == RemoveSession(old(sessions), id) && active == old(active) && buffer == old(buffer)
      ensures old(active) == Some(id) && |old(sessions)| > 1 ==>
        sessions == RemoveSession(old(sessions), id) && sessions != [] &&
        active == Some(sessions[0].id) && buffer == sessions[0].messages
      ensures old(active) == Some(id) && |old(sessions)| == 1 ==>
        |sessions| == 1 && sessions[0] == NewSession(sessions[0].id) &&
        active == Some(sessions[0].id) && buffer == []
    {
      var rendered := sessions;
      RemoveSessionKeepsOthers(rendered, id);
      RemoveSessionIds(rendered, id);
      sessions := RemoveSession(rendered, id);
      if active == Some(id) {
        if |rendered| > 1 {
          var remaining := RemoveSession(rendered, id);
          assert remaining[0] in remaining;
          active := Some(remaining[0].id);
          buffer := remaining[0].messages;
          SaveSynced(sessions, remaining[0], buffer);
          SaveActiveSession();
          FindUnique(sessions, 0);
        } else {
          CreateNewChat();
        }
      } else {
        FindAfterRemove(rendered, id, active.value);
      }
    }

    /**
      `handleFormSubmit`: whitespace-only input is ignored; otherwise, while
      the buffer is still empty, the active session is retitled from the
      input, and then the chat hook's `handleSubmit` sends it.
    */
    method Submit(input: string) returns (sent: bool)
      requires Valid()
      modifies this
      ensures Valid() && active == old(active)
      ensures sent <==> Trim(input) != []
      ensures !sent ==> sessions == old(sessions) && buffer == old(buffer)
      ensures sent ==> buffer == old(buffer) + [Message(User, input)]
      ensures sent ==> sessions == Submitted(old(sessions), active.value, old(buffer), input)
    {
      if Trim(input) == [] {
        return false;
      }
      var id, prev, history := active.value, sessions, buffer;
      if history == [] {
        TitleIsStored(prev, id, DeriveTitle(input));
        sessions := WithTitle(prev, id, DeriveTitle(input));
      }
      ghost var titled := sessions;
      assert titled == if history == [] then WithTitle(prev, id, DeriveTitle(input)) else prev;
      HandleSubmit(input);
      assert sessions == WithMessages(titled, id, history + [Message(User, input)]);
      sent := true;
    }

    /**
      The chat hook's `handleSubmit`, as far as the store sees it: the user
      turn is appended to the buffer and the save effect stores it. The
      request to the chat backend and the streamed reply are not modelled.
    */
    method HandleSubmit(input: string)
      requires Valid()
      modifies this
      ensures Valid() && active == old(active)
      ensures buffer == old(buffer) + [Message(User, input)]
      ensures sessions == WithMessages(old(sessions), active.value, buffer)
    {
      buffer := buffer + [Message(User, input)];
      SavedIsStored(sessions, active.value, buffer);
      SaveActiveSession();
    }

    /**
      The streaming client replaces the buffer (a token arrived or a turn
      completed); the save effect then copies it into the active session.
    */
    method ReceiveMessages(msgs: seq<Message>)
      requires Valid()
      modifies this
      ensures Valid() && active == old(active) && buffer == msgs
      ensures sessions == WithMessages(old(sessions), active.value, msgs)
    {
      buffer := msgs;
      SaveActiveSession();
      SavedIsStored(old(sessions), active.value, msgs);
    }
  }
}
