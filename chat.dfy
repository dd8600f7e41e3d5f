/** The two chat transcripts of the deep-dive page: the legacy chat panel over the selected
    documents (DeepDive.js:607-638), which rolls its user turn back when the request fails and
    keeps the first session id the server hands out, and the Pro chat (DeepDive.js:944-963), which
    keeps a failed user turn and takes the session id of every reply. The server's answer is a
    parameter. Ids are opaque non-empty strings, so a missing id is None. */
module Chat {
  import opened Wrappers
  import opened Strings

  datatype Role = User | Assistant

  datatype Message = Message(role: Role, content: string)

  /** The outcome of a chat request: it throws, or the server replies with a session id and text. */
  datatype Reply = Failed | Replied(sessionId: string, text: string)

  /** The body the legacy panel posts to /chat. */
  datatype ChatRequest = ChatRequest(sessionId: Option<string>, documentIds: seq<string>, message: string)

  /** The body the Pro chat posts to /pro/chat. */
  datatype ProChatRequest = ProChatRequest(sessionId: Option<string>, proDocumentId: string, message: string, geminiKey: string)

  /** The state of the legacy chat panel (DeepDive.js:608-611). */
  datatype PanelState = PanelState(messages: seq<Message>, input: string, loading: bool, sessionId: Option<string>)

  /** The guard of sendMessage: a blank input or no documents sends nothing. */
  predicate Refused(st: PanelState, documentIds: seq<string>)
  {
    IsBlank(st.input) || documentIds == []
  }

  /** `prev.slice(0, -1)`. */
  function DropLast<T>(s: seq<T>): (r: seq<T>)
    ensures s != [] ==> s == r + [s[|s| - 1]]
    ensures s == [] ==> r == []
  {
    if s == [] then [] else s[..|s| - 1]
  }

  /** The request sendMessage posts, if its guard lets it through. */
  function RequestOf(st: PanelState, documentIds: seq<string>): Option<ChatRequest>
  {
    if Refused(st, documentIds) then None else Some(ChatRequest(st.sessionId, documentIds, st.input))
  }

  /** The panel after one sendMessage, the server answering `reply`. */
  function Send(st: PanelState, documentIds: seq<string>, reply: Reply): PanelState
  {
    if Refused(st, documentIds) then st
    else
      var asked := st.messages + [Message(User, st.input)];
      match reply
      case Failed => PanelState(DropLast(asked), "", false, st.sessionId)
      case Replied(id, text) =>
        PanelState(asked + [Message(Assistant, text)], "", false, if st.sessionId.None? then Some(id) else st.sessionId)
  }

  /** sendMessage changes nothing exactly when its guard refuses; a refused send posts nothing. */
  lemma SendUnchangedIffRefused(st: PanelState, documentIds: seq<string>, reply: Reply)
    ensures Send(st, documentIds, reply) == st <==> Refused(st, documentIds)
    ensures RequestOf(st, documentIds).None? <==> Refused(st, documentIds)
  {
    if !Refused(st, documentIds) {
      assert st.input != [];
    }
  }

  /** A failed request takes back exactly the user turn it added: the transcript and the session
      are what they were, and only the input is cleared. */
  lemma FailureRollsBack(st: PanelState, documentIds: seq<string>)
    requires !Refused(st, documentIds)
    ensures Send(st, documentIds, Failed) == st.(input := "", loading := false)
  {
    assert DropLast(st.messages + [Message(User, st.input)]) == st.messages;
  }

  /** One exchange at the panel: the user types `input`, then sends. */
  datatype Turn = Turn(input: string, reply: Reply)

  function Converse(st: PanelState, documentIds: seq<string>, turns: seq<Turn>): PanelState
    decreases |turns|
  {
    if turns == [] then st
    else Converse(Send(st.(input := turns[0].input), documentIds, turns[0].reply), documentIds, turns[1..])
  }

  /** The user and assistant messages of the turns that were sent and answered, in order. */
  function Answered(documentIds: seq<string>, turns: seq<Turn>): seq<Message>
    decreases |turns|
  {
    if turns == [] then []
    else
      var t := turns[0];
      (if documentIds != [] && !IsBlank(t.input) && t.reply.Replied?
       then [Message(User, t.input), Message(Assistant, t.reply.text)]
       else [])
      + Answered(documentIds, turns[1..])
  }

  /** Over a conversation the transcript gains exactly the answered exchanges, in order: failed
      requests leave no trace. */
  lemma {:induction false} ConverseTranscript(st: PanelState, documentIds: seq<string>, turns: seq<Turn>)
    ensures Converse(st, documentIds, turns).messages == st.messages + Answered(documentIds, turns)
    decreases |turns|
  {
    if turns != [] {
      var t := turns[0];
      var next := Send(st.(input := t.input), documentIds, t.reply);
      if !Refused(st.(input := t.input), documentIds) && t.reply.Failed? {
        FailureRollsBack(st.(input := t.input), documentIds);
      }
      ConverseTranscript(next, documentIds, turns[1..]);
    }
  }

  /** Once the panel holds a session id it keeps it for the rest of the conversation. */
  lemma {:induction false} ConverseKeepsSession(st: PanelState, documentIds: seq<string>, turns: seq<Turn>)
    requires st.sessionId.Some?
    ensures Converse(st, documentIds, turns).sessionId == st.sessionId
    decreases |turns|
  {
    if turns != [] {
      ConverseKeepsSession(Send(st.(input := turns[0].input), documentIds, turns[0].reply), documentIds, turns[1..]);
    }
  }

  /** The legacy chat panel. */
  class ChatPanel {
    var messages: seq<Message>
    var input: string
    var loading: bool
    var sessionId: Option<string>

    function State(): PanelState
      reads this
    {
      PanelState(messages, input, loading, sessionId)
    }

    constructor ()
      ensures State() == PanelState([], "", false, None)
    {
      messages, input, loading, sessionId := [], "", false, None;
    }

    /** sendMessage (DeepDive.js:618-638) over the panel's `documentIds`. */
    method SendMessage(documentIds: seq<string>, reply: Reply) returns (request: Option<ChatRequest>)
      modifies this
      ensures State() == Send(old(State()), documentIds, reply)
      ensures request == RequestOf(old(State()), documentIds)
    {
      TrimIsEmptyIffBlank(input);
      if Trim(input) == [] || |documentIds| == 0 {
        return None;
      }
      messages := messages + [Message(User, input)];
      var msg := input;
      input := "";
      loading := true;
      request := Some(ChatRequest(sessionId, documentIds, msg));
      match reply {
        case Replied(id, text) =>
          if sessionId.None? {
            sessionId := Some(id);
          }
          messages := messages + [Message(Assistant, text)];
        case Failed =>
          messages := DropLast(messages);
      }
      loading := false;
    }
  }

  /** The Pro chat state of the page (DeepDive.js:709-711). */
  datatype ProChatState = ProChatState(selectedProDoc: Option<string>, messages: seq<Message>, sessionId: Option<string>)

  /** The guards of sendProChat: a Pro document is selected, and neither the key nor the message is
      blank. */
  predicate ProChatAllowed(st: ProChatState, geminiKey: string, message: string)
  {
    st.selectedProDoc.Some? && !IsBlank(geminiKey) && !IsBlank(message)
  }

  function ProRequestOf(st: ProChatState, geminiKey: string, message: string): Option<ProChatRequest>
  {
    if ProChatAllowed(st, geminiKey, message)
    then Some(ProChatRequest(st.sessionId, st.selectedProDoc.value, message, Trim(geminiKey)))
    else None
  }

  /** The Pro chat after one sendProChat. */
  function ProSend(st: ProChatState, geminiKey: string, message: string, reply: Reply): ProChatState
  {
    if !ProChatAllowed(st, geminiKey, message) then st
    else
      var asked := st.messages + [Message(User, message)];
      match reply
      case Failed => st.(messages := asked)
      case Replied(id, text) => st.(messages := asked + [Message(Assistant, text)], sessionId := Some(id))
  }

  /** Picking a Pro document starts a fresh conversation (DeepDive.js:1337). */
  function SelectProDocument(st: ProChatState, id: string): (r: ProChatState)
    ensures r.selectedProDoc == Some(id) && r.messages == [] && r.sessionId.None?
  {
    ProChatState(Some(id), [], None)
  }

  /** The user turns and replies the Pro chat shows: every message sent past the guards, each
      followed by its answer when there is one. */
  function ProShown(selected: bool, geminiKey: string, turns: seq<Turn>): seq<Message>
    decreases |turns|
  {
    if turns == [] then []
    else
      var t := turns[0];
      (if selected && !IsBlank(geminiKey) && !IsBlank(t.input)
       then [Message(User, t.input)] + (if t.reply.Replied? then [Message(Assistant, t.reply.text)] else [])
       else [])
      + ProShown(selected, geminiKey, turns[1..])
  }

  /** The session id after the turns: the id of the last reply, if any turn was answered. */
  function LastSession(sessionId: Option<string>, selected: bool, geminiKey: string, turns: seq<Turn>): Option<string>
    decreases |turns|
  {
    if turns == [] then sessionId
    else
      var t := turns[|turns| - 1];
      if selected && !IsBlank(geminiKey) && !IsBlank(t.input) && t.reply.Replied?
      then Some(t.reply.sessionId)
      else LastSession(sessionId, selected, geminiKey, turns[..|turns| - 1])
  }

  function ProConverse(st: ProChatState, geminiKey: string, turns: seq<Turn>): ProChatState
    decreases |turns|
  {
    if turns == [] then st
    else ProConverse(ProSend(st, geminiKey, turns[0].input, turns[0].reply), geminiKey, turns[1..])
  }

  /** The Pro chat never takes a turn back, and its session id is that of the latest reply. */
  lemma {:induction false} ProConverseOutcome(st: ProChatState, geminiKey: string, turns: seq<Turn>)
    ensures var r := ProConverse(st, geminiKey, turns);
      && r.messages == st.messages + ProShown(st.selectedProDoc.Some?, geminiKey, turns)
      && r.sessionId == LastSession(st.sessionId, st.selectedProDoc.Some?, geminiKey, turns)
      && r.selectedProDoc == st.selectedProDoc
    decreases |turns|
  {
    if turns != [] {
      var next := ProSend(st, geminiKey, turns[0].input, turns[0].reply);
      ProConverseOutcome(next, geminiKey, turns[1..]);
      LastSessionCons(st.sessionId, st.selectedProDoc.Some?, geminiKey, turns);
    }
  }

  /** LastSession read front to back: the first turn sets the starting id of the rest. */
  lemma {:induction false} LastSessionCons(sessionId: Option<string>, selected: bool, geminiKey: string, turns: seq<Turn>)
    requires turns != []
    ensures var t := turns[0];
      var first := if selected && !IsBlank(geminiKey) && !IsBlank(t.input) && t.reply.Replied?
        then Some(t.reply.sessionId) else sessionId;
      LastSession(sessionId, selected, geminiKey, turns) == LastSession(first, selected, geminiKey, turns[1..])
    decreases |turns|
  {
    if |turns| > 1 {
      var init := turns[..|turns| - 1];
      assert init[0] == turns[0] && init[1..] == turns[1..][..|turns[1..]| - 1];
      LastSessionCons(sessionId, selected, geminiKey, init);
    }
  }

  /** The Pro chat state of the page as fields the handlers update. */
  class ProChat {
    var selectedProDoc: Option<string>
    var messages: seq<Message>
    var sessionId: Option<string>

    function State(): ProChatState
      reads this
    {
      ProChatState(selectedProDoc, messages, sessionId)
    }

    constructor ()
      ensures State() == ProChatState(None, [], None)
    {
      selectedProDoc, messages, sessionId := None, [], None;
    }

    /** sendProChat (DeepDive.js:944-963). */
    method SendProChat(geminiKey: string, message: string, reply: Reply) returns (request: Option<ProChatRequest>)
      modifies this
      ensures State() == ProSend(old(State()), geminiKey, message, reply)
      ensures request == ProRequestOf(old(State()), geminiKey, message)
    {
      TrimIsEmptyIffBlank(geminiKey);
      TrimIsEmptyIffBlank(message);
      if selectedProDoc.None? {
        return None;
      }
      if Trim(geminiKey) == [] {
        return None;
      }
      if Trim(message) == [] {
        return None;
      }
      messages := messages + [Message(User, message)];
      request := Some(ProChatRequest(sessionId, selectedProDoc.value, message, Trim(geminiKey)));
      match reply {
        case Replied(id, text) =>
          sessionId := Some(id);
          messages := messages + [Message(Assistant, text)];
        case Failed =>
      }
    }

    /** The Pro document picker's change handler (DeepDive.js:1337). */
    method Select(id: string)
      modifies this
      ensures State() == SelectProDocument(old(State()), id)
    {
      selectedProDoc := Some(id);
      sessionId := None;
      messages := [];
    }
  }
}
