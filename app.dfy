/** The conversation state machine of App.tsx: the four pieces of component
    state as the fields of one object, one method per handler, and the
    streamed reply as separate events that other handlers may interleave with. */
module App {
  import opened Types
  import opened Text
  import opened Store

  /** What the model service is asked: the utterance, the filtered history and
      the persona of the conversation's domain, whose instruction text is
      Constants.SystemInstruction(persona). */
  datatype Request = Request(message: string, history: seq<Message>, persona: DomainID) {
    /** The turns the chat service is given: the history, then the new message as a user turn. */
    function Turns(): seq<Message> {
      history + [Message(User, message)]
    }
  }

  /** The request a send builds from conversation c: its history already ends
      with the new user message, which is then sent once more as the new message,
      so the service sees that user turn twice in a row. */
  lemma SentTurnsRepeatUserMessage(c: Conversation, text: string)
    ensures var q := Request(text, OutgoingHistory(c.messages + [Message(User, text)]), c.domain);
      && |q.Turns()| == |OutgoingHistory(c.messages)| + 2
      && q.Turns()[..|q.Turns()| - 2] == OutgoingHistory(c.messages)
      && q.Turns()[|q.Turns()| - 2] == q.Turns()[|q.Turns()| - 1] == Message(User, text)
  {
    SubmittedHistoryEndsWithUserMessage(c.messages, text);
  }

  /** A send in flight: the conversation id captured when it started, and its request. */
  datatype Pending = Pending(target: string, request: Request)

  /** How starting a send ended: rejected by the guard; stopped at the early
      return when no conversation matched (the busy flag stays set); or the
      request was issued. */
  datatype SendOutcome = Ignored | Stuck | Started(pending: Pending)

  /** The guard of the send handler: `!userMessage.trim() || !currentConversationId`
      rejects; an empty id is falsy too. */
  predicate PassesSendGuard(text: string, current: Option<string>) {
    Trim(text) != [] && current.Some? && current.value != ""
  }

  lemma SendGuardMeaning(text: string, current: Option<string>)
    ensures PassesSendGuard(text, current) <==> !IsBlank(text) && current.Some? && current.value != ""
  {
    TrimEmptyIffBlank(text);
  }

  class App {
    var conversations: seq<Conversation>
    var currentConversationId: Option<string>
    var isLoading: bool
    var isHistoryPanelOpen: bool

    /** The state before the start-up effect runs. */
    constructor()
      ensures conversations == [] && currentConversationId == None
      ensures !isLoading && !isHistoryPanelOpen
    {
      conversations := [];
      currentConversationId := None;
      isLoading := false;
      isHistoryPanelOpen := false;
    }

    /** The displayed conversation: the first one carrying the current id. */
    function CurrentConversation(): (r: Option<Conversation>)
      reads this
      ensures r.Some? ==> currentConversationId == Some(r.value.id) && r.value in conversations
      ensures r.Some? ==> r.value == conversations[IndexOf(conversations, currentConversationId.value).value]
      ensures r.None? <==> currentConversationId.None? || IndexOf(conversations, currentConversationId.value).None?
    {
      if currentConversationId.None? then None else FindById(conversations, currentConversationId.value)
    }

    /** The active tab: the current conversation's domain, CARS when there is none. */
    function ActiveDomain(): (d: DomainID)
      reads this
      ensures CurrentConversation().Some? ==> d == CurrentConversation().value.domain
      ensures CurrentConversation().None? ==> d == Cars
    {
      match CurrentConversation()
      case Some(c) => c.domain
      case None => Cars
    }

    /** The messages shown, empty when there is no current conversation. */
    function Messages(): (m: seq<Message>)
      reads this
      ensures CurrentConversation().Some? ==> m == CurrentConversation().value.messages
      ensures CurrentConversation().None? ==> m == []
    {
      match CurrentConversation()
      case Some(c) => c.messages
      case None => []
    }

    /** Exactly one conversation is active: the current id is set and names a stored conversation. */
    predicate HasCurrent()
      reads this
    {
      currentConversationId.Some? && IndexOf(conversations, currentConversationId.value).Some?
    }

    /** `startNewChat(domain, existing)`: append a greeted chat, select it, close the panel. */
    method StartNewChat(domain: DomainID, existing: seq<Conversation>, now: nat)
      modifies this
      ensures conversations == existing + [NewConversation(domain, now)]
      ensures currentConversationId == Some(NatToString(now))
      ensures !isHistoryPanelOpen && isLoading == old(isLoading)
      ensures HasCurrent()
    {
      var c := NewConversation(domain, now);
      conversations := existing + [c];
      currentConversationId := Some(c.id);
      isHistoryPanelOpen := false;
      assert conversations[|existing|].id == c.id;
    }

    /** The start-up effect: the saved list (None when absent or unparsable)
        followed by a new CARS chat, which becomes current. */
    method Load(saved: Option<seq<Conversation>>, now: nat)
      modifies this
      ensures conversations == StartupList(saved, now)
      ensures currentConversationId == Some(NatToString(now))
      ensures !isHistoryPanelOpen && isLoading == old(isLoading)
      ensures HasCurrent()
    {
      match saved
      case Some(parsed) =>
        conversations := parsed;
        StartNewChat(Cars, parsed, now);
      case None =>
        StartNewChat(Cars, [], now);
    }

    /** The history panel's "New Chat" button: a new chat in the active domain. */
    method NewChat(now: nat)
      modifies this
      ensures conversations == old(conversations) + [NewConversation(old(ActiveDomain()), now)]
      ensures currentConversationId == Some(NatToString(now))
      ensures !isHistoryPanelOpen && isLoading == old(isLoading)
      ensures HasCurrent()
    {
      StartNewChat(ActiveDomain(), conversations, now);
    }

    method OpenHistory()
      modifies this
      ensures isHistoryPanelOpen
      ensures conversations == old(conversations) && currentConversationId == old(currentConversationId)
      ensures isLoading == old(isLoading)
    {
      isHistoryPanelOpen := true;
    }

    method CloseHistory()
      modifies this
      ensures !isHistoryPanelOpen
      ensures conversations == old(conversations) && currentConversationId == old(currentConversationId)
      ensures isLoading == old(isLoading)
    {
      isHistoryPanelOpen := false;
    }

    /** `handleDomainChange`: an unused current chat (at most one message) is
        re-greeted in place; otherwise a new chat is started on the current list. */
    method HandleDomainChange(domain: DomainID, now: nat)
      modifies this
      ensures var cc := old(CurrentConversation());
        if cc.Some? && |cc.value.messages| <= 1 then
          && conversations == UpdateWhere(old(conversations), cc.value.id, Replace(Regreeted(cc.value, domain)))
          && currentConversationId == old(currentConversationId)
          && isHistoryPanelOpen == old(isHistoryPanelOpen)
        else
          && conversations == old(conversations) + [NewConversation(domain, now)]
          && currentConversationId == Some(NatToString(now))
          && !isHistoryPanelOpen
      ensures isLoading == old(isLoading)
      ensures HasCurrent()
    {
      var cc := CurrentConversation();
      if cc.Some? && |cc.value.messages| <= 1 {
        var id := currentConversationId.value;
        var e := Replace(Regreeted(cc.value, domain));
        assert IndexOf(conversations, id).Some?;
        UpdateWhereKeepsIds(conversations, id, e);
        conversations := UpdateWhere(conversations, id, e);
      } else {
        StartNewChat(domain, conversations, now);
      }
    }

    /** `handleSelectConversation`: select the id and close the panel. */
    method HandleSelectConversation(id: string)
      modifies this
      ensures currentConversationId == Some(id) && !isHistoryPanelOpen
      ensures conversations == old(conversations) && isLoading == old(isLoading)
      ensures HasCurrent() <==> IndexOf(conversations, id).Some?
    {
      currentConversationId := Some(id);
      isHistoryPanelOpen := false;
    }

    /** `handleDeleteConversation`: drop every conversation with the id; if it was
        current, fall back to the most recent survivor or to a fresh CARS chat. */
    method HandleDeleteConversation(id: string, now: nat)
      modifies this
      ensures var rest := DeleteWhere(old(conversations), id);
        if old(currentConversationId) != Some(id) then
          && conversations == rest
          && currentConversationId == old(currentConversationId)
          && isHistoryPanelOpen == old(isHistoryPanelOpen)
        else if |rest| > 0 then
          && conversations == rest
          && currentConversationId == Some(MostRecentId(rest))
          && isHistoryPanelOpen == old(isHistoryPanelOpen)
        else
          && conversations == [NewConversation(Cars, now)]
          && currentConversationId == Some(NatToString(now))
          && !isHistoryPanelOpen
      ensures isLoading == old(isLoading)
      ensures old(HasCurrent()) ==> HasCurrent()
    {
      var rest := DeleteWhere(conversations, id);
      if currentConversationId.Some? && currentConversationId.value != id && HasCurrent() {
        DeleteWhereKeepsOthers(conversations, id, currentConversationId.value);
      }
      conversations := rest;
      if currentConversationId == Some(id) {
        if |rest| > 0 {
          currentConversationId := Some(MostRecentId(rest));
        } else {
          StartNewChat(Cars, [], now);
        }
      }
    }

    /** Start of `handleSendMessage`: the guard, the user message and the
        placeholder on the current conversation, the busy flag, and the request
        built from the conversation as it stood with the user message added. */
    method SendStart(text: string, now: nat) returns (r: SendOutcome)
      modifies this
      ensures r == Ignored <==> !PassesSendGuard(text, old(currentConversationId))
      ensures !PassesSendGuard(text, old(currentConversationId)) ==>
        && r == Ignored
        && conversations == old(conversations) && isLoading == old(isLoading)
      ensures PassesSendGuard(text, old(currentConversationId)) ==>
        var id := old(currentConversationId).value;
        && conversations == AfterUserTurn(old(conversations), id, text, now)
        && isLoading
        && (r == Stuck <==> IndexOf(old(conversations), id).None?)
        && (r.Started? ==>
              var c := FindById(old(conversations), id).value;
              r.pending == Pending(id, Request(text, OutgoingHistory(c.messages + [Message(User, text)]), c.domain)))
      ensures currentConversationId == old(currentConversationId)
      ensures isHistoryPanelOpen == old(isHistoryPanelOpen)
      ensures old(HasCurrent()) ==> HasCurrent() && r != Stuck
    {
      if !PassesSendGuard(text, currentConversationId) {
        return Ignored;
      }
      var id := currentConversationId.value;
      ghost var before := conversations;
      UserTurnInTwoSteps(before, id, text, now);
      var found := AddUserTurn(id, text, now);
      if found.None? {
        return Stuck;
      }
      var c := found.value;
      r := Started(Pending(id, Request(text, OutgoingHistory(c.messages), c.domain)));
    }

    /** The two list updates of a send and the busy flag: the user message with the
        send instant, then the empty model placeholder. Returns the target as it
        stood after the first update, which the request is built from. */
    method AddUserTurn(id: string, text: string, now: nat) returns (found: Option<Conversation>)
      modifies this
      ensures conversations == AfterUserTurn(old(conversations), id, text, now)
      ensures found == FindById(UpdateWhere(old(conversations), id, AddUserMessage(text, now)), id)
      ensures isLoading
      ensures currentConversationId == old(currentConversationId)
      ensures isHistoryPanelOpen == old(isHistoryPanelOpen)
    {
      UserTurnInTwoSteps(conversations, id, text, now);
      var updated := UpdateWhere(conversations, id, AddUserMessage(text, now));
      found := FindById(updated, id);
      conversations := updated;
      isLoading := true;
      conversations := UpdateWhere(conversations, id, AddPlaceholder);
    }

    /** One stream fragment, applied to the conversation captured at send time. */
    method Chunk(p: Pending, chunk: string)
      modifies this
      ensures conversations == AfterChunk(old(conversations), p.target, chunk)
      ensures currentConversationId == old(currentConversationId)
      ensures isHistoryPanelOpen == old(isHistoryPanelOpen) && isLoading == old(isLoading)
      ensures old(HasCurrent()) ==> HasCurrent()
    {
      UpdateWhereKeepsIds(conversations, p.target, AppendChunk(chunk));
      conversations := AfterChunk(conversations, p.target, chunk);
    }

    /** The stream or the call failed: the catch block, then the finally block. */
    method Fail(p: Pending)
      modifies this
      ensures conversations == UpdateWhere(old(conversations), p.target, ShowError)
      ensures !isLoading
      ensures currentConversationId == old(currentConversationId)
      ensures isHistoryPanelOpen == old(isHistoryPanelOpen)
      ensures old(HasCurrent()) ==> HasCurrent()
    {
      UpdateWhereKeepsIds(conversations, p.target, ShowError);
      conversations := UpdateWhere(conversations, p.target, ShowError);
      isLoading := false;
    }

    /** The stream completed: the finally block. */
    method End(p: Pending)
      modifies this
      ensures !isLoading
      ensures conversations == old(conversations) && currentConversationId == old(currentConversationId)
      ensures isHistoryPanelOpen == old(isHistoryPanelOpen)
    {
      isLoading := false;
    }

    /** All of `handleSendMessage` with nothing interleaved: start, every fragment
        in order (the `for await` loop), then failure or normal completion. */
    method RunSend(text: string, now: nat, chunks: seq<string>, fails: bool) returns (r: SendOutcome)
      modifies this
      ensures r == Ignored <==> !PassesSendGuard(text, old(currentConversationId))
      ensures PassesSendGuard(text, old(currentConversationId)) ==>
        (r == Stuck <==> IndexOf(old(conversations), old(currentConversationId).value).None?)
      ensures !PassesSendGuard(text, old(currentConversationId)) ==>
        r == Ignored && conversations == old(conversations) && isLoading == old(isLoading)
      ensures r == Stuck ==> isLoading && conversations == old(conversations)
      ensures r.Started? ==>
        var id := old(currentConversationId).value;
        var streamed := ApplyChunks(AfterUserTurn(old(conversations), id, text, now), id, chunks);
        && r.pending.target == id
        && conversations == (if fails then UpdateWhere(streamed, id, ShowError) else streamed)
        && !isLoading
      ensures currentConversationId == old(currentConversationId)
      ensures isHistoryPanelOpen == old(isHistoryPanelOpen)
      ensures old(HasCurrent()) ==> HasCurrent()
    {
      ghost var before := conversations;
      r := SendStart(text, now);
      if r == Stuck {
        UpdateWhereMissing(before, currentConversationId.value, UserTurn(text, now));
      }
      if !r.Started? {
        return;
      }
      Stream(r.pending, chunks);
      if fails {
        Fail(r.pending);
      } else {
        End(r.pending);
      }
    }

    /** The `for await` loop: every fragment, in arrival order, into the captured target. */
    method Stream(p: Pending, chunks: seq<string>)
      modifies this
      ensures conversations == ApplyChunks(old(conversations), p.target, chunks)
      ensures currentConversationId == old(currentConversationId)
      ensures isHistoryPanelOpen == old(isHistoryPanelOpen) && isLoading == old(isLoading)
      ensures old(HasCurrent()) ==> HasCurrent()
    {
      ghost var started := conversations;
      var i := 0;
      while i < |chunks|
        invariant 0 <= i <= |chunks|
        invariant conversations == ApplyChunks(started, p.target, chunks[..i])
        invariant currentConversationId == old(currentConversationId)
        invariant isHistoryPanelOpen == old(isHistoryPanelOpen) && isLoading == old(isLoading)
        invariant old(HasCurrent()) ==> HasCurrent()
      {
        ApplyChunksSnoc(started, p.target, chunks[..i], chunks[i]);
        assert chunks[..i + 1] == chunks[..i] + [chunks[i]];
        Chunk(p, chunks[i]);
        i := i + 1;
      }
      assert chunks[..|chunks|] == chunks;
    }
  }
}
