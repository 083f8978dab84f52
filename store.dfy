/** The pure list updates inside App.tsx's handlers: each `map`, `filter` and
    spread expression the handlers hand to setConversations, and the lemmas
    that say what they do to the conversation list. */
module Store {
  import opened Types
  import opened Text
  import Constants
  import Recency

  /** Text that replaces a model reply when the service call fails. */
  const ErrorText := "An error occurred. Please try again."
  /** Opening phrases by which the outgoing history recognises greeting turns. */
  const GreetingPrefix := "Hey there!"
  const RegreetingPrefix := "Alright, let's talk"

  /** `DOMAINS.find(d => d.id === id)?.name || fallback`: an empty name also falls back. */
  function TopicName(id: DomainID, fallback: string): (name: string)
    ensures Constants.FindDomain(Constants.Domains, id).None? ==> name == fallback
    ensures name != fallback ==> name == Constants.FindDomain(Constants.Domains, id).value.name
  {
    match Constants.FindDomain(Constants.Domains, id)
    case Some(d) => if d.name != "" then d.name else fallback
    case None => fallback
  }

  /** The registry covers every domain, so the greeting never uses its fallback text. */
  lemma TopicNameNeverFallsBack(fallback: string)
    ensures TopicName(Cars, fallback) == "Cars"
    ensures TopicName(Anime, fallback) == "Anime"
    ensures TopicName(Manga, fallback) == "Manga"
    ensures TopicName(Bikes, fallback) == "Bikes"
  {
    Constants.DomainNames();
  }

  /** Greeting of a freshly started chat. */
  function GreetingText(name: string): (g: string)
    ensures StartsWith(g, GreetingPrefix)
  {
    var g := GreetingPrefix + (" I'm ready to chat about " + name + ". What's on your mind?");
    assert g[..|GreetingPrefix|] == GreetingPrefix;
    g
  }

  /** Greeting that replaces the log of an unused chat whose domain is switched. */
  function RegreetingText(name: string): (g: string)
    ensures StartsWith(g, RegreetingPrefix)
  {
    var g := RegreetingPrefix + (" about " + name + "! Ask me anything.");
    assert g[..|RegreetingPrefix|] == RegreetingPrefix;
    g
  }

  /** `startNewChat`'s new record; both clock reads are the instant `now`. */
  function NewConversation(domain: DomainID, now: nat): Conversation {
    Conversation(NatToString(now), domain,
                 [Message(Model, GreetingText(TopicName(domain, "the current topic")))], now)
  }

  /** The role-and-prefix test of the history filter. */
  predicate IsGreeting(m: Message) {
    m.role == Model && (StartsWith(m.content, GreetingPrefix) || StartsWith(m.content, RegreetingPrefix))
  }

  /** `messages.filter(msg => msg.role !== MODEL || (!startsWith('Hey there!') && !startsWith("Alright, let's talk")))` */
  function OutgoingHistory(msgs: seq<Message>): (h: seq<Message>)
    ensures |h| <= |msgs|
  {
    if msgs == [] then []
    else (if IsGreeting(msgs[0]) then [] else [msgs[0]]) + OutgoingHistory(msgs[1..])
  }

  /** The submitted history holds exactly the messages that are not greetings. */
  lemma {:induction false} OutgoingHistoryMembers(msgs: seq<Message>)
    ensures forall m | m in OutgoingHistory(msgs) :: m in msgs && !IsGreeting(m)
    ensures forall i | 0 <= i < |msgs| :: !IsGreeting(msgs[i]) ==> msgs[i] in OutgoingHistory(msgs)
  {
    if msgs != [] {
      OutgoingHistoryMembers(msgs[1..]);
      assert forall i | 1 <= i < |msgs| :: msgs[i] == msgs[1..][i - 1];
    }
  }

  /** The filter keeps order: it distributes over concatenation. */
  lemma {:induction false} OutgoingHistoryAppend(a: seq<Message>, b: seq<Message>)
    ensures OutgoingHistory(a + b) == OutgoingHistory(a) + OutgoingHistory(b)
  {
    if a != [] {
      assert (a + b)[0] == a[0];
      assert (a + b)[1..] == a[1..] + b;
      OutgoingHistoryAppend(a[1..], b);
      var h := if IsGreeting(a[0]) then [] else [a[0]];
      assert OutgoingHistory(a + b) == h + (OutgoingHistory(a[1..]) + OutgoingHistory(b));
    } else {
      assert a + b == b;
    }
  }

  /** Every user message is submitted; greetings the client wrote are not. */
  lemma OutgoingHistoryKeepsUsersDropsGreetings(msgs: seq<Message>, name: string)
    ensures forall i | 0 <= i < |msgs| :: msgs[i].role == User ==> msgs[i] in OutgoingHistory(msgs)
    ensures IsGreeting(Message(Model, GreetingText(name)))
    ensures IsGreeting(Message(Model, RegreetingText(name)))
  {
    OutgoingHistoryMembers(msgs);
  }

  /** The history submitted with a send ends with the new user message. */
  lemma SubmittedHistoryEndsWithUserMessage(msgs: seq<Message>, text: string)
    ensures OutgoingHistory(msgs + [Message(User, text)]) == OutgoingHistory(msgs) + [Message(User, text)]
  {
    OutgoingHistoryAppend(msgs, [Message(User, text)]);
    assert [Message(User, text)][1..] == [];
  }

  /** A fresh chat holds exactly one greeting, which the history filter drops. */
  lemma NewConversationIsGreeted(domain: DomainID, now: nat)
    ensures var c := NewConversation(domain, now);
      && c.id != [] && c.id == NatToString(now) && c.timestamp == now && c.domain == domain
      && |c.messages| == 1 && IsGreeting(c.messages[0])
      && OutgoingHistory(c.messages) == []
  {
    OutgoingHistoryKeepsUsersDropsGreetings([], TopicName(domain, "the current topic"));
  }

  /** Index of the first conversation with that id (`find`). */
  function IndexOf(cs: seq<Conversation>, id: string): (r: Option<nat>)
    ensures r.Some? ==> r.value < |cs| && cs[r.value].id == id
    ensures r.Some? ==> forall j | 0 <= j < r.value :: cs[j].id != id
    ensures r.None? <==> forall j | 0 <= j < |cs| :: cs[j].id != id
  {
    if cs == [] then None
    else if cs[0].id == id then Some(0)
    else match IndexOf(cs[1..], id)
      case Some(k) => Some(k + 1)
      case None => None
  }

  /** `cs.find(c => c.id === id)` */
  function FindById(cs: seq<Conversation>, id: string): (r: Option<Conversation>)
    ensures r.Some? ==> r.value in cs && r.value.id == id
    ensures r.Some? ==> IndexOf(cs, id).Some? && r.value == cs[IndexOf(cs, id).value]
    ensures r.None? <==> forall j | 0 <= j < |cs| :: cs[j].id != id
  {
    match IndexOf(cs, id)
    case Some(k) => Some(cs[k])
    case None => None
  }

  /** `cs.map(c => c.id === id ? e(c) : c)`: every match is rewritten, the rest kept. */
  function UpdateWhere(cs: seq<Conversation>, id: string, e: Edit): (r: seq<Conversation>)
    ensures |r| == |cs|
  {
    if cs == [] then []
    else [if cs[0].id == id then Applied(e, cs[0]) else cs[0]] + UpdateWhere(cs[1..], id, e)
  }

  /** Every conversation carrying the id is rewritten by the edit, and every other one is kept. */
  lemma {:induction false} UpdateWhereAt(cs: seq<Conversation>, id: string, e: Edit)
    ensures forall i | 0 <= i < |cs| ::
      UpdateWhere(cs, id, e)[i] == if cs[i].id == id then Applied(e, cs[i]) else cs[i]
  {
    if cs != [] {
      UpdateWhereAt(cs[1..], id, e);
      assert forall i | 1 <= i < |cs| :: cs[i] == cs[1..][i - 1];
    }
  }

  /** An update aimed at an id that no longer exists changes nothing. */
  lemma UpdateWhereMissing(cs: seq<Conversation>, id: string, e: Edit)
    requires IndexOf(cs, id).None?
    ensures UpdateWhere(cs, id, e) == cs
  {
  }

  /** An edit aimed at id keeps the id of what it rewrites, so every id stays in place. */
  lemma UpdateWhereKeepsIds(cs: seq<Conversation>, id: string, e: Edit)
    requires e.Replace? ==> e.replacement.id == id
    ensures forall i | 0 <= i < |cs| :: UpdateWhere(cs, id, e)[i].id == cs[i].id
    ensures forall x :: IndexOf(cs, x).Some? ==> IndexOf(UpdateWhere(cs, id, e), x).Some?
  {
    var r := UpdateWhere(cs, id, e);
    UpdateWhereAt(cs, id, e);
    forall i | 0 <= i < |cs| ensures r[i].id == cs[i].id {
      if cs[i].id == id && (e.AppendChunk? || e.ShowError?) {
        assert Applied(e, cs[i]).id == cs[i].id;
      }
    }
    forall x | IndexOf(cs, x).Some? ensures IndexOf(r, x).Some? {
      var k := IndexOf(cs, x).value;
      assert r[k].id == x;
    }
  }

  /** Domain switch of an unused chat: new domain, log reset to one re-greeting. */
  function Regreeted(c: Conversation, domain: DomainID): (r: Conversation)
    ensures r.id == c.id && r.timestamp == c.timestamp && r.domain == domain
    ensures |r.messages| == 1 && r.messages[0].role == Model
  {
    c.(domain := domain, messages := [Message(Model, RegreetingText(TopicName(domain, "the new topic")))])
  }

  /** The user's message is appended and the activity instant bumped. */
  function WithUserMessage(c: Conversation, text: string, now: nat): Conversation {
    c.(messages := c.messages + [Message(User, text)], timestamp := now)
  }

  /** The empty model message that the stream fills in. */
  function WithPlaceholder(c: Conversation): Conversation {
    c.(messages := c.messages + [Message(Model, "")])
  }

  /** Both updates of a send, in program order. */
  function WithUserTurn(c: Conversation, text: string, now: nat): Conversation {
    WithPlaceholder(WithUserMessage(c, text, now))
  }

  /** The list after the two updates of a send aimed at id. */
  function AfterUserTurn(cs: seq<Conversation>, id: string, text: string, now: nat): seq<Conversation> {
    UpdateWhere(cs, id, UserTurn(text, now))
  }

  /** The two list updates of a send, applied one after the other, equal AfterUserTurn;
      the target keeps its position in both lists, and the intermediate list (the one
      the request is built from) holds the first match with the user message added. */
  lemma UserTurnInTwoSteps(cs: seq<Conversation>, id: string, text: string, now: nat)
    ensures UpdateWhere(UpdateWhere(cs, id, AddUserMessage(text, now)), id, AddPlaceholder)
         == AfterUserTurn(cs, id, text, now)
    ensures IndexOf(UpdateWhere(cs, id, AddUserMessage(text, now)), id) == IndexOf(cs, id)
    ensures IndexOf(AfterUserTurn(cs, id, text, now), id) == IndexOf(cs, id)
    ensures IndexOf(cs, id).None? ==> FindById(UpdateWhere(cs, id, AddUserMessage(text, now)), id) == None
    ensures IndexOf(cs, id).Some? ==>
      FindById(UpdateWhere(cs, id, AddUserMessage(text, now)), id) == Some(WithUserMessage(FindById(cs, id).value, text, now))
  {
    var mid := UpdateWhere(cs, id, AddUserMessage(text, now));
    var fin := AfterUserTurn(cs, id, text, now);
    var two := UpdateWhere(mid, id, AddPlaceholder);
    UpdateWhereAt(cs, id, AddUserMessage(text, now));
    UpdateWhereAt(mid, id, AddPlaceholder);
    UpdateWhereAt(cs, id, UserTurn(text, now));
    forall i | 0 <= i < |cs|
      ensures mid[i].id == cs[i].id && fin[i].id == cs[i].id && two[i] == fin[i]
    {
      if cs[i].id == id {
        assert mid[i] == WithUserMessage(cs[i], text, now);
        assert two[i] == WithPlaceholder(mid[i]);
        assert fin[i] == WithUserTurn(cs[i], text, now);
      }
    }
    assert two == fin;
    SameIdsSameIndex(cs, mid, id);
    SameIdsSameIndex(cs, fin, id);
  }

  /** IndexOf depends on the ids alone. */
  lemma SameIdsSameIndex(a: seq<Conversation>, b: seq<Conversation>, x: string)
    requires |a| == |b| && forall i | 0 <= i < |a| :: a[i].id == b[i].id
    ensures IndexOf(a, x) == IndexOf(b, x)
  {
    var ra, rb := IndexOf(a, x), IndexOf(b, x);
    if ra.Some? && rb.Some? {
      assert !(ra.value < rb.value) && !(rb.value < ra.value);
    }
  }

  /** Rewrites the content of the last message, keeping its role; a conversation
      without messages is left as it is. */
  function WithLastContent(c: Conversation, content: string): (r: Conversation)
    ensures r.id == c.id && r.domain == c.domain && r.timestamp == c.timestamp
    ensures |r.messages| == |c.messages|
    ensures c.messages != [] ==> r.messages[..|r.messages| - 1] == c.messages[..|c.messages| - 1]
    ensures c.messages != [] ==> r.messages[|r.messages| - 1] == Message(c.messages[|c.messages| - 1].role, content)
  {
    if c.messages == [] then c
    else
      var last := c.messages[|c.messages| - 1];
      c.(messages := c.messages[..|c.messages| - 1] + [last.(content := content)])
  }

  /** One stream fragment appended to the last message. */
  function WithChunk(c: Conversation, chunk: string): (r: Conversation)
    ensures r.id == c.id && r.timestamp == c.timestamp
  {
    if c.messages == [] then c
    else WithLastContent(c, c.messages[|c.messages| - 1].content + chunk)
  }

  /** The list after one fragment aimed at id. */
  function AfterChunk(cs: seq<Conversation>, id: string, chunk: string): seq<Conversation> {
    UpdateWhere(cs, id, AppendChunk(chunk))
  }

  /** Failure: the last message's content is replaced by the error text. */
  function WithError(c: Conversation): Conversation {
    WithLastContent(c, ErrorText)
  }

  /** The rewrites the handlers apply to every conversation carrying an id. */
  datatype Edit =
    | Replace(replacement: Conversation)
    | AddUserMessage(text: string, now: nat)
    | AddPlaceholder
    | UserTurn(text: string, now: nat)
    | AppendChunk(chunk: string)
    | ShowError

  /** The conversation an edit makes of c; a replacement (the re-greeted first
      match, on a domain switch) takes the place of every match. */
  function Applied(e: Edit, c: Conversation): Conversation {
    match e
    case Replace(replacement) => replacement
    case AddUserMessage(text, now) => WithUserMessage(c, text, now)
    case AddPlaceholder => WithPlaceholder(c)
    case UserTurn(text, now) => WithUserTurn(c, text, now)
    case AppendChunk(chunk) => WithChunk(c, chunk)
    case ShowError => WithError(c)
  }

  /** Two fragments in a row act as their concatenation. */
  lemma ChunksCompose(c: Conversation, a: string, b: string)
    ensures WithChunk(WithChunk(c, a), b) == WithChunk(c, a + b)
  {
    if c.messages != [] {
      var n := |c.messages|;
      var last := c.messages[n - 1];
      assert last.content + a + b == last.content + (a + b);
      assert WithChunk(c, a).messages == c.messages[..n - 1] + [last.(content := last.content + a)];
    }
  }

  /** A failure discards every fragment already applied. */
  lemma ErrorDiscardsChunks(c: Conversation, a: string)
    ensures WithError(WithChunk(c, a)) == WithError(c)
  {
    if c.messages != [] {
      var n := |c.messages|;
      assert WithChunk(c, a).messages[..n - 1] == c.messages[..n - 1];
    }
  }

  /** After a send, fragments land in the placeholder and nowhere else. */
  lemma PlaceholderCollectsChunks(c: Conversation, text: string, now: nat, s: string)
    ensures WithChunk(WithUserTurn(c, text, now), s).messages
         == c.messages + [Message(User, text), Message(Model, s)]
    ensures WithError(WithUserTurn(c, text, now)).messages
         == c.messages + [Message(User, text), Message(Model, ErrorText)]
  {
    var t := WithUserTurn(c, text, now);
    assert t.messages == c.messages + [Message(User, text)] + [Message(Model, "")];
    assert t.messages[..|t.messages| - 1] == c.messages + [Message(User, text)];
    assert t.messages[|t.messages| - 1].content + s == s;
  }

  /** Concatenation of the stream fragments, in arrival order. */
  function Concat(chunks: seq<string>): string {
    if chunks == [] then "" else chunks[0] + Concat(chunks[1..])
  }

  lemma {:induction false} ConcatSnoc(chunks: seq<string>, x: string)
    ensures Concat(chunks + [x]) == Concat(chunks) + x
  {
    if chunks != [] {
      assert (chunks + [x])[1..] == chunks[1..] + [x];
      ConcatSnoc(chunks[1..], x);
    } else {
      assert [x][1..] == [];
    }
  }

  /** The list after each fragment of a stream aimed at `id` was applied in turn. */
  function ApplyChunks(cs: seq<Conversation>, id: string, chunks: seq<string>): (r: seq<Conversation>)
    ensures |r| == |cs|
    decreases |chunks|
  {
    if chunks == [] then cs
    else ApplyChunks(AfterChunk(cs, id, chunks[0]), id, chunks[1..])
  }

  /** After the fragments, each conversation with the target id has the concatenation
      appended to its last message; every other conversation is untouched. */
  lemma {:induction false} ApplyChunksAt(cs: seq<Conversation>, id: string, chunks: seq<string>)
    ensures |ApplyChunks(cs, id, chunks)| == |cs|
    ensures forall i | 0 <= i < |cs| ::
      ApplyChunks(cs, id, chunks)[i] == if cs[i].id == id then WithChunk(cs[i], Concat(chunks)) else cs[i]
    decreases |chunks|
  {
    if chunks == [] {
      forall i | 0 <= i < |cs| && cs[i].id == id ensures WithChunk(cs[i], "") == cs[i] {
        var c := cs[i];
        if c.messages != [] {
          assert c.messages[|c.messages| - 1].content + "" == c.messages[|c.messages| - 1].content;
          assert c.messages == c.messages[..|c.messages| - 1] + [c.messages[|c.messages| - 1]];
        }
      }
    } else {
      var next := AfterChunk(cs, id, chunks[0]);
      UpdateWhereAt(cs, id, AppendChunk(chunks[0]));
      ApplyChunksAt(next, id, chunks[1..]);
      forall i | 0 <= i < |cs| && cs[i].id == id
        ensures WithChunk(next[i], Concat(chunks[1..])) == WithChunk(cs[i], Concat(chunks))
      {
        ChunksCompose(cs[i], chunks[0], Concat(chunks[1..]));
      }
    }
  }

  /** The fold taken one fragment further equals one more chunk update. */
  lemma ApplyChunksSnoc(cs: seq<Conversation>, id: string, chunks: seq<string>, x: string)
    ensures ApplyChunks(cs, id, chunks + [x]) == AfterChunk(ApplyChunks(cs, id, chunks), id, x)
  {
    var a := ApplyChunks(cs, id, chunks);
    var b := ApplyChunks(cs, id, chunks + [x]);
    var r := AfterChunk(a, id, x);
    UpdateWhereAt(a, id, AppendChunk(x));
    ApplyChunksAt(cs, id, chunks + [x]);
    ApplyChunksAt(cs, id, chunks);
    ConcatSnoc(chunks, x);
    forall i | 0 <= i < |cs| ensures b[i] == r[i] {
      if cs[i].id == id {
        ChunksCompose(cs[i], Concat(chunks), x);
        assert a[i] == WithChunk(cs[i], Concat(chunks));
        assert a[i].id == id;
        assert r[i] == WithChunk(a[i], x);
      } else {
        assert a[i] == cs[i];
      }
    }
    assert b == r;
  }

  /** A stream whose target was deleted changes nothing. */
  lemma ApplyChunksMissing(cs: seq<Conversation>, id: string, chunks: seq<string>)
    requires IndexOf(cs, id).None?
    ensures ApplyChunks(cs, id, chunks) == cs
  {
    ApplyChunksAt(cs, id, chunks);
  }

  /** `cs.filter(c => c.id !== id)`: every conversation carrying the id goes. */
  function DeleteWhere(cs: seq<Conversation>, id: string): (r: seq<Conversation>)
    ensures |r| <= |cs|
  {
    if cs == [] then []
    else (if cs[0].id == id then [] else [cs[0]]) + DeleteWhere(cs[1..], id)
  }

  /** No survivor carries the id, every survivor comes from the list, and every
      conversation with another id survives. */
  lemma {:induction false} DeleteWhereMembers(cs: seq<Conversation>, id: string)
    ensures forall i | 0 <= i < |DeleteWhere(cs, id)| :: DeleteWhere(cs, id)[i].id != id
    ensures forall c | c in DeleteWhere(cs, id) :: c in cs
    ensures forall i | 0 <= i < |cs| :: cs[i].id != id ==> cs[i] in DeleteWhere(cs, id)
  {
    if cs != [] {
      DeleteWhereMembers(cs[1..], id);
      assert forall i | 1 <= i < |cs| :: cs[i] == cs[1..][i - 1];
    }
  }

  /** The filter keeps the survivors' order. */
  lemma {:induction false} DeleteWhereAppend(a: seq<Conversation>, b: seq<Conversation>, id: string)
    ensures DeleteWhere(a + b, id) == DeleteWhere(a, id) + DeleteWhere(b, id)
  {
    if a != [] {
      assert (a + b)[0] == a[0];
      assert (a + b)[1..] == a[1..] + b;
      DeleteWhereAppend(a[1..], b, id);
      var h := if a[0].id == id then [] else [a[0]];
      assert DeleteWhere(a + b, id) == h + (DeleteWhere(a[1..], id) + DeleteWhere(b, id));
    } else {
      assert a + b == b;
    }
  }

  /** Deleting an id nobody carries changes nothing. */
  lemma {:induction false} DeleteWhereMissing(cs: seq<Conversation>, id: string)
    requires IndexOf(cs, id).None?
    ensures DeleteWhere(cs, id) == cs
  {
    if cs != [] {
      assert IndexOf(cs[1..], id).None?;
      DeleteWhereMissing(cs[1..], id);
      assert cs == [cs[0]] + cs[1..];
    }
  }

  /** Deleting one id keeps every other id findable. */
  lemma DeleteWhereKeepsOthers(cs: seq<Conversation>, id: string, x: string)
    requires x != id && IndexOf(cs, x).Some?
    ensures IndexOf(DeleteWhere(cs, id), x).Some?
  {
    var k := IndexOf(cs, x).value;
    DeleteWhereMembers(cs, id);
    assert cs[k] in DeleteWhere(cs, id);
  }

  /** The fallback after deleting the current chat: the id of the head of the
      recency-sorted survivors, which is the first most recent survivor. */
  function MostRecentId(rest: seq<Conversation>): (id: string)
    requires |rest| > 0
    ensures id == rest[Recency.FirstMostRecent(rest)].id
    ensures IndexOf(rest, id).Some?
  {
    Recency.SortHeadIsFirstMostRecent(rest);
    Recency.SortByRecency(rest)[0].id
  }

  /** The list right after start-up: the saved list, if any, and one new CARS chat. */
  function StartupList(saved: Option<seq<Conversation>>, now: nat): (r: seq<Conversation>)
    ensures |r| >= 1 && r[|r| - 1] == NewConversation(Cars, now)
    ensures saved.Some? ==> r[..|r| - 1] == saved.value
    ensures saved.None? ==> |r| == 1
  {
    (if saved.Some? then saved.value else []) + [NewConversation(Cars, now)]
  }

  /** The stored snapshot after a change: written only when the list is non-empty. */
  function SaveEffect(cs: seq<Conversation>, stored: Option<seq<Conversation>>): (r: Option<seq<Conversation>>)
    ensures |cs| > 0 ==> r == Some(cs)
    ensures |cs| == 0 ==> r == stored
  {
    if |cs| > 0 then Some(cs) else stored
  }

  /** Reloading what was saved restores the list before the new chat. */
  lemma ReloadRestoresSaved(cs: seq<Conversation>, stored: Option<seq<Conversation>>, now: nat)
    requires |cs| > 0
    ensures StartupList(SaveEffect(cs, stored), now)[..|cs|] == cs
  {
  }

  /** A whole send as seen in the target conversation: the user message, then one
      model message holding the fragments in arrival order, or the error text. */
  lemma SendThenStream(cs: seq<Conversation>, id: string, text: string, now: nat, chunks: seq<string>, k: nat)
    requires k < |cs| && cs[k].id == id
    ensures var started := AfterUserTurn(cs, id, text, now);
      && ApplyChunks(started, id, chunks)[k].messages
           == cs[k].messages + [Message(User, text), Message(Model, Concat(chunks))]
      && UpdateWhere(ApplyChunks(started, id, chunks), id, ShowError)[k].messages
           == cs[k].messages + [Message(User, text), Message(Model, ErrorText)]
      && ApplyChunks(started, id, chunks)[k].timestamp == now
  {
    var started := AfterUserTurn(cs, id, text, now);
    var t := WithUserTurn(cs[k], text, now);
    UpdateWhereAt(cs, id, UserTurn(text, now));
    assert started[k] == t && t.id == id && t.timestamp == now;
    ApplyChunksAt(started, id, chunks);
    var streamed := ApplyChunks(started, id, chunks);
    assert streamed[k] == WithChunk(t, Concat(chunks));
    PlaceholderCollectsChunks(cs[k], text, now, Concat(chunks));
    var failed := UpdateWhere(streamed, id, ShowError);
    UpdateWhereAt(streamed, id, ShowError);
    assert failed[k] == WithError(streamed[k]);
    ErrorDiscardsChunks(t, Concat(chunks));
    PlaceholderCollectsChunks(cs[k], text, now, "");
  }
}
