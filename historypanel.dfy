/** components/HistoryPanel.tsx: the history listing, newest first, with a
    label and a preview line per conversation, or a notice when it is empty. */
module HistoryPanel {
  import opened Types
  import Constants
  import Recency

  const NoHistoryNotice := "No chat history found."
  const NewChatPreview := "New Chat"
  const UnknownDomainLabel := "Chat"
  /** Characters of the first user message shown in a preview. */
  const PreviewLength := 30

  /** Position of the first message written by the user. */
  function FirstUserIndex(msgs: seq<Message>): (r: Option<nat>)
    ensures r.Some? ==> r.value < |msgs| && msgs[r.value].role == User
    ensures r.Some? ==> forall j | 0 <= j < r.value :: msgs[j].role != User
    ensures r.None? <==> forall j | 0 <= j < |msgs| :: msgs[j].role != User
  {
    if msgs == [] then None
    else if msgs[0].role == User then Some(0)
    else match FirstUserIndex(msgs[1..])
      case Some(k) => Some(k + 1)
      case None => None
  }

  /** `messages.find(m => m.role === 'user')?.content` */
  function FirstUserContent(msgs: seq<Message>): Option<string> {
    match FirstUserIndex(msgs)
    case Some(k) => Some(msgs[k].content)
    case None => None
  }

  /** `"` + the first 30 characters + `..."`, or 'New Chat' when there is no
      user message or the first one is empty. */
  function Preview(c: Conversation): (p: string)
    ensures p == NewChatPreview <==> FirstUserContent(c.messages).None? || FirstUserContent(c.messages).value == ""
    ensures p != NewChatPreview ==>
      var s := FirstUserContent(c.messages).value;
      var n := if |s| < PreviewLength then |s| else PreviewLength;
      && |p| == n + 5
      && p[0] == '"' && p[1..n + 1] == s[..n] && p[n + 1..] == "...\""
  {
    match FirstUserContent(c.messages)
    case Some(s) =>
      if s != "" then
        var n := if |s| < PreviewLength then |s| else PreviewLength;
        var p := "\"" + s[..n] + "...\"";
        assert p[0] == '"' != NewChatPreview[0];
        p
      else NewChatPreview
    case None => NewChatPreview
  }

  /** `domain?.name || 'Chat'` for the domain looked up by the conversation's id. */
  function Label(c: Conversation, domains: seq<Domain>): (l: string)
    ensures Constants.FindDomain(domains, c.domain).None? ==> l == UnknownDomainLabel
    ensures Constants.FindDomain(domains, c.domain).Some? ==>
      var name := Constants.FindDomain(domains, c.domain).value.name;
      l == (if name != "" then name else UnknownDomainLabel)
    ensures l != UnknownDomainLabel ==> exists i | 0 <= i < |domains| :: domains[i] == Domain(c.domain, l, domains[i].icon)
  {
    match Constants.FindDomain(domains, c.domain)
    case Some(d) => if d.name != "" then d.name else UnknownDomainLabel
    case None => UnknownDomainLabel
  }

  /** With the App's own registry every conversation is labelled by its domain's name. */
  lemma LabelsFromRegistry(c: Conversation)
    ensures Label(c, Constants.Domains) == Constants.FindDomain(Constants.Domains, c.domain).value.name
    ensures Label(c, Constants.Domains) != UnknownDomainLabel
  {
    Constants.DomainNames();
  }

  /** One row: the conversation, its heading (the label) and preview, and the arguments its
      select and delete callbacks pass on. */
  datatype Item = Item(conversation: Conversation, heading: string, preview: string, selects: string, deletes: string)

  /** The panel body: the notice, or the rows. */
  datatype Listing = NoHistory(notice: string) | Items(items: seq<Item>)

  function ItemOf(c: Conversation, domains: seq<Domain>): Item {
    Item(c, Label(c, domains), Preview(c), c.id, c.id)
  }

  function ItemsOf(s: seq<Conversation>, domains: seq<Domain>): (items: seq<Item>)
    ensures |items| == |s|
    ensures forall i | 0 <= i < |s| :: items[i] == ItemOf(s[i], domains)
  {
    seq(|s|, i requires 0 <= i < |s| => ItemOf(s[i], domains))
  }

  function ListingOf(cs: seq<Conversation>, domains: seq<Domain>): (v: Listing)
    ensures v.NoHistory? <==> cs == []
    ensures v.NoHistory? ==> v.notice == NoHistoryNotice
    ensures v.Items? ==> |v.items| == |cs|
  {
    if cs == [] then NoHistory(NoHistoryNotice) else Items(ItemsOf(Recency.SortByRecency(cs), domains))
  }

  /** The conversations shown, in display order. */
  function Shown(items: seq<Item>): seq<Conversation> {
    seq(|items|, i requires 0 <= i < |items| => items[i].conversation)
  }

  /** The rows are the conversations newest first, each exactly once, ties in
      list order, and each row's callbacks receive that conversation's id. */
  lemma ListingIsRecencyOrder(cs: seq<Conversation>, domains: seq<Domain>, t: int)
    requires cs != []
    ensures var items := ListingOf(cs, domains).items;
      && Recency.SortedByRecency(Shown(items))
      && multiset(Shown(items)) == multiset(cs)
      && Recency.WithTimestamp(Shown(items), t) == Recency.WithTimestamp(cs, t)
      && forall i | 0 <= i < |items| :: items[i].selects == items[i].conversation.id == items[i].deletes
  {
    var sorted := Recency.SortByRecency(cs);
    var items := ListingOf(cs, domains).items;
    assert items == ItemsOf(sorted, domains);
    assert forall i | 0 <= i < |items| :: items[i].conversation == sorted[i] && items[i].selects == sorted[i].id == items[i].deletes;
    assert Shown(items) == sorted;
    Recency.SortIsStable(cs, t);
  }
}
