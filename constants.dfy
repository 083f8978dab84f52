/** The static tables of constants.ts: the domain registry, the persona
    instruction per domain and the quick-reply prompts per domain. */
module Constants {
  import opened Types
  import Text

  /** The domain registry, in display order. */
  const Domains: seq<Domain> := [
    Domain(Cars, "Cars", CarIcon),
    Domain(Anime, "Anime", AnimeIcon),
    Domain(Manga, "Manga", MangaIcon),
    Domain(Bikes, "Bikes", BikeIcon)
  ]

  /** `domains.find(d => d.id === id)`: the first entry with that id, if any. */
  function FindDomain(domains: seq<Domain>, id: DomainID): (r: Option<Domain>)
    ensures r.Some? ==> r.value in domains && r.value.id == id
    ensures r.None? <==> forall i | 0 <= i < |domains| :: domains[i].id != id
  {
    if domains == [] then None
    else if domains[0].id == id then Some(domains[0])
    else FindDomain(domains[1..], id)
  }

  /** `find` stops at the first entry with the id: every entry before it carries another id. */
  lemma {:induction false} FindDomainIsFirst(domains: seq<Domain>, id: DomainID)
    requires FindDomain(domains, id).Some?
    ensures exists k | 0 <= k < |domains| ::
      domains[k] == FindDomain(domains, id).value && forall j | 0 <= j < k :: domains[j].id != id
  {
    if domains[0].id != id {
      FindDomainIsFirst(domains[1..], id);
      var k :| 0 <= k < |domains[1..]| && domains[1..][k] == FindDomain(domains, id).value
               && forall j | 0 <= j < k :: domains[1..][j].id != id;
      assert domains[k + 1] == FindDomain(domains, id).value;
      assert forall j | 1 <= j < k + 1 :: domains[j] == domains[1..][j - 1];
    } else {
      assert domains[0] == FindDomain(domains, id).value;
    }
  }

  /** The registry has exactly one entry per domain, so every lookup succeeds. */
  lemma DomainsOnePerId()
    ensures |Domains| == 4
    ensures forall i, j | 0 <= i < j < |Domains| :: Domains[i].id != Domains[j].id
    ensures forall id: DomainID :: FindDomain(Domains, id).Some?
  {
  }

  /** The display names of the four domains. */
  lemma DomainNames()
    ensures FindDomain(Domains, Cars) == Some(Domain(Cars, "Cars", CarIcon))
    ensures FindDomain(Domains, Anime) == Some(Domain(Anime, "Anime", AnimeIcon))
    ensures FindDomain(Domains, Manga) == Some(Domain(Manga, "Manga", MangaIcon))
    ensures FindDomain(Domains, Bikes) == Some(Domain(Bikes, "Bikes", BikeIcon))
  {
    var tail := [Domain(Anime, "Anime", AnimeIcon), Domain(Manga, "Manga", MangaIcon), Domain(Bikes, "Bikes", BikeIcon)];
    assert Domains[1..] == tail;
    assert tail[1..] == [Domain(Manga, "Manga", MangaIcon), Domain(Bikes, "Bikes", BikeIcon)];
    assert tail[1..][1..] == [Domain(Bikes, "Bikes", BikeIcon)];
  }

  const CarsInstruction := "You are a car expert chatting with a friend. Keep it super casual and simple. No formal stuff, no long lists, and definitely no markdown like asterisks. Just give straight-up, easy-to-understand info on cars. Let's just talk."
  const AnimeInstruction := "You're an anime fan talking to a friend. Keep it chill and simple. No formalities, no long lists, and don't use markdown like asterisks. Just chat about anime, share what's cool, and keep it fun and easy to follow. Let's just have a normal convo."
  const MangaInstruction := "You're a manga enthusiast chatting with a buddy. Be super casual and keep it simple. No formal language, no big lists, and avoid using markdown asterisks. Just talk about manga like you would with a friend. Let's keep it relaxed."
  const BikesInstruction := "You're a bike pro talking to a friend. Keep the vibe super relaxed and simple. No formal stuff, no long lists, and no markdown like asterisks. Just chat about bikes, give clear advice, and make it feel like a regular conversation. Let's just talk bikes."

  /** The persona instruction handed to the model service with every request. */
  function SystemInstruction(id: DomainID): (r: string)
    ensures |r| > 0
  {
    match id
    case Cars => CarsInstruction
    case Anime => AnimeInstruction
    case Manga => MangaInstruction
    case Bikes => BikesInstruction
  }

  /** The canned prompts offered as one-click sends. */
  function QuickReplies(id: DomainID): (r: seq<string>)
    ensures |r| == 4
  {
    match id
    case Cars => [
      "Top 3 sports cars under $50k?",
      "Compare the 2024 Honda Civic and Toyota Corolla.",
      "What is the range of a Tesla Model 3?",
      "Best family SUVs for safety?"
    ]
    case Anime => [
      "Recommend a good starter anime.",
      "What is \"Attack on Titan\" about?",
      "Top 5 anime movies of all time?",
      "Explain the difference between shonen and seinen."
    ]
    case Manga => [
      "Is the \"Berserk\" manga finished?",
      "Best-selling manga series ever?",
      "Recommend a completed manga series.",
      "What is \"One Piece\" about?"
    ]
    case Bikes => [
      "Best entry-level road bike?",
      "Compare Ducati Panigale V4 and BMW S1000RR.",
      "What are the advantages of an e-bike?",
      "How often should I service my motorcycle?"
    ]
  }

  /** A string whose last character is not whitespace survives trim. */
  lemma EndsTight(s: string)
    requires s != [] && !Text.IsWhitespace(s[|s| - 1])
    ensures !Text.IsBlank(s) && Text.Trim(s) != []
  {
    Text.TrimEmptyIffBlank(s);
  }

  /** Every quick reply is non-empty and ends in a non-whitespace character. */
  lemma CarsRepliesEndTight(k: nat)
    requires k < 4
    ensures var s := QuickReplies(Cars)[k]; s != [] && !Text.IsWhitespace(s[|s| - 1])
  {
    assert k == 0 || k == 1 || k == 2 || k == 3;
  }

  lemma AnimeRepliesEndTight(k: nat)
    requires k < 4
    ensures var s := QuickReplies(Anime)[k]; s != [] && !Text.IsWhitespace(s[|s| - 1])
  {
    assert k == 0 || k == 1 || k == 2 || k == 3;
  }

  lemma MangaRepliesEndTight(k: nat)
    requires k < 4
    ensures var s := QuickReplies(Manga)[k]; s != [] && !Text.IsWhitespace(s[|s| - 1])
  {
    assert k == 0 || k == 1 || k == 2 || k == 3;
  }

  lemma BikesRepliesEndTight(k: nat)
    requires k < 4
    ensures var s := QuickReplies(Bikes)[k]; s != [] && !Text.IsWhitespace(s[|s| - 1])
  {
    assert k == 0 || k == 1 || k == 2 || k == 3;
  }

  /** No quick reply is blank after trimming, so sending one always passes
      the blank-text guard of the send handler. */
  lemma QuickRepliesAreNotBlank(id: DomainID, k: nat)
    requires k < |QuickReplies(id)|
    ensures !Text.IsBlank(QuickReplies(id)[k])
    ensures Text.Trim(QuickReplies(id)[k]) != []
  {
    var s := QuickReplies(id)[k];
    assert s != [] && !Text.IsWhitespace(s[|s| - 1]) by {
      match id
      case Cars => CarsRepliesEndTight(k);
      case Anime => AnimeRepliesEndTight(k);
      case Manga => MangaRepliesEndTight(k);
      case Bikes => BikesRepliesEndTight(k);
    }
    EndsTight(s);
  }
}
