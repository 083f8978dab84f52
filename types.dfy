/** The records and enumerations of types.ts, with the Conversation record as App.tsx uses it. */
module Types {

  datatype Option<T> = None | Some(value: T)

  /** Role of a message author ('user' or 'model'). */
  datatype Role = User | Model

  datatype Message = Message(role: Role, content: string)

  /** The four topic domains ('cars', 'anime', 'manga', 'bikes'). */
  datatype DomainID = Cars | Anime | Manga | Bikes

  /** Icons are rendering components; here they are plain symbolic tokens. */
  datatype Icon = CarIcon | AnimeIcon | MangaIcon | BikeIcon

  datatype Domain = Domain(id: DomainID, name: string, icon: Icon)

  /** One chat session: a time-derived id, its domain, the ordered message log
      and the instant of last activity (milliseconds). */
  datatype Conversation = Conversation(id: string, domain: DomainID, messages: seq<Message>, timestamp: int)
}
