/** The records the bot passes between its packages: sources, fetched items,
    articles, Telegram users and subscriptions, and the errors its functions
    return. */
module Models {
  import opened Strconv

  /** A timestamp, kept opaque: the model never looks inside one. */
  type Time = int

  /** A subscribable feed. `id` is the identity the database generates. */
  datatype Source = Source(id: int, name: string, feedUrl: string, priority: int, createdAt: Time)

  /** One entry of a fetched feed. */
  datatype Item = Item(title: string, categories: seq<string>, link: string, date: Time)

  /** An article as the fetcher builds it and the article queries return it. */
  datatype Article = Article(id: int, sourceId: int, title: string, link: string,
                             categories: seq<string>, publishedAt: Time)

  datatype TgUser = TgUser(tgId: int, username: string)

  /** A row of the subscriptions relation: the user follows the source. */
  datatype Subscription = Subscription(userId: int, sourceId: int)

  /** The Go `error` values the core produces or passes on. Errors from the
      database, the Telegram API and the feed library are opaque: only their
      text is kept. */
  datatype Error =
    | InvalidCallbackData      // fmt.Errorf("invalid callback data")
    | Num(cause: NumError)     // from strconv.Atoi
    | External(text: string)   // from pgx, the Telegram API or the feed loader

  /** `err.Error()`: the text that `%s` prints for the error. */
  function ErrorText(e: Error): string
  {
    match e
    case InvalidCallbackData => "invalid callback data"
    case Num(cause) => NumErrorText(cause)
    case External(text) => text
  }
}
