/** Rows of the three database tables. Timestamps are whole Unix seconds. */
module Models {
  import opened Common

  /** A row of `statuses`: one recorded power transition. `id` is assigned on insertion. */
  datatype StatusEvent = StatusEvent(id: int, value: bool, createdAt: int)

  /** A row of `users`. */
  datatype UserRow = UserRow(
    id: int,
    username: Option<string>,
    firstName: Option<string>,
    isBot: bool,
    languageCode: Option<string>,
    isAdmin: bool,
    notifsEnabled: bool,
    nightSoundEnabled: bool)

  /** A row of `heartbeat`: the time of the latest ping. */
  datatype HeartbeatRow = HeartbeatRow(id: int, timestamp: Option<int>, heartbeatLabel: Option<string>)

  /** The Telegram user behind an update, as the bot receives it. */
  datatype TgUser = TgUser(
    id: int,
    username: Option<string>,
    firstName: Option<string>,
    isBot: bool,
    languageCode: Option<string>)

  /** A callback query: the user who pressed the button, if known, and the button's callback data. */
  datatype CallbackQuery = CallbackQuery(fromUser: Option<TgUser>, data: string)
}
