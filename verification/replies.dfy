/** What a handler does in answer to an update: the messages it sends or edits, each in the user's
    language and with the keyboard attached to it. Keyboard layouts and pack words stay opaque. */
module Replies {
  import opened Common
  import opened LangPack

  /** The reply markup attached to a message. */
  datatype Markup = NoMarkup | MainKeyboard | NotificationChoiceKeyboard | NightSoundChoiceKeyboard

  /** A new message in the chat (`reply_text`), or the text of the pressed button's message replaced
      (`edit_message_text`). */
  datatype Channel = NewMessage | EditedMessage

  datatype Reply = Reply(channel: Channel, lang: Lang, text: seq<Token>, markup: Markup, markdown: bool)

  /** A handler either finishes after sending its replies (possibly none), or raises. */
  datatype Outcome = Done(replies: seq<Reply>) | Raised(error: string)

  /** A plain-text reply in the chat. */
  function Say(lang: Lang, text: seq<Token>, markup: Markup): (r: Reply)
    ensures r.channel == NewMessage && r.lang == lang && r.text == text && r.markup == markup && !r.markdown
  {
    Reply(NewMessage, lang, text, markup, false)
  }
}
