/** The few Telegram API values the bot reads and produces, reduced to the
    fields it uses. */
module Telegram {
  import opened Wrappers

  /** An incoming message. `command` is what `Message.Command()` returns:
      the command name without its slash and bot suffix, or "" when the
      message is not a command. */
  datatype Message = Message(chatId: int, fromUserName: string, command: string)

  /** A press on an inline keyboard button: the button's data and the chat of
      the message that carried the keyboard. */
  datatype CallbackQuery = CallbackQuery(data: string, chatId: int)

  datatype Update = Update(message: Option<Message>, callback: Option<CallbackQuery>)

  /** An inline keyboard button: the label shown and the callback data it
      sends back when pressed. */
  datatype Button = Button(text: string, data: string)

  /** A message the bot asks the Telegram API to send: the target chat, the
      text, the inline keyboard as rows of buttons, and whether the text is
      parsed as MarkdownV2. */
  datatype OutMessage = OutMessage(chatId: int, text: string, keyboard: seq<seq<Button>>, markdownV2: bool)

  /** A plain text message without keyboard: `tgbotapi.NewMessage(chat, text)`. */
  function NewMessage(chatId: int, text: string): OutMessage
  {
    OutMessage(chatId, text, [], false)
  }
}
