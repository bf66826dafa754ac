/** The messages the bot sends back to a chat. */
module Replies {
  import opened Text

  /** A reply and its parse mode: `Markdown` is sent with `parse_mode: 'Markdown'`. */
  datatype Reply = Plain(text: string) | Markdown(text: string)

  const ErrorMessage := "Error processing your request. Please try again later."
  const InvalidCodeMessage := "Invalid language code. Please use a valid language code."
  const InvalidCommandMessage := "Invalid command. Use /help to see the list of available commands."
  const FeedbackThanks := "Thank you for your feedback!"
  const NoDataMessage := "No translation data available."

  /** The lines of the `/help` text, a template literal that starts with a
      line break and ends with the indentation of its closing backtick. */
  const HelpLines := [
    "\n*Translation Bot Help*:\n",
    "- Use `/translate <text>` to detect the language and translate to English.\n",
    "- Use `/translate_to <lang_code> <text>` to translate from English to the specified language.\n",
    "- Example: `/translate_to es Hello, how are you?`\n",
    "- Use `/stats` to see usage statistics.\n",
    "- Use `/languages` to see the list of supported languages.\n",
    "- Use `/feedback <message>` to send feedback.\n",
    "- Use `/top_languages` to see the top translated languages.\n",
    "    "]

  /** The `/help` text: its lines one after another. */
  const HelpText := Concat(HelpLines)

  /** The translation result card (`sendStylishResponse`). */
  function Stylish(original: string, translated: string, fromLang: string, toLang: string): string {
    "\n*Translation Result*:\n*From:* `" + original + "`\n*To:* `" + translated
    + "`\n*Language:* `" + fromLang + "` -> `" + toLang + "`\n  "
  }
}
