/** The message listener: classify the text, run the command's handler
    against the translation service and the two stores, and reply. */
module Bot {
  import opened Text
  import opened Replies
  import opened Commands
  import opened Catalog
  import opened Usage
  import opened Reports
  import opened FeedbackStore

  /** The remote translation service. Each call either returns a value or
      fails; `translate(text, to, from)`. */
  datatype Translator = Translator(
    detect: string -> Option<string>,
    translate: (string, string, string) -> Option<string>)

  /** A call made to the translation service while handling a message. */
  datatype Call = DetectCall(text: string) | TranslateCall(text: string, to: string, from: string)

  /** What handling one message does: the reply, the service calls in order,
      the `(from, to)` pair recorded in the statistics, and the feedback saved. */
  datatype Effect = Effect(
    reply: Reply,
    calls: seq<Call>,
    record: Option<(string, string)>,
    feedback: Option<string>)

  function ReplyOnly(reply: Reply): (e: Effect)
    ensures e.feedback == None
  {
    Effect(reply, [], None, None)
  }

  /** `/translate <message>`: detect the language, translate into English,
      reply with the result and record (detected, "en"); any failure of
      either call is answered with the generic error message. */
  function TranslateEffect(message: string, service: Translator): (e: Effect)
    ensures e.feedback == None
  {
    match service.detect(message)
    case None => Effect(Plain(ErrorMessage), [DetectCall(message)], None, None)
    case Some(lang) =>
      var calls := [DetectCall(message), TranslateCall(message, "en", lang)];
      match service.translate(message, "en", lang)
      case None => Effect(Plain(ErrorMessage), calls, None, None)
      case Some(translated) =>
        Effect(Markdown(Stylish(message, translated, lang, "en")), calls, Some((lang, "en")), None)
  }

  /** `/translate_to <code> <message>`: a code the guard rejects is answered
      with the invalid-code message before any call; otherwise translate from
      English, reply and record ("en", code), or send the generic error. */
  function TranslateToEffect(code: string, message: string, admitted: bool, service: Translator): (e: Effect)
    ensures e.feedback == None
  {
    if !admitted then ReplyOnly(Plain(InvalidCodeMessage))
    else
      var calls := [TranslateCall(message, code, "en")];
      match service.translate(message, code, "en")
      case None => Effect(Plain(ErrorMessage), calls, None, None)
      case Some(translated) =>
        Effect(Markdown(Stylish(message, translated, "en", code)), calls, Some(("en", code)), None)
  }

  /** The commands whose only effect is a reply. */
  predicate RepliesOnly(cmd: Command) {
    cmd.Help? || cmd.Stats? || cmd.Languages? || cmd.TopLanguages? || cmd.Unknown?
  }

  /** The reply to a command that only replies. */
  function ReplyOf(cmd: Command, catalog: seq<string>, doc: Option<Snapshot>, system: string): Reply
    requires RepliesOnly(cmd)
    requires doc.Some? ==> WellFormed(doc.value)
  {
    match cmd
    case Help => Markdown(HelpText)
    case Stats => Markdown(UsageText(doc, system))
    case Languages => Markdown(LanguagesHeader + Concat(CodeLines(catalog)))
    case TopLanguages => TopLanguagesText(doc)
    case Unknown => Plain(InvalidCommandMessage)
  }

  /** The effect of one classified command, given the catalog, the service,
      the statistics record as `findOne` returns it and the system-statistics
      text. */
  function Respond(cmd: Command, catalog: seq<string>, service: Translator,
                   doc: Option<Snapshot>, system: string): Effect
    requires doc.Some? ==> WellFormed(doc.value)
  {
    match cmd
    case Translate(message) => TranslateEffect(message, service)
    case TranslateTo(code, message) => TranslateToEffect(code, message, IsSupported(catalog, code), service)
    case Feedback(message) => Effect(Plain(FeedbackThanks), [], None, Some(message))
    case _ => ReplyOnly(ReplyOf(cmd, catalog, doc, system))
  }

  /** The effect of one incoming text: its command's effect. */
  function Handle(text: string, catalog: seq<string>, service: Translator,
                  doc: Option<Snapshot>, system: string): Effect
    requires doc.Some? ==> WellFormed(doc.value)
  {
    Respond(Classify(text), catalog, service, doc, system)
  }

  /** The invalid-command reply is sent exactly when the text starts with
      none of the command prefixes. */
  lemma InvalidCommandIffNoPrefix(text: string, catalog: seq<string>, service: Translator,
                                  doc: Option<Snapshot>, system: string)
    requires doc.Some? ==> WellFormed(doc.value)
    ensures var e := Handle(text, catalog, service, doc, system);
      (e.reply == Plain(InvalidCommandMessage)) <==> (forall p :: p in Prefixes ==> !StartsWith(text, p))
    ensures var e := Handle(text, catalog, service, doc, system);
      e.reply == Plain(InvalidCommandMessage) ==> e.calls == [] && e.record == None && e.feedback == None
  {
    ClassifyIsFirstMatch(text);
    var i := FirstMatch(text, Prefixes);
    if i < |Prefixes| {
      assert Prefixes[i] in Prefixes;
      assert |InvalidCommandMessage| != |ErrorMessage|;
      assert |InvalidCommandMessage| != |InvalidCodeMessage|;
      assert |InvalidCommandMessage| != |FeedbackThanks|;
      assert |InvalidCommandMessage| != |NoDataMessage|;
    } else {
      forall p | p in Prefixes ensures !StartsWith(text, p) {
        var j :| 0 <= j < |Prefixes| && Prefixes[j] == p;
      }
    }
  }

  /** A `/translate_to` code outside the catalog gets the invalid-code reply,
      and no call is made and nothing is recorded; a code in the catalog is
      the only kind the service is ever asked to translate into. */
  lemma TranslateToChecksCatalog(text: string, catalog: seq<string>, service: Translator,
                                 doc: Option<Snapshot>, system: string)
    requires doc.Some? ==> WellFormed(doc.value)
    requires Classify(text).TranslateTo?
    ensures var e := Handle(text, catalog, service, doc, system);
      var code := Classify(text).code;
      && (code !in catalog ==>
            e == Effect(Plain(InvalidCodeMessage), [], None, None))
      && (code in catalog ==>
            e.calls == [TranslateCall(Classify(text).message, code, "en")])
  {
  }

  /** Statistics are recorded exactly when every service call succeeded:
      (detected, "en") for `/translate`, ("en", code) for `/translate_to`.
      A failed call is answered with the generic error and records nothing. */
  lemma RecordOnlyOnSuccess(text: string, catalog: seq<string>, service: Translator,
                            doc: Option<Snapshot>, system: string)
    requires doc.Some? ==> WellFormed(doc.value)
    ensures var e := Handle(text, catalog, service, doc, system);
      match Classify(text)
      case Translate(m) =>
        && (e.record.Some? <==>
              service.detect(m).Some? && service.translate(m, "en", service.detect(m).value).Some?)
        && (e.record.Some? ==> e.record.value == (service.detect(m).value, "en"))
        && (e.record.None? ==> e.reply == Plain(ErrorMessage))
      case TranslateTo(code, m) =>
        && (e.record.Some? <==> code in catalog && service.translate(m, code, "en").Some?)
        && (e.record.Some? ==> e.record.value == ("en", code))
        && (e.record.None? && code in catalog ==> e.reply == Plain(ErrorMessage))
      case _ => e.record.None? && e.calls == []
  {
  }

  /** Feedback is saved for `/feedback ` and nothing else, and it is the
      text after the prefix. */
  lemma FeedbackSavedOnlyForFeedback(text: string, catalog: seq<string>, service: Translator,
                                     doc: Option<Snapshot>, system: string)
    requires doc.Some? ==> WellFormed(doc.value)
    ensures var e := Handle(text, catalog, service, doc, system);
      e.feedback.Some? <==> Classify(text).Feedback?
    ensures var e := Handle(text, catalog, service, doc, system);
      e.feedback.Some? ==> text == FeedbackPrefix + e.feedback.value && e.reply == Plain(FeedbackThanks)
  {
  }

  /** `/languages` with a catalog of distinct codes: one line per catalog
      code, each code on exactly one line, and no other line. */
  lemma LanguagesListsEachCodeOnce(text: string, catalog: seq<string>, service: Translator,
                                   doc: Option<Snapshot>, system: string)
    requires doc.Some? ==> WellFormed(doc.value)
    requires NoDup(catalog)
    requires Classify(text).Languages?
    ensures var e := Handle(text, catalog, service, doc, system);
      && e.reply == Markdown(LanguagesHeader + Concat(CodeLines(catalog)))
      && NoDup(CodeLines(catalog))
      && (forall c :: c in catalog <==> CodeLine(c) in CodeLines(catalog))
  {
    ListingNamesEachCodeOnce(catalog);
  }

  /** With the guard as written, `/translate_to constructor <message>` passes
      the check although "constructor" is no catalog code, and the service is
      asked to translate into it; the catalog guard answers with the
      invalid-code message and calls nothing. */
  lemma InheritedNameReachesTranslator(catalog: seq<string>, message: string, service: Translator)
    requires "constructor" !in catalog
    ensures TranslateToEffect("constructor", message, IsSupportedAsWritten(catalog, "constructor"), service).calls
         == [TranslateCall(message, "constructor", "en")]
    ensures Handle(TranslateToPrefix + "constructor " + message, catalog, service, None, "")
         == Effect(Plain(InvalidCodeMessage), [], None, None)
  {
    assert TranslateToPrefix + "constructor " + message == TranslateToPrefix + "constructor" + " " + message;
    TranslateToRoundTrip("constructor", message);
  }

  /** `/translate Bonjour le monde` when the service detects French and
      returns "Hello world": the result card, two calls, one recording. */
  lemma TranslateExample(catalog: seq<string>, service: Translator)
    requires service.detect("Bonjour le monde") == Some("fr")
    requires service.translate("Bonjour le monde", "en", "fr") == Some("Hello world")
    ensures Handle("/translate Bonjour le monde", catalog, service, None, "") == Effect(
      Markdown(Stylish("Bonjour le monde", "Hello world", "fr", "en")),
      [DetectCall("Bonjour le monde"), TranslateCall("Bonjour le monde", "en", "fr")],
      Some(("fr", "en")), None)
  {
  }

  /** The bot's state: the catalog loaded at start-up and the two stores. */
  class Bot {
    const catalog: seq<string>
    const stats: StatsStore
    const feedback: FeedbackLog

    /** The catalog's codes are the keys of one JSON object, so distinct. */
    ghost predicate Valid()
      reads this, stats
    {
      NoDup(catalog) && stats.Valid()
    }

    constructor (catalog: seq<string>, stats: StatsStore, feedback: FeedbackLog)
      requires NoDup(catalog)
      requires stats.Valid()
      ensures Valid()
      ensures this.catalog == catalog && this.stats == stats && this.feedback == feedback
    {
      this.catalog := catalog;
      this.stats := stats;
      this.feedback := feedback;
    }

    /** The `/translate ` branch of the listener: detect, translate into
        English, reply and record, or reply with the generic error. */
    method RunTranslate(message: string, service: Translator) returns (reply: Reply, calls: seq<Call>)
      requires Valid()
      modifies stats
      ensures Valid()
      ensures var e := TranslateEffect(message, service);
        && reply == e.reply && calls == e.calls
        && (e.record.None? ==> unchanged(stats))
        && (e.record.Some? ==>
              stats.FindOne() == Some(Recorded(old(stats.Current()), e.record.value.0, e.record.value.1)))
    {
      calls := [DetectCall(message)];
      var detected := service.detect(message);
      if detected.None? {
        reply := Plain(ErrorMessage);
        return;
      }
      var lang := detected.value;
      calls := calls + [TranslateCall(message, "en", lang)];
      var translated := service.translate(message, "en", lang);
      if translated.None? {
        reply := Plain(ErrorMessage);
        return;
      }
      reply := Markdown(Stylish(message, translated.value, lang, "en"));
      stats.UpdateUsageStats(lang, "en");
    }

    /** The `/translate_to ` branch of the listener: reject a code outside the
        catalog before any call, otherwise translate from English, reply and
        record, or reply with the generic error. */
    method RunTranslateTo(code: string, message: string, service: Translator) returns (reply: Reply, calls: seq<Call>)
      requires Valid()
      modifies stats
      ensures Valid()
      ensures var e := TranslateToEffect(code, message, IsSupported(catalog, code), service);
        && reply == e.reply && calls == e.calls
        && (e.record.None? ==> unchanged(stats))
        && (e.record.Some? ==>
              stats.FindOne() == Some(Recorded(old(stats.Current()), e.record.value.0, e.record.value.1)))
    {
      calls := [];
      if !IsSupported(catalog, code) {
        reply := Plain(InvalidCodeMessage);
        return;
      }
      calls := [TranslateCall(message, code, "en")];
      var translated := service.translate(message, code, "en");
      if translated.None? {
        reply := Plain(ErrorMessage);
        return;
      }
      reply := Markdown(Stylish(message, translated.value, "en", code));
      stats.UpdateUsageStats("en", code);
    }

    /** The `message` listener for one incoming text. The stores change as
        `Handle` says: the statistics only when a translation succeeded, the
        feedback log only for `/feedback `. */
    method OnMessage(text: string, username: Option<string>, date: nat,
                     service: Translator, system: string)
      returns (reply: Reply, calls: seq<Call>)
      requires Valid()
      modifies stats, feedback
      ensures Valid()
      ensures var e := Handle(text, catalog, service, old(stats.FindOne()), system);
        && reply == e.reply && calls == e.calls
        && (e.record.None? ==> unchanged(stats))
        && (e.record.Some? ==>
              stats.FindOne() == Some(Recorded(old(stats.Current()), e.record.value.0, e.record.value.1)))
        && (e.feedback.None? ==> unchanged(feedback))
        && (e.feedback.Some? ==>
              feedback.entries == old(feedback.entries) + [FeedbackEntry(username, e.feedback.value, date)])
    {
      reply, calls := Run(Classify(text), username, date, service, system);
    }

    /** The listener's branch for one classified command. */
    method Run(cmd: Command, username: Option<string>, date: nat,
               service: Translator, system: string)
      returns (reply: Reply, calls: seq<Call>)
      requires Valid()
      modifies stats, feedback
      ensures Valid()
      ensures var e := Respond(cmd, catalog, service, old(stats.FindOne()), system);
        && reply == e.reply && calls == e.calls
        && (e.record.None? ==> unchanged(stats))
        && (e.record.Some? ==>
              stats.FindOne() == Some(Recorded(old(stats.Current()), e.record.value.0, e.record.value.1)))
        && (e.feedback.None? ==> unchanged(feedback))
        && (e.feedback.Some? ==>
              feedback.entries == old(feedback.entries) + [FeedbackEntry(username, e.feedback.value, date)])
    {
      calls := [];
      match cmd
      case Translate(message) =>
        reply, calls := RunTranslate(message, service);
      case TranslateTo(code, message) =>
        reply, calls := RunTranslateTo(code, message, service);
      case Feedback(message) =>
        feedback.Save(FeedbackEntry(username, message, date));
        reply := Plain(FeedbackThanks);
      case _ =>
        reply := Answer(cmd, system);
    }

    /** The branches that only reply: `/help`, `/stats`, `/languages`,
        `/top_languages` and an invalid command. */
    method Answer(cmd: Command, system: string) returns (reply: Reply)
      requires Valid()
      requires RepliesOnly(cmd)
      ensures reply == ReplyOf(cmd, catalog, stats.FindOne(), system)
    {
      match cmd
      case Help =>
        reply := Markdown(HelpText);
      case Stats =>
        reply := UsageReport(stats.FindOne(), system);
      case Languages =>
        reply := SupportedLanguages(catalog);
      case TopLanguages =>
        reply := TopLanguagesReport(stats.FindOne());
      case Unknown =>
        reply := Plain(InvalidCommandMessage);
    }
  }
}
