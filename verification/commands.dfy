/** Classification of an incoming chat text into a command, with the payload
    the handler works on (the `if … else if` chain of the message listener). */
module Commands {
  import opened Text

  datatype Command =
    | Translate(message: string)
    | TranslateTo(code: string, message: string)
    | Help
    | Stats
    | Languages
    | Feedback(message: string)
    | TopLanguages
    | Unknown

  const TranslatePrefix := "/translate "
  const TranslateToPrefix := "/translate_to "
  const FeedbackPrefix := "/feedback "

  /** The prefixes in the order the listener tests them. */
  const Prefixes: seq<string> :=
    [TranslatePrefix, TranslateToPrefix, "/help", "/stats", "/languages", FeedbackPrefix, "/top_languages"]

  /** Position of a command's prefix in `Prefixes`; `Unknown` comes after all of them. */
  function Rank(cmd: Command): nat {
    match cmd
    case Translate(_) => 0
    case TranslateTo(_, _) => 1
    case Help => 2
    case Stats => 3
    case Languages => 4
    case Feedback(_) => 5
    case TopLanguages => 6
    case Unknown => 7
  }

  /** Reference definition of first-match-wins: the index of the first prefix
      of `ps` that `text` starts with, or `|ps|` when none does. */
  function FirstMatch(text: string, ps: seq<string>): (i: nat)
    ensures i <= |ps|
    ensures i < |ps| ==> StartsWith(text, ps[i])
    ensures forall j :: 0 <= j < i ==> !StartsWith(text, ps[j])
  {
    if ps == [] then 0
    else if StartsWith(text, ps[0]) then 0
    else 1 + FirstMatch(text, ps[1..])
  }

  /** `/translate_to <code> <message>`: the text is split on single spaces,
      the second piece is the language code and the pieces from the third on,
      joined again with single spaces, are the message. So the code is the
      text between the prefix and the next space, and the message is all that
      follows that space, runs of spaces included. */
  function ParseTranslateTo(text: string): (r: (string, string))
    requires StartsWith(text, TranslateToPrefix)
    ensures ' ' !in r.0
    ensures ' ' in text[14..] ==> text == TranslateToPrefix + r.0 + " " + r.1
    ensures ' ' !in text[14..] ==> text == TranslateToPrefix + r.0 && r.1 == ""
  {
    var rest := text[14..];
    assert text == "/translate_to" + " " + rest;
    SplitAfterWord("/translate_to", rest);
    JoinSplit(rest);
    var parts := Split(text);
    assert parts[1..] == Split(rest);
    assert parts[2..] == Split(rest)[1..];
    (parts[1], Join(parts[2..]))
  }

  /** The command a chat text stands for: the first prefix that matches wins. */
  function Classify(text: string): (cmd: Command)
    ensures cmd.Translate? ==> text == TranslatePrefix + cmd.message
    ensures cmd.Feedback? ==> text == FeedbackPrefix + cmd.message
    ensures cmd.TranslateTo? ==>
      StartsWith(text, TranslateToPrefix) && (cmd.code, cmd.message) == ParseTranslateTo(text)
  {
    if StartsWith(text, TranslatePrefix) then Translate(text[11..])
    else if StartsWith(text, TranslateToPrefix) then
      var (code, message) := ParseTranslateTo(text);
      TranslateTo(code, message)
    else if StartsWith(text, "/help") then Help
    else if StartsWith(text, "/stats") then Stats
    else if StartsWith(text, "/languages") then Languages
    else if StartsWith(text, FeedbackPrefix) then Feedback(text[10..])
    else if StartsWith(text, "/top_languages") then TopLanguages
    else Unknown
  }

  /** Classification is first-match-wins over `Prefixes`, in that order, and
      text matching none of them is `Unknown`. */
  lemma ClassifyIsFirstMatch(text: string)
    ensures Rank(Classify(text)) == FirstMatch(text, Prefixes)
  {
    var i := FirstMatch(text, Prefixes);
    var k := Rank(Classify(text));
    assert k <= 7;
    if k < 7 {
      assert StartsWith(text, Prefixes[k]);
    }
    forall j | 0 <= j < k
      ensures !StartsWith(text, Prefixes[j])
    {
    }
  }

  /** A text that starts with `/translate_to ` never reaches the `/translate `
      branch: the eleventh character tells them apart. */
  lemma TranslateToIsNotTranslate(text: string)
    requires StartsWith(text, TranslateToPrefix)
    ensures Classify(text).TranslateTo?
  {
    assert text[10] == '_';
    assert !StartsWith(text, TranslatePrefix) by {
      assert TranslatePrefix[10] == ' ';
    }
  }

  /** A `/translate_to` text of at least three pieces is reproduced from its
      code and message. */
  lemma TranslateToRoundTrip(code: string, message: string)
    requires ' ' !in code
    ensures Classify(TranslateToPrefix + code + " " + message) == TranslateTo(code, message)
  {
    var text := TranslateToPrefix + code + " " + message;
    assert StartsWith(text, TranslateToPrefix) by {
      assert text[..14] == TranslateToPrefix;
    }
    TranslateToIsNotTranslate(text);
    var cmd := Classify(text);
    assert text[14..] == code + " " + message;
    assert ' ' in text[14..] by {
      assert text[14..][|code|] == ' ';
    }
    assert TranslateToPrefix + cmd.code + " " + cmd.message == TranslateToPrefix + code + " " + message;
    SpaceSplitUnique(cmd.code, cmd.message, code, message);
  }

  /** Cutting a text at its first space is unique. */
  lemma SpaceSplitUnique(a: string, b: string, c: string, d: string)
    requires ' ' !in a && ' ' !in c
    requires TranslateToPrefix + a + " " + b == TranslateToPrefix + c + " " + d
    ensures a == c && b == d
  {
    var s := a + " " + b;
    assert s == c + " " + d by {
      assert (TranslateToPrefix + a + " " + b)[14..] == s;
      assert (TranslateToPrefix + c + " " + d)[14..] == c + " " + d;
    }
    SplitAfterWord(a, b);
    SplitAfterWord(c, d);
    assert ([a] + Split(b))[0] == ([c] + Split(d))[0];
    assert b == s[|a| + 1..] && d == (c + " " + d)[|c| + 1..];
  }

  /** A prefix without its trailing space does not match: bare `/translate`
      and bare `/feedback` are invalid commands. */
  lemma BarePrefixesAreUnknown()
    ensures Classify("/translate") == Unknown
    ensures Classify("/feedback") == Unknown
  {
    var t := "/translate";
    assert t[1] == 't' && t[2] == 'r' && t[3] == 'a';
    assert !StartsWith(t, "/help") && !StartsWith(t, "/stats") && !StartsWith(t, "/top_languages");
    assert !StartsWith(t, "/languages") by { assert t[1] != "/languages"[1]; }
    var f := "/feedback";
    assert f[1] == 'f';
    assert !StartsWith(f, "/help") && !StartsWith(f, "/stats") && !StartsWith(f, "/languages");
  }

  /** Any text that begins with `/help` is the help command. */
  lemma HelpMatchesAnySuffix(suffix: string)
    ensures Classify("/help" + suffix) == Help
  {
    var t := "/help" + suffix;
    assert t[1] == 'h';
    assert !StartsWith(t, TranslatePrefix) by { assert TranslatePrefix[1] == 't'; }
    assert !StartsWith(t, TranslateToPrefix) by { assert TranslateToPrefix[1] == 't'; }
    assert t[..5] == "/help";
  }

  /** A doubled space after `/translate_to` makes the code empty and leaves
      the rest as the message. */
  lemma DoubledSpaceGivesEmptyCode()
    ensures Classify("/translate_to  es hi") == TranslateTo("", "es hi")
  {
    assert "/translate_to  es hi" == TranslateToPrefix + "" + " " + "es hi";
    TranslateToRoundTrip("", "es hi");
  }

  /** A single token after `/translate_to` is a code with an empty message. */
  lemma SingleTokenGivesEmptyMessage()
    ensures Classify("/translate_to es") == TranslateTo("es", "")
  {
    var t := "/translate_to es";
    assert t[..14] == TranslateToPrefix;
    TranslateToIsNotTranslate(t);
    assert t[14..] == "es";
  }
}
