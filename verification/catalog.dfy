/** The language catalog: the codes of the `translation` object of the bundled
    catalog file, in file order, and the `/languages` listing built from it. */
module Catalog {
  import opened Text
  import opened Replies

  /** Whether `/translate_to` accepts a code: it is one of the catalog's own keys. */
  predicate IsSupported(catalog: seq<string>, code: string) {
    code in catalog
  }

  /** Names every plain JavaScript object inherits from `Object.prototype`;
      looking any of them up on the catalog object yields a truthy value. */
  const InheritedNames: set<string> := {
    "constructor", "hasOwnProperty", "isPrototypeOf", "propertyIsEnumerable",
    "toString", "toLocaleString", "valueOf", "__proto__",
    "__defineGetter__", "__defineSetter__", "__lookupGetter__", "__lookupSetter__"
  }

  /** The guard as written, `langCodes[langCode]` tested for truthiness: own
      keys pass (their values are metadata objects), and so do inherited names. */
  predicate IsSupportedAsWritten(catalog: seq<string>, code: string) {
    code in catalog || code in InheritedNames
  }

  /** The guard as written lets through a code the catalog does not have. */
  lemma GuardAdmitsInheritedName(catalog: seq<string>)
    requires "constructor" !in catalog
    ensures IsSupportedAsWritten(catalog, "constructor")
    ensures !IsSupported(catalog, "constructor")
  {
  }

  /** One line of the listing: the code in monospace. */
  function CodeLine(code: string): string {
    "`" + code + "`\n"
  }

  /** The listing's lines, one per code, in catalog order. */
  function CodeLines(codes: seq<string>): (lines: seq<string>)
    ensures |lines| == |codes|
    ensures forall i :: 0 <= i < |codes| ==> lines[i] == CodeLine(codes[i])
  {
    if codes == [] then [] else CodeLines(codes[..|codes| - 1]) + [CodeLine(codes[|codes| - 1])]
  }

  const LanguagesHeader := "*Supported Languages*:\n"

  /** `sendSupportedLanguages`: the header, then one line per catalog code. */
  method SupportedLanguages(catalog: seq<string>) returns (reply: Reply)
    ensures reply == Markdown(LanguagesHeader + Concat(CodeLines(catalog)))
  {
    var message := LanguagesHeader;
    var i := 0;
    while i < |catalog|
      invariant 0 <= i <= |catalog|
      invariant message == LanguagesHeader + Concat(CodeLines(catalog)[..i])
    {
      ConcatSnoc(LanguagesHeader, CodeLines(catalog), i);
      message := message + CodeLine(catalog[i]);
      i := i + 1;
    }
    assert CodeLines(catalog)[..i] == CodeLines(catalog);
    reply := Markdown(message);
  }

  /** Different codes give different lines. */
  lemma CodeLineInjective(a: string, b: string)
    requires CodeLine(a) == CodeLine(b)
    ensures a == b
  {
    assert |a| == |b|;
    assert a == CodeLine(a)[1..|a| + 1];
    assert b == CodeLine(b)[1..|b| + 1];
  }

  /** The listing names each catalog code on exactly one line and names nothing else. */
  lemma ListingNamesEachCodeOnce(catalog: seq<string>)
    requires NoDup(catalog)
    ensures NoDup(CodeLines(catalog))
    ensures forall c :: c in catalog <==> CodeLine(c) in CodeLines(catalog)
  {
    var lines := CodeLines(catalog);
    forall i, j | 0 <= i < j < |lines| ensures lines[i] != lines[j] {
      if lines[i] == lines[j] {
        CodeLineInjective(catalog[i], catalog[j]);
      }
    }
    forall c | CodeLine(c) in lines ensures c in catalog {
      var i :| 0 <= i < |lines| && lines[i] == CodeLine(c);
      CodeLineInjective(catalog[i], c);
    }
  }
}
