/**
 * The SSML document the client posts for synthesis: a fixed skeleton with
 * the language tag (twice), the voice gender, the voice name and the text
 * spliced in verbatim. Nothing is escaped. Between the gender attribute and
 * the name attribute the skeleton holds a line break and sixteen spaces,
 * exactly as the string literal in the source is laid out.
 */
module Ssml {

  import opened Options

  /** The line break and indentation that separate `xml:gender` from `name`. */
  const Break: string := "\n                "

  const SpeakOpen: string := "<speak version='1.0' xml:lang='"
  const VoiceOpen: string := "'><voice xml:lang='"
  const GenderAttr: string := "' xml:gender='"
  const NameAttr: string := "'" + Break + "name='"
  const TagClose: string := "'>"
  const Closing: string := "</voice></speak>"

  /** Number of characters the skeleton contributes on its own. */
  const TemplateLength: nat := 106

  /** Everything before the text, for a given language, gender and voice name. */
  function Header(lang: string, gender: string, name: string): (h: string)
    ensures |h| == 2 * |lang| + |gender| + |name| + 90
    ensures h[..31] == SpeakOpen
  {
    SpeakOpen + lang + VoiceOpen + lang + GenderAttr + gender + NameAttr + name + TagClose
  }

  /** `MicrosoftTTS.create_ssml(text, lang, gender, name)`. */
  function CreateSsml(text: string, lang: string, gender: string, name: string): (r: string)
    ensures |r| == |text| + 2 * |lang| + |gender| + |name| + TemplateLength
    ensures r[..31] == "<speak version='1.0' xml:lang='"
    ensures r[|r| - 16..] == "</voice></speak>"
    ensures r[|r| - 16 - |text|..|r| - 16] == text
  {
    var r := Header(lang, gender, name) + text + Closing;
    assert r[..31] == Header(lang, gender, name)[..31];
    r
  }

  /**
   * The text of a document built for the given language, gender and name,
   * or None when the document does not have that header and the closing tags.
   */
  function ExtractText(lang: string, gender: string, name: string, doc: string): (r: Option<string>)
    ensures r.Some? ==> |r.value| + TemplateLength + 2 * |lang| + |gender| + |name| == |doc|
  {
    var h := Header(lang, gender, name);
    if |doc| >= |h| + |Closing| && doc[..|h|] == h && doc[|doc| - |Closing|..] == Closing
    then Some(doc[|h|..|doc| - |Closing|])
    else None
  }

  /** Given the other three arguments, the text is recovered unchanged from the document. */
  lemma ExtractCreated(text: string, lang: string, gender: string, name: string)
    ensures ExtractText(lang, gender, name, CreateSsml(text, lang, gender, name)) == Some(text)
  {
  }

  /** Conversely, every document the extraction accepts is exactly the one built from its text. */
  lemma ExtractedIsCreated(lang: string, gender: string, name: string, doc: string)
    requires ExtractText(lang, gender, name, doc).Some?
    ensures CreateSsml(ExtractText(lang, gender, name, doc).value, lang, gender, name) == doc
  {
  }

  /** For fixed language, gender and name, distinct texts give distinct documents. */
  lemma CreateSsmlInjectiveInText(t1: string, t2: string, lang: string, gender: string, name: string)
    requires CreateSsml(t1, lang, gender, name) == CreateSsml(t2, lang, gender, name)
    ensures t1 == t2
  {
  }

  /**
   * The middle of the document: the gender value, then a quote, a line
   * break, sixteen spaces and `name='`, then the name, at positions fixed
   * by the earlier arguments.
   */
  lemma GenderNameSeparator(text: string, lang: string, gender: string, name: string)
    ensures var r := CreateSsml(text, lang, gender, name);
      var k := 64 + 2 * |lang| + |gender|;
      && r[k - |gender|..k] == gender
      && r[k] == '\''
      && r[k + 1] == '\n'
      && (forall j :: k + 2 <= j < k + 18 ==> r[j] == ' ')
      && r[k + 18..k + 24] == "name='"
      && r[k + 24..k + 24 + |name|] == name
  {
  }

  lemma SliceOfPrefix(s: string, p: string, i: nat, j: nat)
    requires i <= j <= |p| <= |s| && s[..|p|] == p
    ensures s[i..j] == p[i..j]
  {
    assert forall k :: i <= k < j ==> s[k] == s[..|p|][k];
  }

  /**
   * The opening of the document, slot by slot: the speak opener, the
   * language tag, the voice opener, the language tag again and the gender
   * attribute, each at the position the language length fixes.
   */
  lemma OpeningSlots(text: string, lang: string, gender: string, name: string)
    ensures var r := CreateSsml(text, lang, gender, name);
      var n := |lang|;
      && r[..31] == "<speak version='1.0' xml:lang='"
      && r[31..31 + n] == lang
      && r[31 + n..50 + n] == "'><voice xml:lang='"
      && r[50 + n..50 + 2 * n] == lang
      && r[50 + 2 * n..64 + 2 * n] == "' xml:gender='"
  {
    var r := CreateSsml(text, lang, gender, name);
    var n := |lang|;
    var p1 := SpeakOpen + lang;
    var p2 := p1 + VoiceOpen;
    var p3 := p2 + lang;
    var p := p3 + GenderAttr;
    assert r[..|p|] == p;
    SliceOfPrefix(r, p, |p3|, |p|);
    SliceOfPrefix(r, p, 0, |p3|);
    SliceOfPrefix(r, p3, |p2|, |p3|);
    SliceOfPrefix(r, p3, 0, |p2|);
    SliceOfPrefix(r, p2, |p1|, |p2|);
    SliceOfPrefix(r, p2, 0, |p1|);
    SliceOfPrefix(r, p1, 31, |p1|);
    SliceOfPrefix(r, p1, 0, 31);
  }

  /**
   * The end of the document: `'>` closing the voice start tag right after
   * the name, then the text, then the closing tags.
   */
  lemma ClosingSlots(text: string, lang: string, gender: string, name: string)
    ensures var r := CreateSsml(text, lang, gender, name);
      var t := 88 + 2 * |lang| + |gender| + |name|;
      && r[t..t + 2] == "'>"
      && r[t + 2..t + 2 + |text|] == text
      && r[t + 2 + |text|..] == "</voice></speak>"
  {
    var r := CreateSsml(text, lang, gender, name);
    var pre := SpeakOpen + lang + VoiceOpen + lang + GenderAttr + gender + NameAttr + name;
    var t := |pre|;
    assert r == pre + TagClose + text + Closing;
    assert r[t..t + 2] == TagClose;
    assert r[t + 2..t + 2 + |text|] == text;
  }

  /** Number of occurrences of `c` in `s`. */
  function Occurrences(s: string, c: char): nat {
    if s == [] then 0 else (if s[0] == c then 1 else 0) + Occurrences(s[1..], c)
  }

  lemma {:induction false} OccurrencesAppend(a: string, b: string, c: char)
    ensures Occurrences(a + b, c) == Occurrences(a, c) + Occurrences(b, c)
  {
    if a != [] {
      assert (a + b)[0] == a[0] && (a + b)[1..] == a[1..] + b;
      OccurrencesAppend(a[1..], b, c);
    } else {
      assert a + b == b;
    }
  }

  /** No character of `s` has a meaning of its own in XML markup. */
  predicate XmlSafe(s: string) {
    forall i :: 0 <= i < |s| ==> s[i] !in {'<', '>', '&', '\''}
  }

  predicate IsMarkup(c: char) {
    c == '<' || c == '>' || c == '&' || c == '\''
  }

  lemma {:induction false} XmlSafeHasNone(s: string, c: char)
    requires XmlSafe(s) && IsMarkup(c)
    ensures Occurrences(s, c) == 0
  {
    if s != [] {
      assert XmlSafe(s[1..]) by {
        forall i | 0 <= i < |s[1..]| ensures s[1..][i] !in {'<', '>', '&', '\''} {
          assert s[1..][i] == s[i + 1];
        }
      }
      XmlSafeHasNone(s[1..], c);
    }
  }

  /** The characters the skeleton contributes, in order, without the arguments. */
  const Skeleton: string := SpeakOpen + VoiceOpen + GenderAttr + NameAttr + TagClose + Closing

  /**
   * Every occurrence of a character in the document comes either from the
   * skeleton or from one of the spliced arguments, which are inserted
   * unescaped (the language tag twice).
   */
  lemma MarkupCount(text: string, lang: string, gender: string, name: string, c: char)
    ensures Occurrences(CreateSsml(text, lang, gender, name), c)
         == Occurrences(Skeleton, c)
          + Occurrences(text, c) + 2 * Occurrences(lang, c) + Occurrences(gender, c) + Occurrences(name, c)
  {
    OccurrencesAppend(SpeakOpen, lang, c);
    OccurrencesAppend(SpeakOpen + lang, VoiceOpen, c);
    OccurrencesAppend(SpeakOpen + lang + VoiceOpen, lang, c);
    OccurrencesAppend(SpeakOpen + lang + VoiceOpen + lang, GenderAttr, c);
    OccurrencesAppend(SpeakOpen + lang + VoiceOpen + lang + GenderAttr, gender, c);
    OccurrencesAppend(SpeakOpen + lang + VoiceOpen + lang + GenderAttr + gender, NameAttr, c);
    OccurrencesAppend(SpeakOpen + lang + VoiceOpen + lang + GenderAttr + gender + NameAttr, name, c);
    OccurrencesAppend(SpeakOpen + lang + VoiceOpen + lang + GenderAttr + gender + NameAttr + name, TagClose, c);
    OccurrencesAppend(Header(lang, gender, name), text, c);
    OccurrencesAppend(Header(lang, gender, name) + text, Closing, c);
    OccurrencesAppend(SpeakOpen, VoiceOpen, c);
    OccurrencesAppend(SpeakOpen + VoiceOpen, GenderAttr, c);
    OccurrencesAppend(SpeakOpen + VoiceOpen + GenderAttr, NameAttr, c);
    OccurrencesAppend(SpeakOpen + VoiceOpen + GenderAttr + NameAttr, TagClose, c);
    OccurrencesAppend(SpeakOpen + VoiceOpen + GenderAttr + NameAttr + TagClose, Closing, c);
  }

  /**
   * With XML-safe arguments, every markup character of the document (tag
   * brackets, quotes, ampersands) belongs to the skeleton: the arguments
   * add no element and no attribute.
   */
  lemma SafeMarkup(text: string, lang: string, gender: string, name: string, c: char)
    requires XmlSafe(text) && XmlSafe(lang) && XmlSafe(gender) && XmlSafe(name)
    requires IsMarkup(c)
    ensures Occurrences(CreateSsml(text, lang, gender, name), c) == Occurrences(Skeleton, c)
  {
    MarkupCount(text, lang, gender, name, c);
    XmlSafeHasNone(text, c);
    XmlSafeHasNone(lang, c);
    XmlSafeHasNone(gender, c);
    XmlSafeHasNone(name, c);
  }

  /**
   * The template does no escaping: a quote-and-bracket moved from the end
   * of the name to the start of the text yields the same document.
   */
  lemma UnescapedAmbiguity()
    ensures CreateSsml("c", "en-US", "Female", "a'>b") == CreateSsml("b'>c", "en-US", "Female", "a")
  {
  }
}
