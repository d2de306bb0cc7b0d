/** The interface language (LanguageContext.tsx): the chosen language code,
    its display name from the list of supported languages, and `t`, which
    looks a dotted path up in the translation table of the language and
    falls back to the English table, and finally to the path itself. The
    translation tables are data; the model takes them as a parameter. */
module Language {
  import opened Wrappers
  import opened Strings

  /** A value of a translation table: a text, or a nested table whose
      entries are looked up by key. */
  datatype Entry = Text(s: string) | Table(entries: seq<(string, Entry)>)

  /** The value of a key of a table; a text has no keys. */
  function Member(e: Entry, key: string): (r: Option<Entry>)
    ensures r.Some? ==> e.Table? && exists i :: 0 <= i < |e.entries| && e.entries[i] == (key, r.value)
    ensures r.None? ==> e.Text? || forall i :: 0 <= i < |e.entries| ==> e.entries[i].0 != key
  {
    match e
    case Text(_) => None
    case Table(entries) => FirstWithKey(entries, key)
  }

  function FirstWithKey(entries: seq<(string, Entry)>, key: string): (r: Option<Entry>)
    ensures r.Some? ==> exists i :: 0 <= i < |entries| && entries[i] == (key, r.value)
    ensures r.None? ==> forall i :: 0 <= i < |entries| ==> entries[i].0 != key
  {
    if |entries| == 0 then None
    else if entries[0].0 == key then Some(entries[0].1)
    else
      var r := FirstWithKey(entries[1..], key);
      assert r.Some? ==> entries[1..][0..] == entries[1..];
      assert forall i :: 1 <= i < |entries| ==> entries[i] == entries[1..][i - 1];
      r
  }

  /** A table is always truthy, a text unless it is empty. */
  predicate Truthy(e: Entry) {
    e.Table? || e.s != ""
  }

  /** Following the keys one after the other, as long as each is defined. */
  function Walk(e: Entry, keys: seq<string>): Option<Entry>
    decreases |keys|
  {
    if |keys| == 0 then Some(e)
    else match Member(e, keys[0])
      case None => None
      case Some(next) => Walk(next, keys[1..])
  }

  /** The walk over the English table, which gives up at the first value
      that is falsy: a missing key or an empty text. */
  function FallbackWalk(e: Entry, keys: seq<string>): Option<Entry>
    decreases |keys|
  {
    if |keys| == 0 then Some(e)
    else if Truthy(e) && Member(e, keys[0]).Some? && Truthy(Member(e, keys[0]).value) then
      FallbackWalk(Member(e, keys[0]).value, keys[1..])
    else None
  }

  /** The table the lookup starts from: the language's own when it is
      there, else the English one. */
  function StartTable(tables: map<string, Entry>, language: string): Entry
    requires "en" in tables
  {
    if language in tables && Truthy(tables[language]) then tables[language] else tables["en"]
  }

  /** What `t(path)` returns: the path itself, a text the walk over the
      language's table reaches, or, when that walk misses a key, a non-empty
      text the walk over the English table reaches. */
  function Translate(tables: map<string, Entry>, language: string, path: string): (r: string)
    requires "en" in tables
    ensures var keys := Split(path, '.');
      r == path ||
      Walk(StartTable(tables, language), keys) == Some(Text(r)) ||
      (Walk(StartTable(tables, language), keys).None? && FallbackWalk(tables["en"], keys) == Some(Text(r)) && r != "")
  {
    var keys := Split(path, '.');
    match Walk(StartTable(tables, language), keys)
    case Some(v) => if v.Text? then v.s else path
    case None =>
      match FallbackWalk(tables["en"], keys)
      case Some(Text(s)) => FallbackWalkTruthy(tables["en"], keys); s
      case _ => path
  }

  /** A value the English walk reaches after at least one key is truthy. */
  lemma {:induction false} FallbackWalkTruthy(e: Entry, keys: seq<string>)
    requires |keys| > 0 && FallbackWalk(e, keys).Some?
    ensures Truthy(FallbackWalk(e, keys).value)
    decreases |keys|
  {
    var next := Member(e, keys[0]).value;
    if |keys| > 1 {
      FallbackWalkTruthy(next, keys[1..]);
    }
  }

  /** The English walk succeeds only where the strict walk does, with the
      same value. */
  lemma {:induction false} FallbackWalkIsWalk(e: Entry, keys: seq<string>)
    requires FallbackWalk(e, keys).Some?
    ensures Walk(e, keys) == FallbackWalk(e, keys)
    decreases |keys|
  {
    if |keys| > 0 {
      FallbackWalkIsWalk(Member(e, keys[0]).value, keys[1..]);
    }
  }

  /** Which of the outcomes `t` gives: a text the language's walk reaches
      is returned; when that walk misses a key, a text the English walk
      reaches is returned; the path comes back when neither applies. */
  lemma TranslateFoundOrPath(tables: map<string, Entry>, language: string, path: string)
    requires "en" in tables
    ensures var r := Translate(tables, language, path);
      var keys := Split(path, '.');
      var own := Walk(StartTable(tables, language), keys);
      var english := FallbackWalk(tables["en"], keys);
      (own.Some? && own.value.Text? ==> r == own.value.s) &&
      (own.None? && english.Some? && english.value.Text? ==> r == english.value.s) &&
      (!(own.Some? && own.value.Text?) && !(own.None? && english.Some? && english.value.Text?) ==> r == path)
  {
  }

  /** In English, or in a language without a table, the text at the path is
      returned when there is one, and otherwise the path: the English table
      is never walked twice to a different result. */
  lemma EnglishLookup(tables: map<string, Entry>, language: string, path: string)
    requires "en" in tables && StartTable(tables, language) == tables["en"]
    ensures var keys := Split(path, '.');
      Translate(tables, language, path) == if Walk(tables["en"], keys).Some? && Walk(tables["en"], keys).value.Text? then Walk(tables["en"], keys).value.s else path
  {
    var keys := Split(path, '.');
    if Walk(tables["en"], keys).None? && FallbackWalk(tables["en"], keys).Some? {
      FallbackWalkIsWalk(tables["en"], keys);
    }
  }

  /** One supported language: its code and its English name. */
  datatype LanguageInfo = LanguageInfo(code: string, name: string)

  const Languages: seq<LanguageInfo> := [
    LanguageInfo("en", "English"), LanguageInfo("hi", "Hindi"), LanguageInfo("bn", "Bengali"),
    LanguageInfo("te", "Telugu"), LanguageInfo("mr", "Marathi"), LanguageInfo("ta", "Tamil"),
    LanguageInfo("ur", "Urdu"), LanguageInfo("gu", "Gujarati"), LanguageInfo("kn", "Kannada"),
    LanguageInfo("ml", "Malayalam"), LanguageInfo("pa", "Punjabi"), LanguageInfo("as", "Assamese"),
    LanguageInfo("or", "Odia"), LanguageInfo("sa", "Sanskrit"), LanguageInfo("mai", "Maithili"),
    LanguageInfo("kok", "Konkani"), LanguageInfo("mni", "Manipuri"), LanguageInfo("ne", "Nepali")
  ]

  /** The first entry of a list with the given code. */
  function FindCode(list: seq<LanguageInfo>, code: string): (r: Option<LanguageInfo>)
    ensures r.Some? ==> r.value in list && r.value.code == code
    ensures r.None? ==> forall i :: 0 <= i < |list| ==> list[i].code != code
  {
    if |list| == 0 then None
    else if list[0].code == code then Some(list[0])
    else
      var r := FindCode(list[1..], code);
      assert forall i :: 1 <= i < |list| ==> list[i] == list[1..][i - 1];
      r
  }

  /** `languageName`: the name of the supported language with the code, or
      "English" when no supported language has it. */
  function LanguageName(code: string): (name: string)
    ensures name != ""
    ensures name == "English" || exists i :: 0 <= i < |Languages| && Languages[i] == LanguageInfo(code, name)
  {
    match FindCode(Languages, code)
    case Some(info) => if info.name != "" then info.name else "English"
    case None => "English"
  }

  /** The name is "English" exactly for English and for unsupported
      codes; a supported code gets the name of its entry. */
  lemma LanguageNameIff(code: string)
    ensures LanguageName(code) == "English" <==> code == "en" || forall i :: 0 <= i < |Languages| ==> Languages[i].code != code
    ensures FindCode(Languages, code).Some? ==> LanguageName(code) == FindCode(Languages, code).value.name
  {
    var r := FindCode(Languages, code);
    if code == "en" {
      assert Languages[0].code == "en";
      assert r == Some(Languages[0]);
    } else if r.Some? {
      var k :| 0 <= k < |Languages| && Languages[k] == r.value;
      NamesOfLanguages(k);
    }
  }

  /** Every supported language has a name, and only English is called
      "English". */
  lemma NamesOfLanguages(k: nat)
    requires k < |Languages|
    ensures Languages[k].name != ""
    ensures Languages[k].name == "English" ==> Languages[k].code == "en"
  {
    if k != 0 {
      assert |Languages[k].name| != |"English"| || Languages[k].name[0] != 'E';
    }
  }

  /** The language state of the application and its translation tables. */
  class LanguageProvider {
    var language: string
    const translations: map<string, Entry>

    ghost predicate Valid()
      reads this
    {
      "en" in translations
    }

    /** The provider starts in English. */
    constructor(tables: map<string, Entry>)
      requires "en" in tables
      ensures Valid() && language == "en" && translations == tables
    {
      language := "en";
      translations := tables;
    }

    method SetLanguage(code: string)
      requires Valid()
      modifies this
      ensures Valid() && language == code
    {
      language := code;
    }

    /** `t(path)`: the walk over the language's table, and on the first
        missing key the walk over the English table from the start. */
    method T(path: string) returns (r: string)
      requires Valid()
      ensures r == Translate(translations, language, path)
    {
      var keys := Split(path, '.');
      var current := StartTable(translations, language);
      ghost var start := current;
      var i := 0;
      while i < |keys|
        invariant 0 <= i <= |keys|
        invariant Walk(current, keys[i..]) == Walk(start, keys)
      {
        var next := Member(current, keys[i]);
        assert keys[i..][1..] == keys[i + 1..];
        if next.None? {
          var english := translations["en"];
          current := english;
          var j := 0;
          while j < |keys|
            invariant 0 <= j <= |keys|
            invariant FallbackWalk(current, keys[j..]) == FallbackWalk(english, keys)
          {
            assert keys[j..][1..] == keys[j + 1..];
            var member := Member(current, keys[j]);
            if Truthy(current) && member.Some? && Truthy(member.value) {
              current := member.value;
            } else {
              return path;
            }
            j := j + 1;
          }
          return if current.Text? then current.s else path;
        }
        current := next.value;
        i := i + 1;
      }
      return if current.Text? then current.s else path;
    }
  }
}
