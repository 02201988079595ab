/** Translation lookup: the two languages, dotted keys into nested tables,
    the fallback chain of `t`, and `{word}` placeholder interpolation. */
module I18n {
  import opened JsValues

  datatype Language = Es | En

  /** The language used when nothing else decides: Spanish. */
  const DefaultLanguage := Es

  /** A translation table: a string, or an object of named sub-tables. */
  datatype Node = Text(s: string) | Table(entries: map<string, Node>)

  /** The translation tables of both languages. Their content is data, so
      it is a parameter of the model. */
  datatype Translations = Translations(es: Node, en: Node)

  function Root(tr: Translations, lang: Language): Node {
    match lang
    case Es => tr.es
    case En => tr.en
  }

  // ------------------------------------------------------------ interpolate

  /** The longest run of `\w` characters at the front of `s`. */
  function WordRun(s: string): (w: string)
    ensures |w| <= |s| && w == s[..|w|]
    ensures forall k :: 0 <= k < |w| ==> IsWordChar(w[k])
    ensures |w| < |s| ==> !IsWordChar(s[|w|])
  {
    if s == [] || !IsWordChar(s[0]) then [] else [s[0]] + WordRun(s[1..])
  }

  /** The key of the `{word}` placeholder that starts `s`, if one does. */
  function PlaceholderAt(s: string): (key: Option<string>)
    ensures key.Some? ==> 0 < |key.value| && |key.value| + 2 <= |s|
    ensures key.Some? ==> s[..|key.value| + 2] == "{" + key.value + "}"
    ensures key.Some? ==> forall k :: 0 <= k < |key.value| ==> IsWordChar(key.value[k])
    ensures s == [] || s[0] != '{' ==> key.None?
  {
    if s == [] || s[0] != '{' then None
    else
      var w := WordRun(s[1..]);
      if |w| > 0 && |w| + 1 < |s| && s[|w| + 1] == '}' then
        assert s[..|w| + 2] == [s[0]] + s[1..][..|w|] + [s[|w| + 1]];
        Some(w)
      else None
  }

  /** `interpolate`: one left-to-right pass replacing every `{word}` whose
      key has a value; other placeholders stay as they are. */
  function Interpolate(s: string, values: map<string, string>): string
    decreases |s|
  {
    if s == [] then []
    else
      match PlaceholderAt(s)
      case Some(key) =>
        (if key in values then values[key] else s[..|key| + 2]) + Interpolate(s[|key| + 2..], values)
      case None => [s[0]] + Interpolate(s[1..], values)
  }

  /** Without values every placeholder stays verbatim: the text is unchanged. */
  lemma {:induction false} InterpolateNoValues(s: string)
    ensures Interpolate(s, map[]) == s
    decreases |s|
  {
    if s != [] {
      match PlaceholderAt(s)
      case Some(key) =>
        InterpolateNoValues(s[|key| + 2..]);
        assert s == s[..|key| + 2] + s[|key| + 2..];
      case None =>
        InterpolateNoValues(s[1..]);
        assert s == [s[0]] + s[1..];
    }
  }

  /** A text without `{` has no placeholder and is returned unchanged. */
  lemma {:induction false} InterpolateNoBrace(s: string, values: map<string, string>)
    requires '{' !in s
    ensures Interpolate(s, values) == s
    decreases |s|
  {
    if s != [] {
      assert PlaceholderAt(s).None?;
      assert '{' !in s[1..];
      InterpolateNoBrace(s[1..], values);
      assert s == [s[0]] + s[1..];
    }
  }

  lemma WordRunStops(key: string, c: char, rest: string)
    requires forall k :: 0 <= k < |key| ==> IsWordChar(key[k])
    requires !IsWordChar(c)
    ensures WordRun(key + [c] + rest) == key
  {
    var s := key + [c] + rest;
    assert s[..|key|] == key && s[|key|] == c;
  }

  /** A placeholder at the front is replaced by its value when the key has
      one and kept otherwise; the text after it is interpolated on its own. */
  lemma InterpolatePlaceholder(key: string, rest: string, values: map<string, string>)
    requires 0 < |key| && forall k :: 0 <= k < |key| ==> IsWordChar(key[k])
    ensures Interpolate("{" + key + "}" + rest, values) ==
      (if key in values then values[key] else "{" + key + "}") + Interpolate(rest, values)
  {
    var s := "{" + key + "}" + rest;
    assert s[1..] == key + ['}'] + rest;
    WordRunStops(key, '}', rest);
    assert s[|key| + 1] == '}';
    assert PlaceholderAt(s) == Some(key);
    assert s[|key| + 2..] == rest;
    assert s[..|key| + 2] == "{" + key + "}";
  }

  /** Inserted text is not scanned again, even when it holds a placeholder. */
  lemma InterpolateNotRescanned(key: string, values: map<string, string>)
    requires 0 < |key| && forall k :: 0 <= k < |key| ==> IsWordChar(key[k])
    requires key in values
    ensures Interpolate("{" + key + "}", values) == values[key]
  {
    InterpolatePlaceholder(key, "", values);
    assert "{" + key + "}" + "" == "{" + key + "}";
    assert values[key] + Interpolate("", values) == values[key];
  }

  // ------------------------------------------------------------ nested keys

  /** A canonical array index below `len` ("0", "1", …, no leading zero). */
  predicate IsIndex(k: string, len: nat) {
    AllDigits(k) && (k == "0" || k[0] != '0') && DigitsValue(k) < len
  }

  /** `obj[k]` for a table or a string; `None` is `undefined`. A string has
      no named members, but indexing it gives a one-character string. */
  function Child(n: Node, k: string): (r: Option<Node>)
    ensures n.Table? ==> (r.Some? <==> k in n.entries)
    ensures n.Text? && r.Some? ==> r.value.Text? && |r.value.s| == 1 && r.value.s[0] in n.s
  {
    match n
    case Table(m) => if k in m then Some(m[k]) else None
    case Text(s) => if IsIndex(k, |s|) then Some(Text([s[DigitsValue(k)]])) else None
  }

  /** The `reduce` of `getNestedTranslation` over the path segments. */
  function Walk(start: Option<Node>, path: seq<string>): Option<Node>
    decreases |path|
  {
    if path == [] then start
    else Walk(if start.Some? then Child(start.value, path[0]) else None, path[1..])
  }

  /** Once undefined, the walk stays undefined. */
  lemma {:induction false} WalkUndefined(path: seq<string>)
    ensures Walk(None, path) == None
    decreases |path|
  {
    if path != [] {
      WalkUndefined(path[1..]);
    }
  }

  /** Walking a path in two pieces is walking it in one. */
  lemma {:induction false} WalkAppend(start: Option<Node>, a: seq<string>, b: seq<string>)
    ensures Walk(start, a + b) == Walk(Walk(start, a), b)
    decreases |a|
  {
    if a != [] {
      var next := if start.Some? then Child(start.value, a[0]) else None;
      assert (a + b)[0] == a[0];
      assert (a + b)[1..] == a[1..] + b;
      assert Walk(start, a + b) == Walk(next, a[1..] + b);
      WalkAppend(next, a[1..], b);
    } else {
      assert a + b == b;
    }
  }

  /** A segment missing from the table reached so far makes the whole
      lookup undefined. */
  lemma MissingSegment(root: Node, path: seq<string>, i: nat, m: map<string, Node>)
    requires i < |path| && Walk(Some(root), path[..i]) == Some(Table(m)) && path[i] !in m
    ensures Walk(Some(root), path) == None
  {
    assert path == path[..i] + ([path[i]] + path[i + 1..]);
    WalkAppend(Some(root), path[..i], [path[i]] + path[i + 1..]);
    WalkUndefined(path[i + 1..]);
  }

  /** A key whose segments all name table entries reaches the nested entry. */
  lemma WalkTables(m: map<string, Node>, k: string, path: seq<string>)
    requires k in m
    ensures Walk(Some(Table(m)), [k] + path) == Walk(Some(m[k]), path)
  {
    assert ([k] + path)[1..] == path;
  }

  /** A digit segment after a string picks one of its characters instead of
      giving up: `title.0` is the first letter of the title. */
  lemma TextIsIndexable()
    ensures Walk(Some(Table(map["title" := Text("Hola")])), ["title", "0"]) == Some(Text("H"))
  {
    assert ["title", "0"][1..] == ["0"];
    assert DigitsValue("0") == 0 by {
      assert "0"[..0] == "";
    }
    assert IsIndex("0", 4);
  }

  /** `getNestedTranslation`: the dot-separated key followed from the root. */
  function Lookup(tr: Translations, lang: Language, key: string): Option<Node> {
    Walk(Some(Root(tr, lang)), Split(key, '.'))
  }

  /** The looked-up value when it is a string (`typeof … === 'string'`). */
  function LookupText(tr: Translations, lang: Language, key: string): (r: Option<string>)
    ensures r.Some? <==> Lookup(tr, lang, key).Some? && Lookup(tr, lang, key).value.Text?
  {
    match Lookup(tr, lang, key)
    case Some(Text(s)) => Some(s)
    case _ => None
  }

  // ------------------------------------------------------------ t

  /** `t(key, values)` in language `lang`. */
  function T(tr: Translations, lang: Language, key: string, values: Option<map<string, string>>): string {
    var found := if LookupText(tr, lang, key).Some? then LookupText(tr, lang, key) else LookupText(tr, DefaultLanguage, key);
    match found
    case None => key
    case Some(s) => if values.Some? then Interpolate(s, values.value) else s
  }

  /** The fallback chain: the current language's string, else the Spanish
      one, else the key itself; a found string is interpolated when values
      are given and returned as is otherwise. The bare key is never
      interpolated. */
  lemma TResolution(tr: Translations, lang: Language, key: string, values: Option<map<string, string>>)
    ensures LookupText(tr, lang, key).Some? ==>
      T(tr, lang, key, values) == if values.Some? then Interpolate(LookupText(tr, lang, key).value, values.value)
                                  else LookupText(tr, lang, key).value
    ensures LookupText(tr, lang, key).None? && LookupText(tr, Es, key).Some? ==>
      T(tr, lang, key, values) == if values.Some? then Interpolate(LookupText(tr, Es, key).value, values.value)
                                  else LookupText(tr, Es, key).value
    ensures LookupText(tr, lang, key).None? && LookupText(tr, Es, key).None? ==> T(tr, lang, key, values) == key
  {
  }

  /** Where English has no string, an English page shows what a Spanish
      page shows. */
  lemma EnglishFallsBackToSpanish(tr: Translations, key: string, values: Option<map<string, string>>)
    requires LookupText(tr, En, key).None?
    ensures T(tr, En, key, values) == T(tr, Es, key, values)
  {
  }

  /** Passing values changes nothing for a string without `{`. */
  lemma ValuesIrrelevantWithoutBraces(tr: Translations, lang: Language, key: string, values: map<string, string>)
    requires forall s :: LookupText(tr, lang, key) == Some(s) || LookupText(tr, Es, key) == Some(s) ==> '{' !in s
    ensures T(tr, lang, key, Some(values)) == T(tr, lang, key, None)
  {
    var found := if LookupText(tr, lang, key).Some? then LookupText(tr, lang, key) else LookupText(tr, Es, key);
    if found.Some? {
      InterpolateNoBrace(found.value, values);
    }
  }

  // ------------------------------------------------------------ initial language

  function LanguageFor(code: string): Option<Language> {
    if code == "es" then Some(Es) else if code == "en" then Some(En) else None
  }

  /** The starting language: the browser tag's part before the first `-`
      when it names a supported language, Spanish otherwise (and Spanish
      when there is no browser). */
  function InitialLanguage(browserTag: Option<string>): (lang: Language)
    ensures lang == En <==> browserTag.Some? && TakeUntil(browserTag.value, '-') == "en"
    ensures browserTag.None? ==> lang == DefaultLanguage
  {
    match browserTag
    case None => DefaultLanguage
    case Some(tag) => LanguageFor(Split(tag, '-')[0]).GetOr(DefaultLanguage)
  }

  /** A regional English tag selects English. */
  lemma RegionalEnglish()
    ensures InitialLanguage(Some("en-US")) == En
  {
    assert TakeUntil("en-US", '-') == "en" by {
      assert TakeUntil("-US", '-') == "";
      assert "en-US"[1..] == "n-US" && "n-US"[1..] == "-US";
    }
  }
}
