/** The interface's translations: placeholder substitution in message
    templates, the lookup that falls back from the chosen language to
    Spanish and then to the key itself, the topology names, and the
    language remembered in the browser. The two translation tables are
    parameters (maps from key to template); the replacement values are
    given already converted to text. */
module I18n {
  import opened Wrappers

  datatype Language = Es | Pt

  // ------------------------------------------------------------ format

  /** A character of the regular-expression class `\w`. */
  predicate IsWordChar(c: char) {
    ('a' <= c <= 'z') || ('A' <= c <= 'Z') || ('0' <= c <= '9') || c == '_'
  }

  predicate IsWord(s: string) {
    s != [] && forall k :: 0 <= k < |s| ==> IsWordChar(s[k])
  }

  /** The length of the run of word characters that starts `s`. */
  function WordRun(s: string): (n: nat)
    ensures n <= |s|
    ensures forall k :: 0 <= k < n ==> IsWordChar(s[k])
    ensures n < |s| ==> !IsWordChar(s[n])
  {
    if s == [] || !IsWordChar(s[0]) then 0 else 1 + WordRun(s[1..])
  }

  /** `template.replace(/\{(\w+)\}/g, …)`: scanning left to right, each
      brace-enclosed word with a replacement becomes that replacement, one
      without stays as it is, and scanning resumes after the closing brace. */
  function Substitute(t: string, reps: map<string, string>): string
    decreases |t|
  {
    if t == [] then []
    else
      var n := WordRun(t[1..]);
      if t[0] == '{' && n > 0 && n + 1 < |t| && t[n + 1] == '}' then
        var key := t[1..n + 1];
        (if key in reps then reps[key] else t[..n + 2]) + Substitute(t[n + 2..], reps)
      else [t[0]] + Substitute(t[1..], reps)
  }

  /** `format`: the template as it is when no replacements are given. */
  function Format(template: string, reps: Option<map<string, string>>): (r: string)
    ensures reps.None? ==> r == template
  {
    match reps
    case None => template
    case Some(m) => Substitute(template, m)
  }

  lemma OtherChar(t: string, reps: map<string, string>)
    requires t != [] && t[0] != '{'
    ensures Substitute(t, reps) == [t[0]] + Substitute(t[1..], reps)
  {
  }

  /** Text without an opening brace is copied as it is. */
  lemma {:induction false} PlainKept(a: string, b: string, reps: map<string, string>)
    requires '{' !in a
    ensures Substitute(a + b, reps) == a + Substitute(b, reps)
    decreases |a|
  {
    if a != [] {
      PlainKept(a[1..], b, reps);
      assert (a + b)[0] == a[0] && (a + b)[1..] == a[1..] + b;
      OtherChar(a + b, reps);
      calc {
        Substitute(a + b, reps);
        [a[0]] + Substitute(a[1..] + b, reps);
        [a[0]] + (a[1..] + Substitute(b, reps));
        { assert a == [a[0]] + a[1..]; }
        a + Substitute(b, reps);
      }
    } else {
      assert a + b == b;
    }
  }

  lemma WordRunOf(k: string, b: string)
    requires IsWord(k)
    ensures WordRun(k + "}" + b) == |k|
    decreases |k|
  {
    if |k| > 1 {
      WordRunOf(k[1..], b);
      assert (k + "}" + b)[1..] == k[1..] + "}" + b;
    }
  }

  /** A placeholder becomes its replacement, or stays literally when it
      has none; the inserted text is not scanned again. */
  lemma Placeholder(k: string, b: string, reps: map<string, string>)
    requires IsWord(k)
    ensures Substitute("{" + k + "}" + b, reps) == (if k in reps then reps[k] else "{" + k + "}") + Substitute(b, reps)
  {
    var t := "{" + k + "}" + b;
    assert t[1..] == k + "}" + b;
    WordRunOf(k, b);
    assert t[|k| + 1] == '}';
    AtPlaceholder(t, |k|, reps);
    assert t[1..|k| + 1] == k;
    assert t[..|k| + 2] == "{" + k + "}";
    assert t[|k| + 2..] == b;
  }

  lemma AtPlaceholder(t: string, n: nat, reps: map<string, string>)
    requires t != [] && t[0] == '{' && WordRun(t[1..]) == n && n > 0 && n + 1 < |t| && t[n + 1] == '}'
    ensures Substitute(t, reps) == (if t[1..n + 1] in reps then reps[t[1..n + 1]] else t[..n + 2]) + Substitute(t[n + 2..], reps)
  {
  }

  /** With an empty set of replacements every placeholder stays literally:
      the text comes back unchanged. */
  lemma {:induction false} NoReplacements(t: string)
    ensures Substitute(t, map[]) == t
    decreases |t|
  {
    if t != [] {
      var n := WordRun(t[1..]);
      if t[0] == '{' && n > 0 && n + 1 < |t| && t[n + 1] == '}' {
        NoReplacements(t[n + 2..]);
        assert t == t[..n + 2] + t[n + 2..];
      } else {
        NoReplacements(t[1..]);
        assert t == [t[0]] + t[1..];
      }
    }
  }

  // ------------------------------------------------------ translations

  /** The table of a language. */
  function Dictionary(lang: Language, es: map<string, string>, pt: map<string, string>): map<string, string> {
    match lang
    case Es => es
    case Pt => pt
  }

  /** The template `t` uses: the chosen language's, else the Spanish one,
      else the key itself. */
  function Template(lang: Language, key: string, es: map<string, string>, pt: map<string, string>): (r: string)
    ensures key in Dictionary(lang, es, pt) ==> r == Dictionary(lang, es, pt)[key]
    ensures key !in Dictionary(lang, es, pt) && key !in es ==> r == key
  {
    var d := Dictionary(lang, es, pt);
    if key in d then d[key] else if key in es then es[key] else key
  }

  /** `t`: the template, with the replacements substituted. */
  function Translate(lang: Language, key: string, reps: Option<map<string, string>>,
                     es: map<string, string>, pt: map<string, string>): string {
    Format(Template(lang, key, es, pt), reps)
  }

  /** A key missing from the Portuguese table reads as in Spanish. */
  lemma PortugueseFallsBack(key: string, reps: Option<map<string, string>>, es: map<string, string>, pt: map<string, string>)
    requires key !in pt
    ensures Translate(Pt, key, reps, es, pt) == Translate(Es, key, reps, es, pt)
  {
  }

  /** A key in neither table shows as itself when nothing is substituted. */
  lemma UnknownKeyShown(lang: Language, key: string, es: map<string, string>, pt: map<string, string>)
    requires key !in es && key !in pt
    ensures Translate(lang, key, None, es, pt) == key
    ensures Translate(lang, key, Some(map[]), es, pt) == key
  {
    NoReplacements(key);
  }

  // --------------------------------------------------------- topology

  const SERIE := "serie"
  const PARALELO := "paralelo"
  const SERIE_KEY := "topology.serie"
  const PARALELO_KEY := "topology.paralelo"

  /** `translateTopology`: the two known topologies through `t`, any other
      value unchanged. */
  function TranslateTopology(topology: string, t: string -> string): (r: string)
    ensures topology == SERIE ==> r == t(SERIE_KEY)
    ensures topology == PARALELO ==> r == t(PARALELO_KEY)
    ensures topology != SERIE && topology != PARALELO ==> r == topology
  {
    if topology == SERIE then t(SERIE_KEY)
    else if topology == PARALELO then t(PARALELO_KEY)
    else topology
  }

  /** The tables' entries for the topologies: "serie" and "paralelo" in
      Spanish, "série" and "paralelo" in Portuguese. */
  predicate TopologyEntries(es: map<string, string>, pt: map<string, string>) {
    SERIE_KEY in es && es[SERIE_KEY] == SERIE && PARALELO_KEY in es && es[PARALELO_KEY] == PARALELO
    && SERIE_KEY in pt && pt[SERIE_KEY] == "série" && PARALELO_KEY in pt && pt[PARALELO_KEY] == PARALELO
  }

  /** In Spanish the topology names show as they are stored; in Portuguese
      only "serie" changes. */
  lemma TopologyNames(topology: string, es: map<string, string>, pt: map<string, string>)
    requires TopologyEntries(es, pt)
    ensures TranslateTopology(topology, k => Translate(Es, k, None, es, pt)) == topology
    ensures TranslateTopology(topology, k => Translate(Pt, k, None, es, pt))
            == if topology == SERIE then "série" else topology
  {
  }

  // --------------------------------------------------- stored language

  const STORAGE_KEY := "dc-lang"

  /** The language at start-up: Portuguese only when the browser's storage
      holds exactly "pt"; Spanish otherwise, and outside a browser. */
  function StoredLanguage(hasWindow: bool, stored: Option<string>): (lang: Language)
    ensures lang == Pt <==> hasWindow && stored == Some("pt")
  {
    if !hasWindow then Es
    else if stored == Some("pt") then Pt else Es
  }
}
