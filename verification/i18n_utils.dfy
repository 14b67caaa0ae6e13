/**
 * The console site's internationalisation helpers: which language a URL
 * path selects, translation lookup with fallback to the default language,
 * the language prefix of a path, and the per-language page collections,
 * each sorted by its pages' `sortOrder`.
 *
 * The translation table `ui`, `defaultLang` and `showDefaultLang` are
 * configuration defined elsewhere; they are parameters here.
 */
module I18n {
  import opened Wrappers
  import opened Strings

  /** The translation table: language -> key -> text. */
  type Ui = map<string, map<string, string>>

  /** Property names every plain JavaScript object inherits from
      `Object.prototype`; the `in` operator reports them as present. */
  const OBJECT_PROTOTYPE_NAMES: set<string> := {
    "constructor", "hasOwnProperty", "isPrototypeOf", "propertyIsEnumerable",
    "toLocaleString", "toString", "valueOf", "__proto__",
    "__defineGetter__", "__defineSetter__", "__lookupGetter__", "__lookupSetter__"
  }

  /** JavaScript's `key in ui` on a plain object literal: own keys and inherited ones. */
  predicate JsIn(key: string, ui: Ui)
  {
    key in ui || key in OBJECT_PROTOTYPE_NAMES
  }

  // ---------------------------------------------------------------------------
  // getLangFromUrl

  /** `getLangFromUrl` as written: the second `/`-piece of the pathname when
      `in ui` accepts it, else the default. `None` is `undefined`, the value of
      the destructured piece when the pathname has no `/`; `in` then probes the
      key "undefined". */
  function GetLangFromUrlAsWritten(pathname: string, ui: Ui, defaultLang: string): (lang: Option<string>)
    requires defaultLang in ui
    ensures lang.Some? && lang.value !in ui ==> lang.value in OBJECT_PROTOTYPE_NAMES
  {
    var parts := Split(pathname, '/');
    var lang := if |parts| >= 2 then Some(parts[1]) else None;
    var probe := if lang.Some? then lang.value else "undefined";
    if JsIn(probe, ui) then lang else Some(defaultLang)
  }

  /** A path whose first piece is an inherited property name, such as
      `/toString`, escapes the table: `getLangFromUrl` returns a "language"
      that `ui` does not have. */
  lemma PrototypeNameEscapesUi(ui: Ui, defaultLang: string, name: string)
    requires defaultLang in ui && name in OBJECT_PROTOTYPE_NAMES && name !in ui && '/' !in name
    ensures GetLangFromUrlAsWritten("/" + name, ui, defaultLang) == Some(name)
  {
    assert Split("/" + name, '/') == ["", name] by {
      SplitJoin(["", name], '/');
      JoinCons(["", name], '/');
    }
  }

  /** `getLangFromUrl` as intended: only the table's own languages are accepted,
      so the result is always a language of `ui`. */
  function GetLangFromUrl(pathname: string, ui: Ui, defaultLang: string): (lang: string)
    requires defaultLang in ui
    ensures lang in ui
    ensures lang != defaultLang ==> |Split(pathname, '/')| >= 2 && lang == Split(pathname, '/')[1]
  {
    var parts := Split(pathname, '/');
    if |parts| >= 2 && parts[1] in ui then parts[1] else defaultLang
  }

  /** The two agree whenever the probed piece is not an inherited property name. */
  lemma AsWrittenAgreesOffPrototype(pathname: string, ui: Ui, defaultLang: string)
    requires defaultLang in ui
    requires |Split(pathname, '/')| >= 2 && Split(pathname, '/')[1] !in OBJECT_PROTOTYPE_NAMES
    ensures GetLangFromUrlAsWritten(pathname, ui, defaultLang) == Some(GetLangFromUrl(pathname, ui, defaultLang))
  {
  }

  /** The language is read from the first segment of `/<lang>/...` or `/<lang>`. */
  lemma LangFromLeadingSegment(lang: string, rest: string, ui: Ui, defaultLang: string)
    requires defaultLang in ui
    requires '/' !in lang
    ensures GetLangFromUrl("/" + lang + "/" + rest, ui, defaultLang) == (if lang in ui then lang else defaultLang)
    ensures GetLangFromUrl("/" + lang, ui, defaultLang) == (if lang in ui then lang else defaultLang)
  {
    var parts := ["", lang];
    assert Join(parts, '/') == "/" + lang;
    SplitJoinThen(parts, '/', rest);
    SplitJoin(parts, '/');
  }

  // ---------------------------------------------------------------------------
  // useTranslations / t

  /** `t(key)` for the language `lang`: its own text when that is truthy
      (a non-empty string), else the default language's text. */
  function Translate(ui: Ui, defaultLang: string, lang: string, key: string): (text: string)
    requires lang in ui && defaultLang in ui && key in ui[defaultLang]
    ensures key in ui[lang] && ui[lang][key] != "" ==> text == ui[lang][key]
    ensures !(key in ui[lang] && ui[lang][key] != "") ==> text == ui[defaultLang][key]
  {
    if key in ui[lang] && ui[lang][key] != "" then ui[lang][key] else ui[defaultLang][key]
  }

  /** For the default language the fallback never changes anything; and a
      translation is empty only when both candidates are. */
  lemma TranslateProperties(ui: Ui, defaultLang: string, lang: string, key: string)
    requires lang in ui && defaultLang in ui && key in ui[defaultLang]
    ensures Translate(ui, defaultLang, defaultLang, key) == ui[defaultLang][key]
    ensures Translate(ui, defaultLang, lang, key) == "" <==>
      (key !in ui[lang] || ui[lang][key] == "") && ui[defaultLang][key] == ""
  {
  }

  // ---------------------------------------------------------------------------
  // useTranslatedPath / translatePath

  /** `translatePath(path, l)` of `useTranslatedPath(lang)`; `l` defaults to `lang`. */
  function TranslatePath(showDefaultLang: bool, defaultLang: string, lang: string, path: string, l: Option<string>): (translated: string)
  {
    var target := if l.Some? then l.value else lang;
    if !showDefaultLang && target == defaultLang then path else "/" + target + path
  }

  /** The path is left alone exactly when the default language is hidden and
      targeted; every other path gains the `/<l>` prefix. */
  lemma TranslatePathPrefixRule(showDefaultLang: bool, defaultLang: string, lang: string, path: string, l: Option<string>)
    ensures var target := if l.Some? then l.value else lang;
      && (TranslatePath(showDefaultLang, defaultLang, lang, path, l) == path <==> !showDefaultLang && target == defaultLang)
      && (showDefaultLang || target != defaultLang ==> TranslatePath(showDefaultLang, defaultLang, lang, path, l) == "/" + target + path)
  {
    var target := if l.Some? then l.value else lang;
    if showDefaultLang || target != defaultLang {
      assert |"/" + target + path| > |path|;
    }
  }

  /** A prefixed path is read back as its language: `getLangFromUrl` inverts
      `translatePath` for every language of the table whose name has no `/`,
      on paths that are empty or begin with `/`. */
  lemma TranslatedPathRoundTrip(ui: Ui, showDefaultLang: bool, defaultLang: string, target: string, path: string)
    requires defaultLang in ui && target in ui && '/' !in target
    requires showDefaultLang || target != defaultLang
    requires path == "" || path[0] == '/'
    ensures GetLangFromUrl(TranslatePath(showDefaultLang, defaultLang, target, path, None), ui, defaultLang) == target
  {
    if path == "" {
      LangFromLeadingSegment(target, "", ui, defaultLang);
      assert "/" + target + path == "/" + target;
    } else {
      LangFromLeadingSegment(target, path[1..], ui, defaultLang);
      assert "/" + target + path == "/" + target + "/" + path[1..];
    }
  }

  // ---------------------------------------------------------------------------
  // getLangCollection

  /** A content page: its id (`<lang>/<slug...>.<ext>`), its `data.sortOrder`,
      and the `slug` that `getLangCollection` assigns in place. */
  class Page {
    const id: string
    const sortOrder: int
    var slug: Option<string>

    constructor (id: string, sortOrder: int, slug: Option<string>)
      ensures this.id == id && this.sortOrder == sortOrder && this.slug == slug
    {
      this.id := id;
      this.sortOrder := sortOrder;
      this.slug := slug;
    }
  }

  /** `id.substring(0, id.lastIndexOf("."))`: everything before the last dot.
      Without a dot `lastIndexOf` gives -1, which `substring` clamps to 0. */
  function StemOf(id: string): (stem: string)
    ensures '.' in id ==> |stem| < |id| && id == stem + "." + id[|stem| + 1..] && '.' !in id[|stem| + 1..]
    ensures '.' !in id ==> stem == ""
  {
    var dot := LastIndexOf(id, '.');
    if dot < 0 then ""
    else
      assert id == id[..dot] + "." + id[dot + 1..];
      id[..dot]
  }

  /** The `/`-pieces of a page id's stem. */
  function IdPieces(id: string): (pieces: seq<string>)
    ensures |pieces| >= 1
  {
    Split(StemOf(id), '/')
  }

  /** The language of a page: the first piece. */
  function LangOf(id: string): string
  {
    IdPieces(id)[0]
  }

  /** `slug.join("/") || undefined`: the remaining pieces, `None` when they join
      to the empty string. */
  function SlugOf(id: string): Option<string>
  {
    var joined := Join(IdPieces(id)[1..], '/');
    if joined == "" then None else Some(joined)
  }

  /** The language and the slug put back together give the stem again. */
  lemma {:induction false} IdRecomposes(id: string)
    ensures '/' !in LangOf(id)
    ensures SlugOf(id).Some? ==> StemOf(id) == LangOf(id) + "/" + SlugOf(id).value
    ensures SlugOf(id).None? ==> StemOf(id) == LangOf(id) || StemOf(id) == LangOf(id) + "/"
  {
    var pieces := IdPieces(id);
    JoinSplit(StemOf(id), '/');
    SplitPieces(StemOf(id), '/');
    if |pieces| >= 2 {
      JoinCons(pieces, '/');
    }
  }

  /** Parsing inverts building an id from a language, a non-empty slug and an
      extension without dots. */
  lemma ParseBuiltId(lang: string, slug: string, ext: string)
    requires '/' !in lang && '.' !in ext && '.' !in lang + "/" + slug
    ensures StemOf(lang + "/" + slug + "." + ext) == lang + "/" + slug
    ensures LangOf(lang + "/" + slug + "." + ext) == lang
    ensures slug != "" ==> SlugOf(lang + "/" + slug + "." + ext) == Some(slug)
    ensures slug == "" ==> SlugOf(lang + "/" + slug + "." + ext) == None
  {
    var stem := lang + "/" + slug;
    var id := stem + "." + ext;
    assert id[|stem|] == '.';
    assert '.' in id;
    var dot := LastIndexOf(id, '.');
    assert id[|stem| + 1..] == ext;
    assert StemOf(id) == stem;
    SplitAround(lang, '/', slug);
    SplitWithoutSep(lang, '/');
    assert IdPieces(id) == [lang] + Split(slug, '/');
    assert IdPieces(id)[1..] == Split(slug, '/');
    JoinSplit(slug, '/');
  }

  /** A page paired with the language read from its id: the `map` step's result. */
  datatype LangPage = LangPage(lang: string, page: Page)

  /** The `map` step's pairs, one per page, in order. */
  function Tagged(pages: seq<Page>): (lps: seq<LangPage>)
    ensures |lps| == |pages|
    ensures forall i :: 0 <= i < |pages| ==> lps[i] == LangPage(LangOf(pages[i].id), pages[i])
  {
    seq(|pages|, i requires 0 <= i < |pages| => LangPage(LangOf(pages[i].id), pages[i]))
  }

  /** A pair is in the `map` step's result exactly when its page is one of the
      pages and its language is that page's. */
  lemma TaggedMembers(pages: seq<Page>, lang: string, p: Page)
    ensures LangPage(lang, p) in Tagged(pages) <==> p in pages && LangOf(p.id) == lang
  {
    var lps := Tagged(pages);
    if p in pages {
      var i :| 0 <= i < |pages| && pages[i] == p;
      assert lps[i] == LangPage(LangOf(p.id), p);
    }
  }

  /** The pages of the pairs whose language is `lang`, in order. */
  function FilterLang(lps: seq<LangPage>, lang: string): seq<Page>
    decreases |lps|
  {
    if lps == [] then []
    else
      var last := lps[|lps| - 1];
      FilterLang(lps[..|lps| - 1], lang) + (if last.lang == lang then [last.page] else [])
  }

  /** The languages that occur among the pairs. */
  function Langs(lps: seq<LangPage>): set<string>
  {
    set i | 0 <= i < |lps| :: lps[i].lang
  }

  /** The `reduce` step: each page appended to its language's list, in order. */
  function Grouped(lps: seq<LangPage>): map<string, seq<Page>>
    decreases |lps|
  {
    if lps == [] then map[]
    else
      var m := Grouped(lps[..|lps| - 1]);
      var lp := lps[|lps| - 1];
      if lp.lang in m then m[lp.lang := m[lp.lang] + [lp.page]] else m[lp.lang := [lp.page]]
  }

  /** The languages of a non-empty list are those of its prefix and of its last pair. */
  lemma LangsSnoc(lps: seq<LangPage>)
    requires lps != []
    ensures Langs(lps) == Langs(lps[..|lps| - 1]) + {lps[|lps| - 1].lang}
  {
    var init := lps[..|lps| - 1];
    forall l | l in Langs(lps) ensures l in Langs(init) + {lps[|lps| - 1].lang} {
      var i :| 0 <= i < |lps| && lps[i].lang == l;
      if i < |lps| - 1 { assert init[i] == lps[i]; }
    }
    forall l | l in Langs(init) ensures l in Langs(lps) {
      var i :| 0 <= i < |init| && init[i].lang == l;
      assert lps[i] == init[i];
    }
  }

  /** Grouping is a partition by language: one non-empty list per occurring
      language, holding exactly that language's pages in their original order. */
  lemma {:induction false} GroupedIsPartition(lps: seq<LangPage>)
    ensures Grouped(lps).Keys == Langs(lps)
    ensures forall lang :: lang in Grouped(lps) ==>
      Grouped(lps)[lang] == FilterLang(lps, lang) && Grouped(lps)[lang] != []
    decreases |lps|
  {
    if lps != [] {
      var init := lps[..|lps| - 1];
      var lp := lps[|lps| - 1];
      var m := Grouped(init);
      GroupedIsPartition(init);
      LangsSnoc(lps);
      var m' := Grouped(lps);
      forall lang | lang in m'
        ensures m'[lang] == FilterLang(lps, lang) && m'[lang] != []
      {
        if lang == lp.lang {
          if lang !in m {
            FilterLangAbsent(init, lang);
          }
        } else {
          assert m'[lang] == m[lang];
        }
      }
    }
  }

  /** A language that does not occur filters to nothing. */
  lemma {:induction false} FilterLangAbsent(lps: seq<LangPage>, lang: string)
    requires lang !in Langs(lps)
    ensures FilterLang(lps, lang) == []
    decreases |lps|
  {
    if lps != [] {
      LangsSnoc(lps);
      FilterLangAbsent(lps[..|lps| - 1], lang);
    }
  }

  /** A language's list holds exactly the pages paired with that language, each
      as often as it is paired with it. */
  lemma {:induction false} FilterLangMembers(lps: seq<LangPage>, lang: string)
    ensures forall p: Page :: p in FilterLang(lps, lang) <==> LangPage(lang, p) in lps
    ensures forall p: Page :: multiset(FilterLang(lps, lang))[p] == multiset(lps)[LangPage(lang, p)]
    decreases |lps|
  {
    if lps != [] {
      var init := lps[..|lps| - 1];
      var last := lps[|lps| - 1];
      FilterLangMembers(init, lang);
      assert lps == init + [last];
      assert multiset(lps) == multiset(init) + multiset{last};
    }
  }

  /** The summed length of the lists of a language map. */
  ghost function TotalLength(m: map<string, seq<Page>>): nat
  {
    SumOver(m, m.Keys)
  }

  /** The summed length of the lists under `keys`. */
  ghost function SumOver(m: map<string, seq<Page>>, keys: set<string>): nat
    requires keys <= m.Keys
    decreases |keys|
  {
    if keys == {} then 0
    else
      var k := Pick(keys);
      |m[k]| + SumOver(m, keys - {k})
  }

  /** Some element of a non-empty set. */
  ghost function Pick(keys: set<string>): (k: string)
    requires keys != {}
    ensures k in keys
  {
    var k :| k in keys; k
  }

  /** Any key may be taken out first. */
  lemma {:induction false} SumOverRemove(m: map<string, seq<Page>>, keys: set<string>, k: string)
    requires keys <= m.Keys && k in keys
    ensures SumOver(m, keys) == |m[k]| + SumOver(m, keys - {k})
    decreases |keys|
  {
    var k' := Pick(keys);
    if k' != k {
      var rest, rest' := keys - {k}, keys - {k'};
      assert k in rest' && k' in rest;
      SumOverRemove(m, rest', k);
      SumOverRemove(m, rest, k');
      assert rest' - {k} == rest - {k'};
    }
  }

  /** Maps whose lists under `keys` have equal lengths have equal sums there. */
  lemma {:induction false} SumOverAgree(m1: map<string, seq<Page>>, m2: map<string, seq<Page>>, keys: set<string>)
    requires keys <= m1.Keys && keys <= m2.Keys
    requires forall k :: k in keys ==> |m1[k]| == |m2[k]|
    ensures SumOver(m1, keys) == SumOver(m2, keys)
    decreases |keys|
  {
    if keys != {} {
      var k := Pick(keys);
      SumOverAgree(m1, m2, keys - {k});
    }
  }

  /** Grouping keeps every page: the lists together are as long as the input. */
  lemma {:induction false} GroupedKeepsCount(lps: seq<LangPage>)
    ensures TotalLength(Grouped(lps)) == |lps|
    decreases |lps|
  {
    if lps != [] {
      var init := lps[..|lps| - 1];
      var m := Grouped(init);
      var lang := lps[|lps| - 1].lang;
      GroupedKeepsCount(init);
      var m' := Grouped(lps);
      var others := m.Keys - {lang};
      assert m'.Keys == m.Keys + {lang};
      SumOverRemove(m', m'.Keys, lang);
      assert m'.Keys - {lang} == others;
      SumOverAgree(m', m, others);
      if lang in m {
        assert |m'[lang]| == |m[lang]| + 1;
        SumOverRemove(m, m.Keys, lang);
      } else {
        assert |m'[lang]| == 1;
        assert others == m.Keys;
      }
    }
  }

  /** Non-decreasing by `sortOrder`. */
  predicate SortedByOrder(s: seq<Page>)
  {
    forall i, j :: 0 <= i < j < |s| ==> s[i].sortOrder <= s[j].sortOrder
  }

  /** Place `p` after every page of the sorted `s` whose `sortOrder` is at most its own. */
  function InsertByOrder(p: Page, s: seq<Page>): (r: seq<Page>)
    ensures |r| == |s| + 1
    decreases |s|
  {
    if s == [] then [p]
    else if p.sortOrder < s[0].sortOrder then [p] + s
    else [s[0]] + InsertByOrder(p, s[1..])
  }

  /** Inserting adds exactly the one page. */
  lemma {:induction false} InsertByOrderPerm(p: Page, s: seq<Page>)
    ensures multiset(InsertByOrder(p, s)) == multiset(s) + multiset{p}
    decreases |s|
  {
    if s != [] && p.sortOrder >= s[0].sortOrder {
      InsertByOrderPerm(p, s[1..]);
      assert s == [s[0]] + s[1..];
    }
  }

  /** Inserting into a sorted list keeps it sorted. */
  lemma {:induction false} InsertSorted(p: Page, s: seq<Page>)
    requires SortedByOrder(s)
    ensures SortedByOrder(InsertByOrder(p, s))
  {
    SortedOrderedPairs(s);
    InsertOrderedPairs(p, s);
    OrderedPairsSorted(InsertByOrder(p, s));
  }

  /** Inserting keeps adjacent pairs in order. */
  lemma {:induction false} InsertOrderedPairs(p: Page, s: seq<Page>)
    requires OrderedPairs(s)
    ensures OrderedPairs(InsertByOrder(p, s))
    decreases |s|
  {
    if s == [] {
      assert InsertByOrder(p, s) == [p];
    } else if p.sortOrder < s[0].sortOrder {
      assert ([p] + s)[1..] == s;
    } else {
      var t := s[1..];
      var r' := InsertByOrder(p, t);
      InsertOrderedPairs(p, t);
      assert r'[0] == p || r'[0] == t[0];
      assert ([s[0]] + r')[1..] == r';
    }
  }

  /** The stable sort `value.sort((a, b) => a.data.sortOrder - b.data.sortOrder)`,
      as an insertion sort. */
  function SortByOrder(s: seq<Page>): (r: seq<Page>)
    ensures |r| == |s|
    decreases |s|
  {
    if s == [] then []
    else InsertByOrder(s[|s| - 1], SortByOrder(s[..|s| - 1]))
  }

  /** The sort is a permutation. */
  lemma {:induction false} SortByOrderPerm(s: seq<Page>)
    ensures multiset(SortByOrder(s)) == multiset(s)
    decreases |s|
  {
    if s != [] {
      SortByOrderPerm(s[..|s| - 1]);
      InsertByOrderPerm(s[|s| - 1], SortByOrder(s[..|s| - 1]));
      assert s == s[..|s| - 1] + [s[|s| - 1]];
    }
  }

  /** The sort's result is sorted. */
  lemma {:induction false} SortSorted(s: seq<Page>)
    ensures SortedByOrder(SortByOrder(s))
    decreases |s|
  {
    if s != [] {
      SortSorted(s[..|s| - 1]);
      InsertSorted(s[|s| - 1], SortByOrder(s[..|s| - 1]));
    }
  }

  /** The pages of `s` with `sortOrder == k`, in order. */
  function WithOrder(s: seq<Page>, k: int): seq<Page>
    decreases |s|
  {
    if s == [] then [] else (if s[0].sortOrder == k then [s[0]] else []) + WithOrder(s[1..], k)
  }

  /** Picking the pages of one order distributes over concatenation. */
  lemma {:induction false} WithOrderAppend(a: seq<Page>, b: seq<Page>, k: int)
    ensures WithOrder(a + b, k) == WithOrder(a, k) + WithOrder(b, k)
    decreases |a|
  {
    if a == [] {
      assert a + b == b;
    } else {
      var hd: seq<Page> := if a[0].sortOrder == k then [a[0]] else [];
      WithOrderAppend(a[1..], b, k);
      assert a == [a[0]] + a[1..];
      WithOrderCons(a[0], a[1..], k);
      assert a + b == [a[0]] + (a[1..] + b);
      WithOrderCons(a[0], a[1..] + b, k);
      ConcatAssoc(hd, WithOrder(a[1..], k), WithOrder(b, k));
    }
  }

  /** A list whose orders all exceed `k` has no page of order `k`. */
  lemma {:induction false} WithOrderAbove(s: seq<Page>, k: int)
    requires forall i :: 0 <= i < |s| ==> s[i].sortOrder > k
    ensures WithOrder(s, k) == []
    decreases |s|
  {
    if s != [] { WithOrderAbove(s[1..], k); }
  }

  /** Sortedness stated pair by adjacent pair, for the stability proof. */
  predicate OrderedPairs(s: seq<Page>)
    decreases |s|
  {
    |s| < 2 || (s[0].sortOrder <= s[1].sortOrder && OrderedPairs(s[1..]))
  }

  /** Sortedness gives adjacent-pair sortedness. */
  lemma {:induction false} SortedOrderedPairs(s: seq<Page>)
    requires SortedByOrder(s)
    ensures OrderedPairs(s)
    decreases |s|
  {
    if |s| >= 2 {
      SortedTail(s);
      SortedOrderedPairs(s[1..]);
    }
  }

  /** Adjacent-pair sortedness gives sortedness. */
  lemma {:induction false} OrderedPairsSorted(s: seq<Page>)
    requires OrderedPairs(s)
    ensures SortedByOrder(s)
    decreases |s|
  {
    if |s| >= 2 {
      OrderedPairsSorted(s[1..]);
      OrderedPairsFirstLeast(s);
      forall i, j | 0 <= i < j < |s| ensures s[i].sortOrder <= s[j].sortOrder {
        if i > 0 {
          assert s[i] == s[1..][i - 1] && s[j] == s[1..][j - 1];
        }
      }
    }
  }

  /** The head of an adjacent-pair-sorted list has the least order. */
  lemma {:induction false} OrderedPairsFirstLeast(s: seq<Page>)
    requires OrderedPairs(s) && s != []
    ensures forall i :: 0 <= i < |s| ==> s[0].sortOrder <= s[i].sortOrder
    decreases |s|
  {
    if |s| >= 2 {
      OrderedPairsFirstLeast(s[1..]);
      forall i | 1 <= i < |s| ensures s[0].sortOrder <= s[i].sortOrder {
        assert s[i] == s[1..][i - 1];
      }
    }
  }

  /** Inserting a page appends it to the pages of its order and leaves the others alone. */
  lemma {:induction false} InsertStable(p: Page, s: seq<Page>, k: int)
    requires OrderedPairs(s)
    ensures WithOrder(InsertByOrder(p, s), k) == WithOrder(s, k) + (if p.sortOrder == k then [p] else [])
    decreases |s|
  {
    if s == [] {
      assert InsertByOrder(p, s) == [p];
    } else if p.sortOrder < s[0].sortOrder {
      OrderedPairsFirstLeast(s);
      InsertStableFront(p, s, k);
    } else {
      var t := s[1..];
      var r' := InsertByOrder(p, t);
      InsertStable(p, t, k);
      var hd: seq<Page> := if s[0].sortOrder == k then [s[0]] else [];
      var tl: seq<Page> := if p.sortOrder == k then [p] else [];
      assert WithOrder(r', k) == WithOrder(t, k) + tl;
      WithOrderCons(s[0], r', k);
      WithOrderCons(s[0], t, k);
      assert [s[0]] + t == s;
      assert InsertByOrder(p, s) == [s[0]] + r';
      assert WithOrder([s[0]] + r', k) == hd + (WithOrder(t, k) + tl);
      assert WithOrder(s, k) == hd + WithOrder(t, k);
      ConcatAssoc(hd, WithOrder(t, k), tl);
    }
  }

  /** Concatenation regroups. */
  lemma ConcatAssoc(a: seq<Page>, b: seq<Page>, c: seq<Page>)
    ensures a + (b + c) == (a + b) + c
  {
  }

  /** Picking the pages of one order from a list with a given head. */
  lemma WithOrderCons(x: Page, s: seq<Page>, k: int)
    ensures WithOrder([x] + s, k) == (if x.sortOrder == k then [x] else []) + WithOrder(s, k)
  {
    assert ([x] + s)[0] == x && ([x] + s)[1..] == s;
  }

  /** The tail of a sorted list is sorted. */
  lemma SortedTail(s: seq<Page>)
    requires s != [] && SortedByOrder(s)
    ensures SortedByOrder(s[1..])
  {
    forall i, j | 0 <= i < j < |s[1..]| ensures s[1..][i].sortOrder <= s[1..][j].sortOrder {
      assert s[1..][i] == s[i + 1] && s[1..][j] == s[j + 1];
    }
  }

  /** Inserting a page of smaller order than all others puts it first. */
  lemma InsertStableFront(p: Page, s: seq<Page>, k: int)
    requires s != [] && forall i :: 0 <= i < |s| ==> p.sortOrder < s[i].sortOrder
    ensures WithOrder(InsertByOrder(p, s), k) == WithOrder(s, k) + (if p.sortOrder == k then [p] else [])
  {
    assert InsertByOrder(p, s) == [p] + s;
    WithOrderCons(p, s, k);
    if p.sortOrder == k {
      WithOrderAbove(s, k);
    }
  }

  /** The sort's result is sorted pair by adjacent pair. */
  lemma SortOrderedPairs(s: seq<Page>)
    ensures OrderedPairs(SortByOrder(s))
  {
    SortSorted(s);
    SortedOrderedPairs(SortByOrder(s));
  }

  /** The sort is stable: pages with equal `sortOrder` keep their relative order. */
  lemma {:induction false} SortStable(s: seq<Page>, k: int)
    ensures WithOrder(SortByOrder(s), k) == WithOrder(s, k)
    decreases |s|
  {
    if s != [] {
      var init, last := s[..|s| - 1], s[|s| - 1];
      var sorted := SortByOrder(init);
      var tl: seq<Page> := if last.sortOrder == k then [last] else [];
      assert SortByOrder(s) == InsertByOrder(last, sorted);
      SortStable(init, k);
      SortOrderedPairs(init);
      InsertStable(last, sorted, k);
      assert s == init + [last];
      WithOrderAppend(init, [last], k);
      WithOrderCons(last, [], k);
      assert [last] + [] == [last];
      assert WithOrder([last], k) == tl;
    }
  }

  /** The pairs of a prefix grow one page at a time. */
  lemma TaggedSnoc(pages: seq<Page>, i: nat)
    requires i < |pages|
    ensures Tagged(pages[..i + 1]) == Tagged(pages[..i]) + [LangPage(LangOf(pages[i].id), pages[i])]
  {
  }

  /** The `map` step: each page's `slug` is set in place from its id, and the
      page is paired with its language. */
  method TagPages(pages: seq<Page>) returns (langPages: seq<LangPage>)
    modifies set p | p in pages
    ensures langPages == Tagged(pages)
    ensures forall p :: p in pages ==> p.slug == SlugOf(p.id)
  {
    langPages := [];
    var i := 0;
    while i < |pages|
      invariant 0 <= i <= |pages|
      invariant langPages == Tagged(pages[..i])
      invariant forall j :: 0 <= j < i ==> pages[j].slug == SlugOf(pages[j].id)
    {
      var page := pages[i];
      var lang := LangOf(page.id);
      page.slug := SlugOf(page.id);
      TaggedSnoc(pages, i);
      langPages := langPages + [LangPage(lang, page)];
      i := i + 1;
    }
    assert pages[..i] == pages;
  }

  /** The `reduce` into the accumulator object `lpMap`. */
  method GroupByLang(langPages: seq<LangPage>) returns (lpMap: map<string, seq<Page>>)
    ensures lpMap == Grouped(langPages)
  {
    lpMap := map[];
    var i := 0;
    while i < |langPages|
      invariant 0 <= i <= |langPages|
      invariant lpMap == Grouped(langPages[..i])
    {
      var langPage := langPages[i];
      assert langPages[..i + 1][..i] == langPages[..i];
      if langPage.lang in lpMap {
        lpMap := lpMap[langPage.lang := lpMap[langPage.lang] + [langPage.page]];
      } else {
        lpMap := lpMap[langPage.lang := [langPage.page]];
      }
      i := i + 1;
    }
    assert langPages[..|langPages|] == langPages;
  }

  /** The `for` loop over `Object.entries(langPagesMap)` that stores each list sorted. */
  method SortGroups(langPagesMap: map<string, seq<Page>>) returns (sorted: map<string, seq<Page>>)
    ensures sorted.Keys == langPagesMap.Keys
    ensures forall lang :: lang in sorted ==>
      SortedByOrder(sorted[lang]) && multiset(sorted[lang]) == multiset(langPagesMap[lang])
    ensures forall lang :: lang in sorted ==> sorted[lang] == SortByOrder(langPagesMap[lang])
  {
    sorted := map[];
    var todo := langPagesMap.Keys;
    while todo != {}
      invariant todo <= langPagesMap.Keys
      invariant sorted.Keys == langPagesMap.Keys - todo
      invariant forall lang :: lang in sorted ==> sorted[lang] == SortByOrder(langPagesMap[lang])
      decreases |todo|
    {
      var key :| key in todo;
      sorted := sorted[key := SortByOrder(langPagesMap[key])];
      todo := todo - {key};
    }
    forall lang | lang in sorted
      ensures SortedByOrder(sorted[lang]) && multiset(sorted[lang]) == multiset(langPagesMap[lang])
    {
      SortSorted(langPagesMap[lang]);
      SortByOrderPerm(langPagesMap[lang]);
    }
  }

  /** `getLangCollection` over the fetched pages: one list per language that
      occurs, holding exactly that language's pages, sorted by `sortOrder`. */
  method GetLangCollection(pages: seq<Page>) returns (collection: map<string, seq<Page>>)
    modifies set p | p in pages
    ensures forall p :: p in pages ==> p.slug == SlugOf(p.id)
    ensures collection.Keys == set p | p in pages :: LangOf(p.id)
    ensures forall lang :: lang in collection ==>
      && collection[lang] == SortByOrder(FilterLang(Tagged(pages), lang))
      && SortedByOrder(collection[lang])
      && multiset(collection[lang]) == multiset(FilterLang(Tagged(pages), lang))
    ensures forall lang :: lang in collection ==>
      forall p: Page :: p in collection[lang] <==> p in pages && LangOf(p.id) == lang
  {
    var langPages := TagPages(pages);
    var langPagesMap := GroupByLang(langPages);
    GroupedIsPartition(langPages);
    collection := SortGroups(langPagesMap);
    TaggedLangs(pages);
    forall lang | lang in collection
      ensures forall p: Page :: p in collection[lang] <==> p in pages && LangOf(p.id) == lang
    {
      SameMembers(pages, lang, collection[lang]);
    }
  }

  /** A permutation of a language's list holds exactly the pages of that language. */
  lemma SameMembers(pages: seq<Page>, lang: string, s: seq<Page>)
    requires multiset(s) == multiset(FilterLang(Tagged(pages), lang))
    ensures forall p: Page :: p in s <==> p in pages && LangOf(p.id) == lang
  {
    FilterLangMembers(Tagged(pages), lang);
    forall p: Page ensures p in s <==> p in pages && LangOf(p.id) == lang {
      TaggedMembers(pages, lang, p);
      assert p in s <==> p in multiset(s);
      assert p in FilterLang(Tagged(pages), lang) <==> p in multiset(FilterLang(Tagged(pages), lang));
    }
  }

  /** The languages of the pairs are the languages of the pages. */
  lemma TaggedLangs(pages: seq<Page>)
    ensures Langs(Tagged(pages)) == set p | p in pages :: LangOf(p.id)
  {
    var lps := Tagged(pages);
    forall l | l in Langs(lps) ensures l in set p | p in pages :: LangOf(p.id) {
      var i :| 0 <= i < |lps| && lps[i].lang == l;
      assert pages[i] in pages;
    }
    forall l | l in (set p | p in pages :: LangOf(p.id)) ensures l in Langs(lps) {
      var p :| p in pages && LangOf(p.id) == l;
      var i :| 0 <= i < |pages| && pages[i] == p;
      assert lps[i].lang == l;
    }
  }
}
