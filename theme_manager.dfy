/**
 * The `ThemeManager` object: a table of themes, a table from page file
 * names to theme keys, and the forwarding of a theme's settings to the
 * line effect and the cursor effect, when those are present on the page.
 */
module Theming {
  import opened Wrappers
  import opened JsString

  /** One entry of the `themes` table. */
  datatype Theme = Theme(name: string, color: string, opacity: real, count: int, cursorColor: string)

  /** A value stored in a collaborator's options object. */
  datatype OptionValue = Text(text: string) | Number(number: real) | Colors(colors: seq<string>)

  /** A collaborator's options object, key by key. */
  type OptionMap = map<string, OptionValue>

  /** The theme applied when a page has no usable entry. */
  const DefaultTheme: string := "hitori"

  /** The page assumed when the path ends in `/` or is empty. */
  const DefaultPage: string := "index.html"

  /** The `themes` table the constructor builds. */
  function InitialThemes(): (themes: map<string, Theme>)
    ensures DefaultTheme in themes
    ensures forall key :: key in themes ==> key != ""
  {
    map[
      "hitori" := Theme("后藤一里", "255,182,193", 0.6, 88, "#FFB6C1"),
      "nijika" := Theme("伊地知虹夏", "255,250,205", 0.7, 92, "#FFFACD"),
      "ryo" := Theme("山田凉", "173,216,230", 0.5, 85, "#ADD8E6"),
      "kita" := Theme("喜多郁代", "255,107,107", 0.65, 95, "#FF6B6B"),
      "band" := Theme("乐队主题", "147,112,219", 0.55, 90, "#9370DB"),
      "music" := Theme("音乐主题", "102,205,170", 0.6, 87, "#66CDAA")
    ]
  }

  /** The `pageThemes` table the constructor builds. */
  function InitialPageThemes(): (pages: map<string, string>)
    ensures DefaultPage in pages && pages[DefaultPage] == DefaultTheme
  {
    map[
      "index.html" := "hitori",
      "about.html" := "nijika",
      "characters.html" := "ryo",
      "music.html" := "kita",
      "production.html" := "band",
      "gallery.html" := "music"
    ]
  }

  /** The last part of `path.split('/')` is the longest end of `path` without a `/`. */
  lemma LastPart(path: string)
    ensures var parts := Split(path, '/'); var last := parts[|parts| - 1];
      && |last| <= |path|
      && last == path[|path| - |last|..]
      && (|last| == |path| || path[|path| - |last| - 1] == '/')
      && (path != [] && path[|path| - 1] != '/' ==> last != [])
  {
    var parts := Split(path, '/');
    var last := parts[|parts| - 1];
    JoinSplit(path, '/');
    if |parts| == 1 {
      assert path == last;
    } else {
      var init := parts[..|parts| - 1];
      assert path == Join(init, '/') + ['/'] + last;
      assert path[|path| - |last|..] == last;
      assert path[|path| - |last| - 1] == '/';
    }
  }

  /**
   * `getCurrentPage()` for the path `path`: `path.split('/').pop() ||
   * 'index.html'`. When the path is empty or ends in `/` the page is
   * `index.html`; otherwise it is the longest end of the path without a `/`.
   */
  function CurrentPage(path: string): (page: string)
    ensures page != [] && '/' !in page
    ensures path == [] || path[|path| - 1] == '/' ==> page == DefaultPage
    ensures path != [] && path[|path| - 1] != '/' ==>
      && |page| <= |path|
      && page == path[|path| - |page|..]
      && (|page| == |path| || path[|path| - |page| - 1] == '/')
  {
    var parts := Split(path, '/');
    var last := parts[|parts| - 1];
    LastPart(path);
    if last == [] then DefaultPage else last
  }

  /**
   * The key `applyPageTheme` ends up applying for `page`: the page's entry
   * when it is a non-empty key of `themes`, the default theme otherwise.
   */
  function ThemeKeyFor(pageThemes: map<string, string>, themes: map<string, Theme>, page: string): (key: string)
    ensures key == DefaultTheme || (page in pageThemes && key == pageThemes[page] && key != "" && key in themes)
  {
    if page in pageThemes && pageThemes[page] != "" && pageThemes[page] in themes then pageThemes[page]
    else DefaultTheme
  }

  /** Every key `ThemeKeyFor` yields names a theme, as long as the default theme is defined. */
  lemma ThemeKeyForIsDefined(pageThemes: map<string, string>, themes: map<string, Theme>, page: string)
    requires DefaultTheme in themes
    ensures ThemeKeyFor(pageThemes, themes, page) in themes
    ensures ThemeKeyFor(pageThemes, themes, page) == DefaultTheme <==>
      !(page in pageThemes && pageThemes[page] != "" && pageThemes[page] in themes) || pageThemes[page] == DefaultTheme
  {
  }

  /** In the initial tables every page names a defined theme, so none of the six pages falls back. */
  lemma InitialPagesNeverFallBack(page: string)
    requires page in InitialPageThemes()
    ensures InitialPageThemes()[page] in InitialThemes()
    ensures ThemeKeyFor(InitialPageThemes(), InitialThemes(), page) == InitialPageThemes()[page]
  {
  }

  /** `setPageTheme(page, key)` with a defined key: later lookups of `page` apply `key`, other pages are unaffected. */
  lemma SetPageThemeIsSeen(pageThemes: map<string, string>, themes: map<string, Theme>, page: string, key: string, other: string)
    requires key != "" && key in themes && other != page
    ensures ThemeKeyFor(pageThemes[page := key], themes, page) == key
    ensures ThemeKeyFor(pageThemes[page := key], themes, other) == ThemeKeyFor(pageThemes, themes, other)
  {
  }

  /** `addTheme(key, data)`: a page naming `key` now resolves to it; every other page resolves as before. */
  lemma AddThemeIsSeen(pageThemes: map<string, string>, themes: map<string, Theme>, key: string, data: Theme, page: string)
    requires key != ""
    ensures ThemeKeyFor(pageThemes, themes[key := data], page) ==
      if page in pageThemes && pageThemes[page] == key then key else ThemeKeyFor(pageThemes, themes, page)
  {
  }

  /** The six colours `generateClickColors` appends after the theme's own. */
  const FixedClickColors: seq<string> := ["#FFB6C1", "#FFFACD", "#ADD8E6", "#FF6B6B", "#9370DB", "#66CDAA"]

  /** `generateClickColors(rgbColor)`: the theme colour as a CSS `rgb(...)`, then six fixed colours. */
  function GenerateClickColors(rgbColor: string): (colors: seq<string>)
    ensures |colors| == 7
    ensures colors[0] == "rgb(" + rgbColor + ")"
    ensures colors[1..] == FixedClickColors
  {
    ["rgb(" + rgbColor + ")"] + FixedClickColors
  }

  /** The theme colour can be read back from the first click colour, and the other six never depend on it. */
  lemma ClickColorsRoundTrip(a: string, b: string)
    ensures var first := GenerateClickColors(a)[0]; first[4..|first| - 1] == a
    ensures GenerateClickColors(a)[1..] == GenerateClickColors(b)[1..]
  {
    var first := GenerateClickColors(a)[0];
    assert first == "rgb(" + a + ")";
    assert first[4..|first| - 1] == a;
  }

  /** `{ ...m, ...patch }` on an options object. */
  function Spread(m: OptionMap, patch: OptionMap): (r: OptionMap)
    ensures r.Keys == m.Keys + patch.Keys
    ensures forall k :: k in patch ==> r[k] == patch[k]
    ensures forall k :: k in m && k !in patch ==> r[k] == m[k]
  {
    m + patch
  }

  /** What `applyTheme` passes to the line effect's `updateOptions`. */
  function LineOptions(t: Theme): (patch: OptionMap)
    ensures patch.Keys == {"color", "opacity", "count"}
  {
    map["color" := Text(t.color), "opacity" := Number(t.opacity), "count" := Number(t.count as real)]
  }

  /** What `applyTheme` passes to the cursor effect's `updateOptions`. */
  function CursorOptions(t: Theme): (patch: OptionMap)
    ensures patch.Keys == {"cursorColor", "dotColor", "clickColors"}
  {
    map[
      "cursorColor" := Text(t.cursorColor),
      "dotColor" := Text(t.cursorColor),
      "clickColors" := Colors(GenerateClickColors(t.color))
    ]
  }

  /** A collaborator's `updateOptions(patch)`, when the collaborator exists at all. */
  function Forward(collaborator: Option<OptionMap>, patch: OptionMap): (r: Option<OptionMap>)
    ensures r.Some? <==> collaborator.Some?
    ensures r.Some? ==> r.value.Keys == collaborator.value.Keys + patch.Keys
    ensures r.Some? ==> forall k :: k in patch ==> r.value[k] == patch[k]
  {
    match collaborator
    case None => None
    case Some(m) => Some(Spread(m, patch))
  }

  /**
   * Applying a theme to the line effect changes exactly its `color`,
   * `opacity` and `count` to the theme's; every other option stays.
   */
  lemma LineEffectsGetExactlyThreeKeys(m: OptionMap, t: Theme)
    ensures var r := Spread(m, LineOptions(t));
      && r.Keys == m.Keys + {"color", "opacity", "count"}
      && r["color"] == Text(t.color)
      && r["opacity"] == Number(t.opacity)
      && r["count"] == Number(t.count as real)
      && forall k :: k in m && k !in {"color", "opacity", "count"} ==> r[k] == m[k]
  {
  }

  /**
   * Applying a theme to the cursor effect sets both `cursorColor` and
   * `dotColor` to the theme's cursor colour and `clickColors` to the list
   * generated from the theme colour; every other option stays.
   */
  lemma CursorEffectsGetExactlyThreeKeys(m: OptionMap, t: Theme)
    ensures var r := Spread(m, CursorOptions(t));
      && r.Keys == m.Keys + {"cursorColor", "dotColor", "clickColors"}
      && r["cursorColor"] == Text(t.cursorColor)
      && r["dotColor"] == Text(t.cursorColor)
      && r["clickColors"] == Colors(GenerateClickColors(t.color))
      && forall k :: k in m && k !in {"cursorColor", "dotColor", "clickColors"} ==> r[k] == m[k]
  {
  }

  class ThemeManager {
    var themes: map<string, Theme>
    var pageThemes: map<string, string>
    /** `undefined` until a theme is applied. */
    var currentTheme: Option<string>
    /** The options of `window.lineEffects`, `None` when the page has no line effect. */
    var lineEffects: Option<OptionMap>
    /** The options of `window.cursorEffects`, `None` when the page has no cursor effect. */
    var cursorEffects: Option<OptionMap>

    /** The default theme stays defined: no operation removes a theme. */
    ghost predicate Valid()
      reads this
    {
      DefaultTheme in themes
    }

    /** `new ThemeManager()`, next to whichever collaborators the page has. */
    constructor (lineEffects: Option<OptionMap>, cursorEffects: Option<OptionMap>)
      ensures Valid()
      ensures themes == InitialThemes() && pageThemes == InitialPageThemes()
      ensures currentTheme == None
      ensures this.lineEffects == lineEffects && this.cursorEffects == cursorEffects
    {
      themes := InitialThemes();
      pageThemes := InitialPageThemes();
      currentTheme := None;
      this.lineEffects := lineEffects;
      this.cursorEffects := cursorEffects;
    }

    /**
     * `applyTheme(themeKey)`: an unknown key changes nothing; a known one is
     * forwarded to each collaborator that exists and becomes the current
     * theme.
     */
    method ApplyTheme(themeKey: string)
      modifies this`currentTheme, this`lineEffects, this`cursorEffects
      ensures themeKey !in themes ==>
        && currentTheme == old(currentTheme)
        && lineEffects == old(lineEffects)
        && cursorEffects == old(cursorEffects)
      ensures themeKey in themes ==>
        && currentTheme == Some(themeKey)
        && lineEffects == Forward(old(lineEffects), LineOptions(themes[themeKey]))
        && cursorEffects == Forward(old(cursorEffects), CursorOptions(themes[themeKey]))
    {
      if themeKey !in themes {
        return;
      }
      var theme := themes[themeKey];
      var linePatch, cursorPatch := LineOptions(theme), CursorOptions(theme);
      if lineEffects.Some? {
        lineEffects := Some(Spread(lineEffects.value, linePatch));
      }
      if cursorEffects.Some? {
        cursorEffects := Some(Spread(cursorEffects.value, cursorPatch));
      }
      currentTheme := Some(themeKey);
    }

    /**
     * `applyPageTheme()` on the page at `path`: applies the page's theme when
     * it names a defined one, the default theme otherwise.
     */
    method ApplyPageTheme(path: string)
      requires Valid()
      modifies this`currentTheme, this`lineEffects, this`cursorEffects
      ensures var key := ThemeKeyFor(pageThemes, themes, CurrentPage(path));
        && key in themes
        && currentTheme == Some(key)
        && lineEffects == Forward(old(lineEffects), LineOptions(themes[key]))
        && cursorEffects == Forward(old(cursorEffects), CursorOptions(themes[key]))
    {
      var currentPage := CurrentPage(path);
      if currentPage in pageThemes && pageThemes[currentPage] != "" && pageThemes[currentPage] in themes {
        ApplyTheme(pageThemes[currentPage]);
      } else {
        ApplyTheme(DefaultTheme);
      }
    }

    /** `addTheme(key, themeData)`: defines or replaces one theme, every other entry kept. */
    method AddTheme(key: string, themeData: Theme)
      requires Valid()
      modifies this`themes
      ensures Valid()
      ensures themes == old(themes)[key := themeData]
      ensures themes.Keys == old(themes).Keys + {key}
      ensures forall k :: k in old(themes) && k != key ==> themes[k] == old(themes)[k]
    {
      themes := themes[key := themeData];
    }

    /** `setPageTheme(page, themeKey)`: sets one page's entry, every other entry kept. */
    method SetPageTheme(page: string, themeKey: string)
      modifies this`pageThemes
      ensures pageThemes == old(pageThemes)[page := themeKey]
      ensures pageThemes.Keys == old(pageThemes).Keys + {page}
      ensures forall p :: p in old(pageThemes) && p != page ==> pageThemes[p] == old(pageThemes)[p]
    {
      pageThemes := pageThemes[page := themeKey];
    }
  }
}
