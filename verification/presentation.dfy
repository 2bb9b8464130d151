/** The small decisions `show` makes while it builds a notification: the
    theme tokens (snacky.js lines 243-249), the icon (318-326), the progress
    bar (357), the class name of a new container (254), what an action click
    does (378-391) and what the expand click does to the line clamp (367-376).
    Glyph markup and colour values are opaque strings. */
module Presentation {
  import opened Settings

  // ---------------------------------------------------------------- themes

  /** The CSS custom properties every preset sets. */
  const ThemeTokens: set<string> :=
    {"--snacky-bg", "--snacky-text", "--snacky-muted", "--snacky-border", "--snacky-shadow"}

  /** `THEME_PRESETS`. */
  const Presets: map<string, map<string, string>> := map[
    "dark" := map[
      "--snacky-bg" := "rgba(20,20,20,.92)",
      "--snacky-text" := "#f5f5f5",
      "--snacky-muted" := "#d6d6d6",
      "--snacky-border" := "rgba(255,255,255,0.1)",
      "--snacky-shadow" := "0 8px 24px rgba(0,0,0,.25)"],
    "light" := map[
      "--snacky-bg" := "rgba(255,255,255,.98)",
      "--snacky-text" := "#141414",
      "--snacky-muted" := "#3a3a3a",
      "--snacky-border" := "rgba(0,0,0,0.08)",
      "--snacky-shadow" := "0 8px 24px rgba(0,0,0,.12)"],
    "glass" := map[
      "--snacky-bg" := "rgba(24,24,24,.55)",
      "--snacky-text" := "#ffffff",
      "--snacky-muted" := "#e5e5e5",
      "--snacky-border" := "rgba(255,255,255,0.2)",
      "--snacky-shadow" := "0 12px 30px rgba(0,0,0,.35)"]]

  /** `THEME_PRESETS[theme] || THEME_PRESETS.dark`. */
  function Preset(theme: string): (p: map<string, string>)
    ensures theme !in Presets ==> p == Presets["dark"]
    ensures p.Keys == ThemeTokens
  {
    if theme in Presets then Presets[theme] else Presets["dark"]
  }

  /** `{ ...preset, ...(customTheme || {}) }`: the tokens set on the element. */
  function ResolveTheme(theme: string, custom: map<string, string>): (vars: map<string, string>)
    ensures vars.Keys == Preset(theme).Keys + custom.Keys
    ensures forall k :: k in custom ==> vars[k] == custom[k]
    ensures forall k :: k in Preset(theme) && k !in custom ==> vars[k] == Preset(theme)[k]
  {
    Preset(theme) + custom
  }

  /** Whatever theme name is given, every token gets a value; an unknown name
      without overrides gives exactly the dark preset. */
  lemma ThemeAlwaysComplete(theme: string, custom: map<string, string>)
    ensures ThemeTokens <= ResolveTheme(theme, custom).Keys
    ensures theme !in {"dark", "light", "glass"} ==> ResolveTheme(theme, map[]) == Presets["dark"]
  {
  }

  // ----------------------------------------------------------------- icons

  /** The glyph table's keys (`ICONS`); the markup itself is left opaque. */
  const GlyphNames: set<string> :=
    {"info", "warning", "success", "error", "cart", "online", "offline",
     "wishlist", "favorite", "saved", "download", "loading"}

  /** What goes into the icon slot: nothing, caller markup (with an
      accessibility label for the object form), or a built-in glyph by name. */
  datatype Glyph =
    | NoIcon
    | Markup(svg: string)
    | Labelled(svg: string, ariaLabel: string)
    | Builtin(name: string)

  function IconChoice(icon: IconSetting, kind: string): (g: Glyph)
    ensures g == NoIcon <==> icon == IconText("hide")
    ensures icon.IconText? && icon.text != "show" && icon.text != "hide" ==> g == Markup(icon.text)
    ensures icon.IconObject? && icon.svg != "" ==> g == Labelled(icon.svg, icon.ariaLabel)
    ensures g.Builtin? <==> icon == IconText("show") || icon == IconOther || (icon.IconObject? && icon.svg == "")
    ensures g.Builtin? ==> g.name in GlyphNames
    ensures g.Builtin? ==> g.name == if kind in GlyphNames then kind else "info"
  {
    if icon == IconText("hide") then NoIcon
    else if icon.IconText? && icon.text != "show" then Markup(icon.text)
    else if icon.IconObject? && icon.svg != "" then Labelled(icon.svg, icon.ariaLabel)
    else Builtin(if kind in GlyphNames then kind else "info")
  }

  // ---------------------------------------------------------- progress bar

  /** The progress bar's animation length, when the bar is rendered at all. */
  function ProgressBar(c: Config): Option<nat> {
    if c.progressBar == "show" && c.autoHide then Some(c.duration) else None
  }

  /** A bar is drawn only for a notification that hides itself, it lasts
      exactly as long as the notification stays, and the defaults draw none. */
  lemma BarOnlyWithAutoHide(c: Config)
    ensures ProgressBar(c).Some? ==> c.autoHide && ProgressBar(c).value == c.duration
    ensures !c.autoHide || c.progressBar != "show" ==> ProgressBar(c) == None
    ensures ProgressBar(Defaults()) == None
  {
  }

  // ------------------------------------------------------- container class

  predicate IsUpper(ch: char) { 'A' <= ch <= 'Z' }

  /** ASCII lower-casing, as `toLowerCase` does for ASCII letters. */
  function Lower(ch: char): (r: char)
    ensures !IsUpper(r)
  {
    if IsUpper(ch) then (ch as int + 32) as char else ch
  }

  function Upper(ch: char): char {
    if 'a' <= ch <= 'z' then (ch as int - 32) as char else ch
  }

  /** `replace(/([A-Z])/g, '-$1').toLowerCase()`: every capital becomes a
      dash followed by its lower-case letter. */
  function Kebab(s: string): (r: string)
    ensures forall i :: 0 <= i < |r| ==> !IsUpper(r[i])
    ensures |s| <= |r| <= 2 * |s|
  {
    if s == [] then []
    else (if IsUpper(s[0]) then ['-', Lower(s[0])] else [s[0]]) + Kebab(s[1..])
  }

  /** The reverse reading of a kebab name: a dash and a letter become the
      capital letter. */
  function Camel(s: string): string {
    if |s| >= 2 && s[0] == '-' then [Upper(s[1])] + Camel(s[2..])
    else if s == [] then []
    else [s[0]] + Camel(s[1..])
  }

  predicate DashFree(s: string) { forall i :: 0 <= i < |s| ==> s[i] != '-' }

  /** Kebab-casing loses nothing for a position name without dashes. */
  lemma {:induction false} CamelUndoesKebab(s: string)
    requires DashFree(s)
    ensures Camel(Kebab(s)) == s
  {
    if s != [] {
      var tail := Kebab(s[1..]);
      CamelUndoesKebab(s[1..]);
      if IsUpper(s[0]) {
        assert Kebab(s) == ['-', Lower(s[0])] + tail;
        assert (['-', Lower(s[0])] + tail)[2..] == tail;
      } else {
        assert Kebab(s) == [s[0]] + tail;
        assert ([s[0]] + tail)[1..] == tail;
      }
    }
  }

  /** `snacky-container <kebab-position>`. */
  function ContainerClass(position: string): string {
    "snacky-container " + Kebab(position)
  }

  /** Two different dash-free positions never share a container class. */
  lemma ContainerClassDistinguishes(p: string, q: string)
    requires DashFree(p) && DashFree(q) && p != q
    ensures ContainerClass(p) != ContainerClass(q)
  {
    if ContainerClass(p) == ContainerClass(q) {
      var prefix := "snacky-container ";
      assert Kebab(p) == ContainerClass(p)[|prefix|..];
      assert Kebab(q) == ContainerClass(q)[|prefix|..];
      CamelUndoesKebab(p);
      CamelUndoesKebab(q);
    }
  }

  predicate CapitalFree(s: string) { forall i :: 0 <= i < |s| ==> !IsUpper(s[i]) }

  /** A name without capitals is its own kebab form. */
  lemma {:induction false} KebabOfLowercase(s: string)
    requires CapitalFree(s)
    ensures Kebab(s) == s
  {
    if s != [] {
      KebabOfLowercase(s[1..]);
    }
  }

  lemma {:induction false} KebabAppend(a: string, b: string)
    ensures Kebab(a + b) == Kebab(a) + Kebab(b)
  {
    if a == [] {
      assert a + b == b;
    } else {
      assert (a + b)[0] == a[0];
      assert (a + b)[1..] == a[1..] + b;
      KebabAppend(a[1..], b);
    }
  }

  /** `headCapitalRest` becomes `head-capitalrest` when only one capital occurs. */
  lemma {:induction false} OneCapital(head: string, capital: char, rest: string)
    requires CapitalFree(head) && CapitalFree(rest) && IsUpper(capital)
    ensures Kebab(head + [capital] + rest) == head + ['-', Lower(capital)] + rest
  {
    var dashed := ['-', Lower(capital)];
    assert [capital][1..] == [];
    assert Kebab([capital]) == dashed + Kebab([]);
    assert Kebab([capital]) == dashed;
    KebabAppend(head, [capital]);
    KebabOfLowercase(head);
    assert Kebab(head + [capital]) == head + dashed;
    KebabAppend(head + [capital], rest);
    KebabOfLowercase(rest);
    assert Kebab(head + [capital] + rest) == (head + dashed) + rest;
  }

  /** The class a container gets for a position with one capital. */
  lemma {:induction false} OneCapitalClass(head: string, capital: char, rest: string, position: string)
    requires CapitalFree(head) && CapitalFree(rest) && IsUpper(capital)
    requires position == head + [capital] + rest
    ensures ContainerClass(position) == "snacky-container " + head + ['-', Lower(capital)] + rest
  {
    OneCapital(head, capital, rest);
  }

  // --------------------------------------------------------- action click

  /** Whether clicking action button `index` calls its `onClick`. */
  function InvokesOnClick(actions: seq<Action>, index: nat): bool {
    index < |actions| && actions[index].hasOnClick
  }

  /** Whether clicking action button `index` dismisses the notification: the
      action's own `closeOnClick` when it is defined, else `closeOnAction`. */
  function ShouldClose(actions: seq<Action>, index: nat, closeOnAction: bool): bool {
    if index < |actions| && actions[index].closeOnClick.Some? then actions[index].closeOnClick.value
    else closeOnAction
  }

  /** An explicit `closeOnClick` decides alone, whatever `closeOnAction`
      says; without one (or without an action at that index) `closeOnAction`
      decides. */
  lemma ClosePrecedence(actions: seq<Action>, index: nat, closeOnAction: bool)
    ensures index < |actions| && actions[index].closeOnClick.Some? ==>
              ShouldClose(actions, index, true) == ShouldClose(actions, index, false) ==
              actions[index].closeOnClick.value
    ensures index >= |actions| || actions[index].closeOnClick.None? ==>
              ShouldClose(actions, index, closeOnAction) == closeOnAction
  {
  }

  /** An action without its own `closeOnClick` follows the notification's
      `closeOnAction`, and an explicit `closeOnClick` beats it either way. */
  lemma ActionCloseExamples(caption: string)
    ensures !ShouldClose([Action(caption, true, None, "")], 0, false)
    ensures ShouldClose([Action(caption, true, None, "")], 0, true)
    ensures !ShouldClose([Action(caption, true, Some(false), "")], 0, true)
    ensures ShouldClose([Action(caption, false, Some(true), "")], 0, false)
  {
  }

  // ----------------------------------------------------------- line clamp

  /** The message's `-webkit-line-clamp` style: not set, `'unset'`, or a
      line count. */
  datatype LineClamp = ClampNone | ClampUnset | ClampLines(lines: nat)

  /** `if (settings.maxLines) ... webkitLineClamp = settings.maxLines`. */
  function InitialClamp(maxLines: nat): (c: LineClamp)
    ensures c != ClampUnset
    ensures c.ClampLines? <==> maxLines > 0
    ensures maxLines > 0 ==> c == ClampLines(maxLines)
  {
    if maxLines > 0 then ClampLines(maxLines) else ClampNone
  }

  /** The line count the expand click restores: `maxLines || 3`. */
  function RestoredLines(maxLines: nat): (n: nat)
    ensures n > 0
  {
    if maxLines > 0 then maxLines else 3
  }

  /** One expand click: `'unset'` becomes the line count, anything else
      becomes `'unset'`. */
  function ToggleClamp(c: LineClamp, maxLines: nat): (r: LineClamp)
    ensures r == ClampUnset <==> c != ClampUnset
    ensures r != ClampUnset ==> r == ClampLines(RestoredLines(maxLines))
  {
    if c == ClampUnset then ClampLines(RestoredLines(maxLines)) else ClampUnset
  }

  /** The clamp after `k` expand clicks on a fresh notification. */
  function ClampAfter(maxLines: nat, k: nat): LineClamp {
    if k == 0 then InitialClamp(maxLines) else ToggleClamp(ClampAfter(maxLines, k - 1), maxLines)
  }

  /** Expand clicks alternate between unclamped and clamped, and an even
      number of them restores the configured clamp whenever `maxLines` is set. */
  lemma {:induction false} ClicksAlternate(maxLines: nat, k: nat)
    ensures ClampAfter(maxLines, k) == ClampUnset <==> k % 2 == 1
    ensures k > 0 && k % 2 == 0 ==> ClampAfter(maxLines, k) == ClampLines(RestoredLines(maxLines))
    ensures maxLines > 0 && k % 2 == 0 ==> ClampAfter(maxLines, k) == InitialClamp(maxLines)
  {
    if k > 0 {
      ClicksAlternate(maxLines, k - 1);
    }
  }
}
