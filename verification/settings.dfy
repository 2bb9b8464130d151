/** The configuration of one `show` call: the documented defaults, the
    caller's options, and the spread merge `{ ...defaultConfig, ...options }`
    that resolves them (snacky.js lines 11-34 and 305). */
module Settings {

  datatype Option<T> = None | Some(value: T)

  /** The `icon` setting: a string (`'show'`, `'hide'` or custom markup), an
      object `{ svg, ariaLabel }` (a missing ariaLabel is the empty string),
      or any other non-null value, which selects the kind's default glyph. */
  datatype IconSetting =
    | IconText(text: string)
    | IconObject(svg: string, ariaLabel: string)
    | IconOther

  /** One entry of `actions` (`caption` is its `label`). `hasOnClick` says whether `onClick` is a
      function; `closeOnClick` is None when it is undefined and otherwise its
      truthiness. */
  datatype Action = Action(caption: string, hasOnClick: bool, closeOnClick: Option<bool>, className: string)

  /** The resolved settings of one notification. `kind` is the source's
      `type`; `customTheme` is the empty map when the source has `null`. */
  datatype Config = Config(
    direction: string,
    kind: string,
    position: string,
    icon: IconSetting,
    progressBar: string,
    autoHide: bool,
    duration: nat,
    soundEffect: bool,
    vibrate: bool,
    maxLines: nat,
    expandable: bool,
    theme: string,
    customTheme: map<string, string>,
    actions: seq<Action>,
    closeOnAction: bool,
    queueStrategy: string,
    maxVisible: int)

  /** The options object passed to `show`: None for a key the caller left out. */
  datatype Options = Options(
    direction: Option<string>,
    kind: Option<string>,
    position: Option<string>,
    icon: Option<IconSetting>,
    progressBar: Option<string>,
    autoHide: Option<bool>,
    duration: Option<nat>,
    soundEffect: Option<bool>,
    vibrate: Option<bool>,
    maxLines: Option<nat>,
    expandable: Option<bool>,
    theme: Option<string>,
    customTheme: Option<map<string, string>>,
    actions: Option<seq<Action>>,
    closeOnAction: Option<bool>,
    queueStrategy: Option<string>,
    maxVisible: Option<int>)

  /** `defaultConfig`. */
  function Defaults(): Config {
    Config(
      direction := "ltr",
      kind := "info",
      position := "bottomRight",
      icon := IconText("show"),
      progressBar := "hidden",
      autoHide := true,
      duration := 4000,
      soundEffect := false,
      vibrate := false,
      maxLines := 3,
      expandable := false,
      theme := "dark",
      customTheme := map[],
      actions := [],
      closeOnAction := true,
      queueStrategy := "stack",
      maxVisible := 5)
  }

  /** `show(message)` called without options. */
  function NoOptions(): Options {
    Options(None, None, None, None, None, None, None, None, None,
            None, None, None, None, None, None, None, None)
  }

  /** Options that set every key to the value it has in `c`. */
  function AllOf(c: Config): Options {
    Options(Some(c.direction), Some(c.kind), Some(c.position), Some(c.icon),
            Some(c.progressBar), Some(c.autoHide), Some(c.duration),
            Some(c.soundEffect), Some(c.vibrate), Some(c.maxLines),
            Some(c.expandable), Some(c.theme), Some(c.customTheme),
            Some(c.actions), Some(c.closeOnAction), Some(c.queueStrategy),
            Some(c.maxVisible))
  }

  /** One key of the spread: the caller's value when given, else the default. */
  function Pick<T>(given: Option<T>, default: T): T {
    if given.Some? then given.value else default
  }

  /** `{ ...defaultConfig, ...options }`. */
  function Merge(o: Options): Config {
    var d := Defaults();
    Config(
      direction := Pick(o.direction, d.direction),
      kind := Pick(o.kind, d.kind),
      position := Pick(o.position, d.position),
      icon := Pick(o.icon, d.icon),
      progressBar := Pick(o.progressBar, d.progressBar),
      autoHide := Pick(o.autoHide, d.autoHide),
      duration := Pick(o.duration, d.duration),
      soundEffect := Pick(o.soundEffect, d.soundEffect),
      vibrate := Pick(o.vibrate, d.vibrate),
      maxLines := Pick(o.maxLines, d.maxLines),
      expandable := Pick(o.expandable, d.expandable),
      theme := Pick(o.theme, d.theme),
      customTheme := Pick(o.customTheme, d.customTheme),
      actions := Pick(o.actions, d.actions),
      closeOnAction := Pick(o.closeOnAction, d.closeOnAction),
      queueStrategy := Pick(o.queueStrategy, d.queueStrategy),
      maxVisible := Pick(o.maxVisible, d.maxVisible))
  }

  /** Without options every setting is its documented default. */
  lemma MergeOfNothing()
    ensures Merge(NoOptions()) == Defaults()
    ensures Merge(NoOptions()).position == "bottomRight"
    ensures Merge(NoOptions()).queueStrategy == "stack" && Merge(NoOptions()).maxVisible == 5
  {
  }

  /** When the options give every key, each overrides its default: any configuration
      can be requested, and the merge returns it unchanged. */
  lemma MergeOfEverything(c: Config)
    ensures Merge(AllOf(c)) == c
  {
  }

  /** A key the caller gives overrides the default; a key left out keeps it.
      Stated for the keys the queue and lifecycle depend on. */
  lemma MergeOverrides(o: Options)
    ensures o.position.Some? ==> Merge(o).position == o.position.value
    ensures o.position.None? ==> Merge(o).position == Defaults().position
    ensures o.queueStrategy.Some? ==> Merge(o).queueStrategy == o.queueStrategy.value
    ensures o.queueStrategy.None? ==> Merge(o).queueStrategy == Defaults().queueStrategy
    ensures o.maxVisible.Some? ==> Merge(o).maxVisible == o.maxVisible.value
    ensures o.maxVisible.None? ==> Merge(o).maxVisible == Defaults().maxVisible
    ensures o.autoHide.Some? ==> Merge(o).autoHide == o.autoHide.value
    ensures o.autoHide.None? ==> Merge(o).autoHide
    ensures o.actions.Some? ==> Merge(o).actions == o.actions.value
    ensures o.actions.None? ==> Merge(o).actions == []
  {
  }
}
