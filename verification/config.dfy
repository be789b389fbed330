/** `Theme` of Fluent.cs: names for the two values of a dark flag. */
module Theme {
  const Dark: bool := true
  const Light: bool := false
}

/** `FluentConfig` of Fluent.cs: a five-field record filled in by chained
    setters, and its commit (`ApplyInternal`), which turns the record into
    the native effects on the configured Form. */
module Config {
  import Wrappers
  import Theme
  import opened Colors
  import opened Dwm
  import opened Window
  import opened Registry
  import FluentRegistry
  import opened FluentApply

  /** `Target`: where the effects go. */
  datatype Target = TitleBar | FullWindow

  datatype FluentConfig = FluentConfig(
    backdropEffect: BackdropType,
    isDark: bool,
    transparencyEnabled: bool,
    backdropEnabled: bool,
    applyTarget: Target)

  /** `Configure()` / `new FluentConfig(form)`: the field initialisers. */
  function Configure(): FluentConfig {
    FluentConfig(MainWindow, true, false, true, FullWindow)
  }

  // Backdrop setters.

  /** Changes the kind only: an earlier `None()` stays in force. */
  function AutoBackdrop(c: FluentConfig): FluentConfig {
    c.(backdropEffect := BackdropAuto)
  }

  function None(c: FluentConfig): FluentConfig {
    c.(backdropEffect := BackdropNone, backdropEnabled := false)
  }

  function Mica(c: FluentConfig): FluentConfig {
    c.(backdropEffect := MainWindow, backdropEnabled := true)
  }

  function Acrylic(c: FluentConfig): FluentConfig {
    c.(backdropEffect := TransientWindow, backdropEnabled := true)
  }

  function Tabbed(c: FluentConfig): FluentConfig {
    c.(backdropEffect := TabbedWindow, backdropEnabled := true)
  }

  // Theme setters. `Auto()` reads the registry once, when it is called.

  function Auto(c: FluentConfig, store: Store): FluentConfig {
    c.(isDark := !FluentRegistry.GetAppUseLightTheme(store))
  }

  function Dark(c: FluentConfig): FluentConfig {
    c.(isDark := Theme.Dark)
  }

  function Light(c: FluentConfig): FluentConfig {
    c.(isDark := Theme.Light)
  }

  // Target setters.

  function ToTitleBar(c: FluentConfig): FluentConfig {
    c.(applyTarget := TitleBar)
  }

  function ToFullWindow(c: FluentConfig): FluentConfig {
    c.(applyTarget := FullWindow)
  }

  /** The window a commit of `c` leaves behind, stated field by field: the
      reference the commit trace is checked against. */
  ghost predicate CommitOutcome(c: FluentConfig, w: WindowState, w': WindowState) {
    if c.applyTarget == TitleBar then
      w' == w.(attributes := w.attributes[20 := DarkModePayload(c.isDark)])
    else
      && BackdropAttribute(w') == Wrappers.Some(if c.backdropEnabled then Ordinal(c.backdropEffect) else 0)
      && DarkModeAttribute(w') == Wrappers.Some(DarkModePayload(c.isDark))
      && (forall id :: id != 20 && id != 38 ==> Lookup(w', id) == Lookup(w, id))
      && w'.transparencyKey == (if c.transparencyEnabled then BackgroundFor(c.isDark) else Empty)
      && w'.backColor == (if c.transparencyEnabled then BackgroundFor(c.isDark) else w.backColor)
      && w'.foreColor == (if c.transparencyEnabled then ForegroundFor(c.isDark) else w.foreColor)
  }

  /** `ApplyInternal`: on the title bar only the theme is written; on the
      full window the backdrop (or its cancellation), then the theme, then
      the transparency (or its cancellation). */
  function Commit(c: FluentConfig): (cmds: seq<Command>)
    ensures |cmds| == if c.applyTarget == TitleBar then 1 else 3
    ensures forall w :: CommitOutcome(c, w, Run(w, cmds))
  {
    if c.applyTarget == TitleBar then
      ApplyLightTheme(c.isDark)
    else
      var backdrop := if c.backdropEnabled then ApplyBackdropEffect(c.backdropEffect) else CancelBackdropEffect();
      var theme := ApplyLightTheme(c.isDark);
      var transparency := if c.transparencyEnabled then ApplyTransparentForm(FormHandle, c.isDark)
                          else CancelTransparentForm(FormHandle);
      var cmds := backdrop + theme + transparency;
      assert forall w :: CommitOutcome(c, w, Run(w, cmds)) by {
        forall w ensures CommitOutcome(c, w, Run(w, cmds)) {
          RunAppend(w, backdrop + theme, transparency);
          RunAppend(w, backdrop, theme);
        }
      }
      cmds
  }

  /** A builder together with the commands it has issued so far. */
  datatype Session = Session(config: FluentConfig, trace: seq<Command>)

  /** `Transparency()`: set the flag and commit at once. */
  function Transparency(c: FluentConfig): (s: Session)
    ensures s.config.transparencyEnabled
    ensures forall w :: CommitOutcome(s.config, w, Run(w, s.trace))
  {
    var c' := c.(transparencyEnabled := true);
    Session(c', Commit(c'))
  }

  /** `NoTransparency()`: clear the flag and commit at once. */
  function NoTransparency(c: FluentConfig): (s: Session)
    ensures !s.config.transparencyEnabled
    ensures forall w :: CommitOutcome(s.config, w, Run(w, s.trace))
  {
    var c' := c.(transparencyEnabled := false);
    Session(c', Commit(c'))
  }

  /** `Apply()`. */
  function Apply(c: FluentConfig): (cmds: seq<Command>)
    ensures forall w :: CommitOutcome(c, w, Run(w, cmds))
  {
    Commit(c)
  }

  /** The first command of a full-window commit is the backdrop write or its
      cancellation, the second the theme, the third the transparency or its
      cancellation; a title-bar commit is the theme write alone. */
  lemma CommitOrder(c: FluentConfig)
    ensures c.applyTarget == TitleBar ==> Commit(c) == ApplyLightTheme(c.isDark)
    ensures c.applyTarget == FullWindow ==>
      && Commit(c)[0..1] == (if c.backdropEnabled then ApplyBackdropEffect(c.backdropEffect) else CancelBackdropEffect())
      && Commit(c)[1..2] == ApplyLightTheme(c.isDark)
      && Commit(c)[2..3] == (if c.transparencyEnabled then ApplyTransparentForm(FormHandle, c.isDark)
                             else CancelTransparentForm(FormHandle))
  {
  }

  /** On the title bar the backdrop and transparency settings are dormant:
      the commit is the same whatever they hold, and it writes neither the
      backdrop attribute nor any Form colour. */
  lemma TitleBarIgnoresDormantFields(c: FluentConfig, kind: BackdropType, enabled: bool, transparent: bool)
    requires c.applyTarget == TitleBar
    ensures Commit(c) == Commit(c.(backdropEffect := kind, backdropEnabled := enabled, transparencyEnabled := transparent))
    ensures 38 !in AttributesWritten(Commit(c))
    ensures !WritesFormColors(Commit(c)) && !WritesKey(Commit(c))
  {
  }

  /** Switching to the title bar and back restores the full-window commit:
      the target setters change the target and nothing else. */
  lemma TargetRoundTrip(c: FluentConfig)
    ensures ToFullWindow(ToTitleBar(c)) == ToFullWindow(c)
    ensures ToTitleBar(ToFullWindow(c)) == ToTitleBar(c)
    ensures c.applyTarget == FullWindow ==> Commit(ToFullWindow(ToTitleBar(c))) == Commit(c)
  {
  }

  /** `Auto()` resolves the theme as the negation of the app-light flag. */
  lemma AutoThemeSign(c: FluentConfig, store: Store)
    ensures Auto(c, store).isDark <==> !FluentRegistry.GetAppUseLightTheme(store)
    ensures Auto(c, store) == (if FluentRegistry.GetAppUseLightTheme(store) then Light(c) else Dark(c))
  {
  }

  /** `AutoBackdrop()` keeps an earlier `None()` in force, so such a chain
      commits a cancellation; the payload written is still the one DWMSBT_AUTO
      stands for. */
  lemma AutoBackdropAfterNone(c: FluentConfig, w: WindowState)
    requires c.applyTarget == FullWindow
    ensures !AutoBackdrop(None(c)).backdropEnabled
    ensures BackdropAttribute(Run(w, Commit(AutoBackdrop(None(c))))) == Wrappers.Some(Ordinal(BackdropAuto))
  {
    assert CommitOutcome(AutoBackdrop(None(c)), w, Run(w, Commit(AutoBackdrop(None(c)))));
  }

  /** A fresh configuration commits the Mica backdrop, the dark theme and a
      transparency cancellation. */
  lemma DefaultCommit(w: WindowState)
    ensures BackdropAttribute(Run(w, Commit(Configure()))) == Wrappers.Some(Ordinal(MainWindow))
    ensures DarkModeAttribute(Run(w, Commit(Configure()))) == Wrappers.Some(1)
    ensures Run(w, Commit(Configure())).transparencyKey == Empty
  {
    assert CommitOutcome(Configure(), w, Run(w, Commit(Configure())));
  }
}
