/** The `FluentExtensions` of FluentExtensions.cs: Form extension methods over
    EvoraLib's `LibApply` and `LibRegistry`. Each is a sequence of `LibApply`
    calls on the Form's own handle, composed as C# statements are. */
module Extensions {
  import opened Wrappers
  import opened Colors
  import opened Dwm
  import opened Window
  import opened Registry
  import LibRegistry
  import FluentApply
  import L = LibApply
  import C = Config
  import Presets

  /** The default arguments of `ApplyMicaEffect`/`ApplyAuto` and of
      `ApplyTheme`/`ApplyTransparency`. */
  const DefaultBackdropType: BackdropType := MainWindow
  const DefaultDarkMode: bool := false

  function ApplyMicaEffect(backdropType: BackdropType): (o: L.Outcome)
    ensures !o.faulted
    ensures forall w :: BackdropAttribute(Run(w, o.trace)) == Some(Ordinal(backdropType))
  {
    L.ApplyBackdropEffect(backdropType)
  }

  function ApplyTheme(useDarkMode: bool): (o: L.Outcome)
    ensures !o.faulted
    ensures forall w :: DarkModeFromPayload(DarkModeAttribute(Run(w, o.trace)).GetOr(0)) == useDarkMode
  {
    L.ApplyLightTheme(useDarkMode)
  }

  /** On the Form's own handle the cast in `LibApply` always succeeds. */
  function ApplyTransparency(useDarkMode: bool): (o: L.Outcome)
    ensures !o.faulted
    ensures forall w :: Run(w, o.trace).transparencyKey == FluentApply.BackgroundFor(useDarkMode)
    ensures forall w :: Run(w, o.trace).backColor == FluentApply.BackgroundFor(useDarkMode)
    ensures forall w :: Run(w, o.trace).foreColor == FluentApply.ForegroundFor(useDarkMode)
  {
    L.ApplyTransparentForm(FormHandle, useDarkMode)
  }

  /** The theme every auto-detecting extension resolves. */
  function DetectDarkMode(store: Store): bool {
    !LibRegistry.GetAppUseLightTheme(store)
  }

  /** `ApplyAuto`: backdrop, then theme, then transparency, both with the
      detected dark mode. */
  function ApplyAuto(store: Store, backdropType: BackdropType): (o: L.Outcome)
    ensures !o.faulted
    ensures forall w :: BackdropAttribute(Run(w, o.trace)) == Some(Ordinal(backdropType))
    ensures forall w :: DarkModeFromPayload(DarkModeAttribute(Run(w, o.trace)).GetOr(0)) == DetectDarkMode(store)
  {
    var d := DetectDarkMode(store);
    var o := L.Then(L.Then(ApplyMicaEffect(backdropType), ApplyTheme(d)), ApplyTransparency(d));
    assert o.trace == Presets.Preset(backdropType, store, Presets.DetectTheme, C.FullWindow);
    o
  }

  function RemoveMicaEffect(): (o: L.Outcome)
    ensures !o.faulted
    ensures forall w :: BackdropAttribute(Run(w, o.trace)) == Some(0)
  {
    L.CancelBackdropEffect()
  }

  function RemoveTransparency(): (o: L.Outcome)
    ensures !o.faulted
    ensures forall w :: Run(w, o.trace) == w.(transparencyKey := Empty)
  {
    L.CancelTransparentForm(FormHandle)
  }

  /** `RemoveAuto`: cancel the backdrop, then the key; no theme write. */
  function RemoveAuto(): (o: L.Outcome)
    ensures !o.faulted
    ensures forall w :: BackdropAttribute(Run(w, o.trace)) == Some(0) && Run(w, o.trace).transparencyKey == Empty
    ensures 20 !in AttributesWritten(o.trace)
  {
    L.Then(RemoveMicaEffect(), RemoveTransparency())
  }

  /** `UpdateTheme`: re-detect the theme, write it and the matching
      transparent form; the backdrop is never touched. */
  function UpdateTheme(store: Store): (o: L.Outcome)
    ensures !o.faulted
    ensures 38 !in AttributesWritten(o.trace)
    ensures forall w :: BackdropAttribute(Run(w, o.trace)) == BackdropAttribute(w)
    ensures forall w :: DarkModeAttribute(Run(w, o.trace)) == Some(DarkModePayload(DetectDarkMode(store)))
    ensures forall w :: Run(w, o.trace).transparencyKey == FluentApply.BackgroundFor(DetectDarkMode(store))
    ensures forall w :: Run(w, o.trace).backColor == FluentApply.BackgroundFor(DetectDarkMode(store))
    ensures forall w :: Run(w, o.trace).foreColor == FluentApply.ForegroundFor(DetectDarkMode(store))
  {
    var d := DetectDarkMode(store);
    var o := L.Then(ApplyTheme(d), ApplyTransparency(d));
    WritesAppend(ApplyTheme(d).trace, ApplyTransparency(d).trace);
    assert forall w :: BackdropAttribute(Run(w, o.trace)) == BackdropAttribute(w) by {
      forall w ensures BackdropAttribute(Run(w, o.trace)) == BackdropAttribute(w) {
        RunFrame(w, o.trace);
      }
    }
    o
  }

  /** `ApplyAuto` is `ApplyMicaEffect` followed by `UpdateTheme`. */
  lemma ApplyAutoIsMicaThenUpdate(store: Store, backdropType: BackdropType)
    ensures ApplyAuto(store, backdropType) == L.Then(ApplyMicaEffect(backdropType), UpdateTheme(store))
  {
    var d := DetectDarkMode(store);
    L.ThenAssociative(ApplyMicaEffect(backdropType), ApplyTheme(d), ApplyTransparency(d));
  }

  /** Across the two libraries: `ApplyAuto` issues exactly the commands of the
      theme-detecting full-window preset of Fluent.cs for the same kind, and
      `RemoveAuto` exactly those of `Reset`. */
  lemma ExtensionsMatchPresets(store: Store, backdropType: BackdropType)
    ensures ApplyAuto(store, backdropType).trace == Presets.Preset(backdropType, store, Presets.DetectTheme, C.FullWindow)
    ensures RemoveAuto().trace == Presets.Reset()
  {
  }

  /** The defaults: `ApplyMicaEffect()` selects Mica and `ApplyTheme()` the
      light theme. */
  lemma Defaults(w: WindowState)
    ensures BackdropAttribute(Run(w, ApplyMicaEffect(DefaultBackdropType).trace)) == Some(2)
    ensures DarkModeAttribute(Run(w, ApplyTheme(DefaultDarkMode).trace)) == Some(0)
    ensures Run(w, ApplyTransparency(DefaultDarkMode).trace).backColor == FluentApply.LightColor
  {
  }
}
