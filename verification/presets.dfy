/** The one-shot presets Fluent.cs declares as `FluentExtensions` on `Form`:
    `Mica`, `Acrylic` and `Tabbed` in four overloads each, `Auto` and
    `Reset`. The overloads differ only in where the theme comes from (the
    registry or an argument) and whether a target is given (none means the
    full window), so each kind is one function over those two choices. */
module Presets {
  import opened Wrappers
  import opened Colors
  import opened Dwm
  import opened Window
  import opened Registry
  import FluentRegistry
  import opened FluentApply
  import C = Config
  import opened Builder

  /** The overloads without a `dark` argument read the app-light flag. */
  datatype ThemeChoice = DetectTheme | Explicit(dark: bool)

  function ResolveTheme(store: Store, choice: ThemeChoice): (dark: bool)
    ensures choice == DetectTheme ==> (dark <==> !FluentRegistry.GetAppUseLightTheme(store))
    ensures choice.Explicit? ==> dark == choice.dark
  {
    match choice
    case DetectTheme => !FluentRegistry.GetAppUseLightTheme(store)
    case Explicit(d) => d
  }

  /** The shared body: on the title bar the theme alone; on the full window
      the backdrop, then the theme, then the transparent form. */
  function Preset(kind: BackdropType, store: Store, choice: ThemeChoice, target: C.Target): (cmds: seq<Command>)
    ensures target == C.TitleBar ==> forall w ::
      Run(w, cmds) == w.(attributes := w.attributes[20 := DarkModePayload(ResolveTheme(store, choice))])
    ensures target == C.FullWindow ==> forall w ::
      && BackdropAttribute(Run(w, cmds)) == Some(Ordinal(kind))
      && DarkModeAttribute(Run(w, cmds)) == Some(DarkModePayload(ResolveTheme(store, choice)))
      && Run(w, cmds).transparencyKey == Run(w, cmds).backColor == BackgroundFor(ResolveTheme(store, choice))
      && Run(w, cmds).foreColor == ForegroundFor(ResolveTheme(store, choice))
  {
    var dark := ResolveTheme(store, choice);
    if target == C.TitleBar then
      ApplyLightTheme(dark)
    else
      var cmds := ApplyBackdropEffect(kind) + ApplyLightTheme(dark) + ApplyTransparentForm(FormHandle, dark);
      assert forall w :: Run(w, cmds) == Run(Run(Run(w, ApplyBackdropEffect(kind)), ApplyLightTheme(dark)), ApplyTransparentForm(FormHandle, dark)) by {
        forall w ensures Run(w, cmds) == Run(Run(Run(w, ApplyBackdropEffect(kind)), ApplyLightTheme(dark)), ApplyTransparentForm(FormHandle, dark)) {
          RunAppend(w, ApplyBackdropEffect(kind) + ApplyLightTheme(dark), ApplyTransparentForm(FormHandle, dark));
          RunAppend(w, ApplyBackdropEffect(kind), ApplyLightTheme(dark));
        }
      }
      cmds
  }

  function Mica(store: Store, choice: ThemeChoice, target: C.Target): (cmds: seq<Command>)
    ensures target == C.FullWindow ==> forall w :: BackdropAttribute(Run(w, cmds)) == Some(2)
    ensures target == C.TitleBar ==> 38 !in AttributesWritten(cmds)
  {
    Preset(MainWindow, store, choice, target)
  }

  function Acrylic(store: Store, choice: ThemeChoice, target: C.Target): (cmds: seq<Command>)
    ensures target == C.FullWindow ==> forall w :: BackdropAttribute(Run(w, cmds)) == Some(3)
    ensures target == C.TitleBar ==> 38 !in AttributesWritten(cmds)
  {
    Preset(TransientWindow, store, choice, target)
  }

  function Tabbed(store: Store, choice: ThemeChoice, target: C.Target): (cmds: seq<Command>)
    ensures target == C.FullWindow ==> forall w :: BackdropAttribute(Run(w, cmds)) == Some(4)
    ensures target == C.TitleBar ==> 38 !in AttributesWritten(cmds)
  {
    Preset(TabbedWindow, store, choice, target)
  }

  /** `Auto(form)`: resolves the theme itself and hands it to `Mica(dark)`. */
  function Auto(store: Store): (cmds: seq<Command>)
    ensures forall w :: DarkModeAttribute(Run(w, cmds)) == Some(if FluentRegistry.GetAppUseLightTheme(store) then 0 else 1)
  {
    Mica(store, Explicit(!FluentRegistry.GetAppUseLightTheme(store)), C.FullWindow)
  }

  /** `Reset(form)`: cancel the backdrop, then the transparency key. No
      theme write, and BackColor and ForeColor keep their values. */
  function Reset(): (cmds: seq<Command>)
    ensures forall w :: BackdropAttribute(Run(w, cmds)) == Some(0)
    ensures forall w :: Run(w, cmds).transparencyKey == Empty
    ensures forall w :: Run(w, cmds).backColor == w.backColor && Run(w, cmds).foreColor == w.foreColor
    ensures AttributesWritten(cmds) == {38}
  {
    var cmds := CancelBackdropEffect() + CancelTransparentForm(FormHandle);
    assert forall w :: Run(w, cmds) == Run(Run(w, CancelBackdropEffect()), CancelTransparentForm(FormHandle)) by {
      forall w ensures Run(w, cmds) == Run(Run(w, CancelBackdropEffect()), CancelTransparentForm(FormHandle)) {
        RunAppend(w, CancelBackdropEffect(), CancelTransparentForm(FormHandle));
      }
    }
    cmds
  }

  /** `Auto(form)` is the theme-detecting `Mica(form)`. */
  lemma AutoIsDetectingMica(store: Store)
    ensures Auto(store) == Mica(store, DetectTheme, C.FullWindow)
  {
  }

  function KindCall(kind: BackdropType): Call {
    match kind
    case MainWindow => MicaCall
    case TransientWindow => AcrylicCall
    case TabbedWindow => TabbedCall
    case BackdropAuto => AutoBackdropCall
    case BackdropNone => NoneCall
  }

  function ThemeCall(choice: ThemeChoice): Call {
    match choice
    case DetectTheme => AutoCall
    case Explicit(d) => if d then DarkCall else LightCall
  }

  function TargetCall(target: C.Target): Call {
    if target == C.TitleBar then ToTitleBarCall else ToFullWindowCall
  }

  /** Each preset issues exactly what the builder chain
      `Configure().<Kind>().<theme>().<target>().Transparency()` issues. */
  lemma PresetIsBuilderChain(kind: BackdropType, store: Store, choice: ThemeChoice, target: C.Target)
    requires kind in {MainWindow, TransientWindow, TabbedWindow}
    ensures Preset(kind, store, choice, target)
         == Chain(Start(), [KindCall(kind), ThemeCall(choice), TargetCall(target), TransparencyCall], store).trace
  {
    var calls := [KindCall(kind), ThemeCall(choice), TargetCall(target), TransparencyCall];
    var s1 := Step(Start(), calls[0], store);
    var s2 := Step(s1, calls[1], store);
    var s3 := Step(s2, calls[2], store);
    var s4 := Step(s3, calls[3], store);
    assert Chain(Start(), calls, store) == Chain(s1, calls[1..], store);
    assert Chain(s1, calls[1..], store) == Chain(s2, calls[2..], store);
    assert Chain(s2, calls[2..], store) == Chain(s3, calls[3..], store);
    assert Chain(s3, calls[3..], store) == Chain(s4, calls[4..], store);
    assert calls[4..] == [];
    assert s3.trace == [];
    assert s4.config == C.FluentConfig(kind, ResolveTheme(store, choice), true, true, target);
  }

  /** `Reset` after any full-window preset removes the backdrop and the key,
      but the BackColor and ForeColor the preset chose stay behind. */
  lemma ResetAfterPreset(w: WindowState, kind: BackdropType, store: Store, choice: ThemeChoice)
    ensures BackdropAttribute(Run(w, Preset(kind, store, choice, C.FullWindow) + Reset())) == Some(0)
    ensures Run(w, Preset(kind, store, choice, C.FullWindow) + Reset()).transparencyKey == Empty
    ensures Run(w, Preset(kind, store, choice, C.FullWindow) + Reset()).backColor
         == BackgroundFor(ResolveTheme(store, choice))
  {
    RunAppend(w, Preset(kind, store, choice, C.FullWindow), Reset());
  }
}
