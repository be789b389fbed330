/** `FluentApply` of WinFormsFluentLib.cs: the five effect encoders, each a
    short trace of native commands. */
module FluentApply {
  import opened Wrappers
  import opened Colors
  import opened Dwm
  import opened Window

  /** The near-white and near-black sentinels used as Form colours. */
  const LightColor: Color := FromRgb(233, 233, 234)
  const DarkColor: Color := FromRgb(22, 22, 21)

  /** The background (and transparency key) for a theme. */
  function BackgroundFor(dark: bool): Color {
    if dark then DarkColor else LightColor
  }

  /** The foreground for a theme: always the other sentinel. */
  function ForegroundFor(dark: bool): Color {
    if dark then LightColor else DarkColor
  }

  /** `Apply_Backdrop_Effect`: the backdrop attribute ends up holding the
      type's ordinal, and nothing else about the window changes. */
  function ApplyBackdropEffect(kind: BackdropType): (cmds: seq<Command>)
    ensures forall w :: BackdropAttribute(Run(w, cmds)) == Some(Ordinal(kind))
    ensures AttributesWritten(cmds) == {38}
    ensures !WritesFormColors(cmds) && !WritesKey(cmds)
  {
    [SetAttribute(SystemBackdropType, Ordinal(kind))]
  }

  /** `Apply_Light_Theme`: the immersive-dark-mode attribute ends up as a
      BOOL that reads back as `dark`, and nothing else changes. */
  function ApplyLightTheme(dark: bool): (cmds: seq<Command>)
    ensures forall w :: DarkModeAttribute(Run(w, cmds)) == Some(if dark then 1 else 0)
    ensures forall w :: DarkModeFromPayload(DarkModeAttribute(Run(w, cmds)).GetOr(0)) == dark
    ensures AttributesWritten(cmds) == {20}
    ensures !WritesFormColors(cmds) && !WritesKey(cmds)
  {
    [SetAttribute(UseImmersiveDarkMode, DarkModePayload(dark))]
  }

  /** `Apply_Transparent_Form`: on a Form, BackColor and TransparencyKey both
      become the theme's background sentinel and ForeColor the other one; on
      any other handle it returns without touching anything. */
  function ApplyTransparentForm(h: HandleKind, dark: bool): (cmds: seq<Command>)
    ensures h == OtherHandle ==> forall w :: Run(w, cmds) == w
    ensures h == FormHandle ==> forall w ::
      && Run(w, cmds).backColor == Run(w, cmds).transparencyKey == (if dark then DarkColor else LightColor)
      && Run(w, cmds).foreColor == (if dark then LightColor else DarkColor)
      && Run(w, cmds).attributes == w.attributes
  {
    match h
    case FormHandle => [SetFormColors(ForegroundFor(dark), BackgroundFor(dark), BackgroundFor(dark))]
    case OtherHandle => []
  }

  /** `Cancel_Backdrop_Effect`: the backdrop attribute ends up 0, and nothing
      else changes. */
  function CancelBackdropEffect(): (cmds: seq<Command>)
    ensures forall w :: BackdropAttribute(Run(w, cmds)) == Some(0)
    ensures AttributesWritten(cmds) == {38}
    ensures !WritesFormColors(cmds) && !WritesKey(cmds)
  {
    [SetAttribute(SystemBackdropType, 0)]
  }

  /** `Cancel_Transparent_Form`: on a Form only TransparencyKey changes, to
      `Empty`; BackColor and ForeColor keep whatever they held. */
  function CancelTransparentForm(h: HandleKind): (cmds: seq<Command>)
    ensures h == OtherHandle ==> forall w :: Run(w, cmds) == w
    ensures h == FormHandle ==> forall w :: Run(w, cmds) == w.(transparencyKey := Empty)
  {
    match h
    case FormHandle => [ClearTransparencyKey]
    case OtherHandle => []
  }

  /** Cancelling the backdrop is the same write as selecting DWMSBT_AUTO, and
      not the same as selecting DWMSBT_NONE. */
  lemma CancelBackdropIsAuto()
    ensures CancelBackdropEffect() == ApplyBackdropEffect(BackdropAuto)
    ensures CancelBackdropEffect() != ApplyBackdropEffect(BackdropNone)
    ensures forall w :: BackdropFromOrdinal(BackdropAttribute(Run(w, CancelBackdropEffect())).value) == Some(BackdropAuto)
  {
  }

  /** Whatever backdrop was applied, cancelling it afterwards leaves the
      attribute at 0 and the rest of the window as the apply left it. */
  lemma CancelAfterApplyBackdrop(w: WindowState, kind: BackdropType)
    ensures BackdropAttribute(Run(w, ApplyBackdropEffect(kind) + CancelBackdropEffect())) == Some(0)
    ensures Run(w, ApplyBackdropEffect(kind) + CancelBackdropEffect()) == Run(w, CancelBackdropEffect())
  {
    RunAppend(w, ApplyBackdropEffect(kind), CancelBackdropEffect());
    assert Run(Run(w, ApplyBackdropEffect(kind)), CancelBackdropEffect()).attributes
        == Run(w, CancelBackdropEffect()).attributes;
  }

  /** The sentinels contrast: in dark mode the background is a dark colour
      and the text a light one, and the other way round in light mode; and
      both are keys `CalcTransparentColor` already leaves alone. */
  lemma TransparentFormContrast(dark: bool)
    ensures IsColorLight(BackgroundFor(dark)) == !dark
    ensures IsColorLight(ForegroundFor(dark)) == dark
    ensures BackgroundFor(dark) != ForegroundFor(dark)
    ensures TransparentColor(BackgroundFor(dark)) == BackgroundFor(dark)
  {
    assert R(DarkColor) == 22 && G(DarkColor) == 22 && B(DarkColor) == 21;
    assert R(LightColor) == 233 && G(LightColor) == 233 && B(LightColor) == 234;
  }

  /** Applying and then cancelling transparency on a Form clears the key but
      keeps the sentinel BackColor and ForeColor the apply wrote. */
  lemma CancelAfterApplyTransparency(w: WindowState, dark: bool)
    ensures Run(w, ApplyTransparentForm(FormHandle, dark) + CancelTransparentForm(FormHandle))
         == w.(foreColor := ForegroundFor(dark), backColor := BackgroundFor(dark), transparencyKey := Empty)
  {
    RunAppend(w, ApplyTransparentForm(FormHandle, dark), CancelTransparentForm(FormHandle));
  }
}
