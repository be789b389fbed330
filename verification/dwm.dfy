/** The attribute codec: the two dwmapi enumerations the libraries declare
    (`DwmSetWindowAttributeFlags`, `DwmSystemBackdropTypeFlgs`), their integer
    values, and the native commands a window receives. */
module Dwm {
  import opened Wrappers
  import opened Colors

  /** `DwmSetWindowAttributeFlags`, member for member. The first seventeen are
      numbered from 0 as in the C# declaration; the library only ever writes
      `UseImmersiveDarkMode` and `SystemBackdropType`. */
  datatype WindowAttribute =
    | NcRenderingEnabled | NcRenderingPolicy | TransitionsForceDisabled
    | AllowNcPaint | CaptionButtonBounds | NonClientRtlLayout
    | ForceIconicRepresentation | Flip3DPolicy | ExtendedFrameBounds
    | HasIconicBitmap | DisallowPeek | ExcludedFromPeek | Cloak | Cloaked
    | FreezeRepresentation | PassiveUpdateMode | UseHostBackdropBrush
    | UseImmersiveDarkMode
    | WindowCornerPreference | BorderColor | CaptionColor | TextColor
    | VisibleFrameBorderThickness | SystemBackdropType | Last
    | MicaEffect

  /** The integer each member stands for: implicit numbering, restarted at
      the explicit values 20, 33 and 1029. */
  function AttributeId(a: WindowAttribute): int {
    match a
    case NcRenderingEnabled => 0
    case NcRenderingPolicy => 1
    case TransitionsForceDisabled => 2
    case AllowNcPaint => 3
    case CaptionButtonBounds => 4
    case NonClientRtlLayout => 5
    case ForceIconicRepresentation => 6
    case Flip3DPolicy => 7
    case ExtendedFrameBounds => 8
    case HasIconicBitmap => 9
    case DisallowPeek => 10
    case ExcludedFromPeek => 11
    case Cloak => 12
    case Cloaked => 13
    case FreezeRepresentation => 14
    case PassiveUpdateMode => 15
    case UseHostBackdropBrush => 16
    case UseImmersiveDarkMode => 20
    case WindowCornerPreference => 33
    case BorderColor => 34
    case CaptionColor => 35
    case TextColor => 36
    case VisibleFrameBorderThickness => 37
    case SystemBackdropType => 38
    case Last => 39
    case MicaEffect => 1029
  }

  /** The member an integer names, if any (the reverse of `AttributeId`). */
  function AttributeFromId(id: int): Option<WindowAttribute> {
    if 0 <= id <= 16 then
      Some([NcRenderingEnabled, NcRenderingPolicy, TransitionsForceDisabled,
            AllowNcPaint, CaptionButtonBounds, NonClientRtlLayout,
            ForceIconicRepresentation, Flip3DPolicy, ExtendedFrameBounds,
            HasIconicBitmap, DisallowPeek, ExcludedFromPeek, Cloak, Cloaked,
            FreezeRepresentation, PassiveUpdateMode, UseHostBackdropBrush][id])
    else if id == 20 then Some(UseImmersiveDarkMode)
    else if 33 <= id <= 39 then
      Some([WindowCornerPreference, BorderColor, CaptionColor, TextColor,
            VisibleFrameBorderThickness, SystemBackdropType, Last][id - 33])
    else if id == 1029 then Some(MicaEffect)
    else None
  }

  /** The numbering is a bijection between the members and the integers the
      declaration gives them: decoding recovers every member, and every
      integer that decodes is the number of what it decodes to. */
  lemma AttributeIdRoundTrip(a: WindowAttribute, id: int)
    ensures AttributeFromId(AttributeId(a)) == Some(a)
    ensures AttributeFromId(id) == Some(a) <==> AttributeId(a) == id
  {
  }

  /** Distinct members never share a number. */
  lemma AttributeIdInjective(a: WindowAttribute, b: WindowAttribute)
    ensures AttributeId(a) == AttributeId(b) ==> a == b
  {
    AttributeIdRoundTrip(a, AttributeId(a));
    AttributeIdRoundTrip(b, AttributeId(b));
  }

  /** The number the DWMWINDOWATTRIBUTE enumeration of the Windows dwmapi.h
      header gives each member: the same as `AttributeId` from 20 on, but the
      block before 20 starts at 1 (DWMWA_NCRENDERING_ENABLED = 1), where the
      C# declaration starts it at 0. */
  function NativeAttributeId(a: WindowAttribute): int {
    if AttributeId(a) <= 16 then AttributeId(a) + 1 else AttributeId(a)
  }

  /** As written, every member before `UseImmersiveDarkMode` is one below its
      native number, so a caller passing `Cloak` (12) reaches the attribute
      the window manager numbers 12, which is `ExcludedFromPeek`. */
  lemma AttributeNumberingOffByOne()
    ensures AttributeId(NcRenderingEnabled) == 0 && NativeAttributeId(NcRenderingEnabled) == 1
    ensures AttributeId(Cloak) == NativeAttributeId(ExcludedFromPeek)
    ensures AttributeId(Cloak) != NativeAttributeId(Cloak)
    ensures AttributeFromId(0) == Some(NcRenderingEnabled)
  {
  }

  /** The corrected numbering is injective, never 0, numbers the first block
      1 through 17 in declaration order, and agrees with the declaration on
      every member from `UseImmersiveDarkMode` on, including both attributes
      the library writes. */
  lemma NativeNumbering(a: WindowAttribute, b: WindowAttribute)
    ensures NativeAttributeId(a) == NativeAttributeId(b) ==> a == b
    ensures NativeAttributeId(a) != 0
    ensures AttributeId(a) <= 16 ==> 1 <= NativeAttributeId(a) <= 17
    ensures AttributeId(a) >= 20 ==> NativeAttributeId(a) == AttributeId(a)
    ensures NativeAttributeId(UseImmersiveDarkMode) == 20
    ensures NativeAttributeId(SystemBackdropType) == 38
  {
    AttributeIdInjective(a, b);
    assert AttributeId(a) <= 16 || AttributeId(a) >= 20;
    assert AttributeId(b) <= 16 || AttributeId(b) >= 20;
  }

  /** `DwmSystemBackdropTypeFlgs`. */
  datatype BackdropType =
    | BackdropAuto | BackdropNone | MainWindow | TransientWindow | TabbedWindow

  /** The payload written for a backdrop type: its position in the enum. */
  function Ordinal(k: BackdropType): int {
    match k
    case BackdropAuto => 0
    case BackdropNone => 1
    case MainWindow => 2
    case TransientWindow => 3
    case TabbedWindow => 4
  }

  /** The backdrop type a payload names, if it names one. */
  function BackdropFromOrdinal(n: int): Option<BackdropType> {
    if 0 <= n < 5 then
      Some([BackdropAuto, BackdropNone, MainWindow, TransientWindow, TabbedWindow][n])
    else None
  }

  /** `Ordinal` and `BackdropFromOrdinal` are inverse, in both directions. */
  lemma BackdropOrdinalRoundTrip(k: BackdropType, n: int)
    ensures BackdropFromOrdinal(Ordinal(k)) == Some(k)
    ensures BackdropFromOrdinal(n) == Some(k) <==> Ordinal(k) == n
    ensures 0 <= Ordinal(k) <= 4
  {
  }

  /** The payload of the immersive-dark-mode attribute. */
  function DarkModePayload(dark: bool): int {
    if dark then 1 else 0
  }

  /** A Win32 BOOL payload: any non-zero value is true. */
  function DarkModeFromPayload(p: int): bool {
    p != 0
  }

  lemma DarkModeRoundTrip(dark: bool)
    ensures DarkModeFromPayload(DarkModePayload(dark)) == dark
    ensures DarkModePayload(dark) == 0 || DarkModePayload(dark) == 1
  {
  }

  /** One native effect on a window. `SetAttribute` is one
      `DwmSetWindowAttribute` call with a 4-byte integer payload (its status
      code is discarded by every caller); `SetFormColors` writes ForeColor,
      BackColor and TransparencyKey of the Form; `ClearTransparencyKey` sets
      TransparencyKey to `Color.Empty`. */
  datatype Command =
    | SetAttribute(attribute: WindowAttribute, payload: int)
    | SetFormColors(fore: Color, back: Color, key: Color)
    | ClearTransparencyKey
}
