# WinForms.Fluent: effect resolver, attribute codec and theme queries in Dafny

This project models the logic of WinForms.Fluent and its sibling library
Evora.FluentForms. Both let a WinForms `Form` request "Fluent Design" effects:
a Mica, Acrylic or Tabbed backdrop, a dark or light title bar, and
pseudo-transparency through a colour key. The libraries turn each request into
a fixed sequence of native writes on the window. They also read a few
personalisation values from the registry.

The native side is a trace of abstract commands (`Dwm.Command`):
- `SetAttribute(attribute, payload)` is one `DwmSetWindowAttribute` call.
- `SetFormColors(fore, back, key)` writes the Form's ForeColor, BackColor and TransparencyKey.
- `ClearTransparencyKey` sets the TransparencyKey to `Color.Empty`.

`Window.Run` interprets a trace on an abstract window: the attribute values the
window manager holds, plus the three Form colours. Most contracts use it to say
what a window looks like after a call, not how the trace is shaped.

Modules, following the source files:
- `Colors`: `Color` (the `Empty` sentinel, or a packed `bv32` ARGB value), `CalcIsColorLight` and `CalcTransparentColor`. Both libraries define these two helpers with the same body.
- `Dwm`: the `DwmSetWindowAttributeFlags` and `DwmSystemBackdropTypeFlgs` enums with their integer values, and the command type.
- `Window`: trace semantics, plus a generic proof that replaying a trace is idempotent.
- `FluentApply`: the five encoders of WinFormsFluentLib.cs. `LibApply`: those of EvoraLib.cs, whose unchecked `(Form)` cast becomes an `Outcome` with a `faulted` flag. `Then` composes outcomes the way C# statements run.
- `Registry`, `FluentRegistry`, `LibRegistry`: the registry store (subkey path to value names and DWORD data) and the two libraries' decoders.
- `Theme`, `Config`, `Builder`: `FluentConfig` of Fluent.cs. `Config` holds the record, its setters and the commit (`ApplyInternal`). `Builder` models a chain of builder calls and proves that each field follows last-write-wins.
- `Presets`: the one-shot presets of Fluent.cs (`Mica`/`Acrylic`/`Tabbed` in all overloads, `Auto`, `Reset`).
- `Extensions`: the extension methods of FluentExtensions.cs (the Evora variant).

Some behaviours of the code worth knowing, each stated by the model:
- An absent `AppsUseLightTheme` value reads as *not* light (`GetValueToBoolean` returns false). So the auto theme is dark when the value is missing.
- `GetHistoryColors` returns null (`None`), not an empty list, when the Colors key is missing.
- Cancelling the backdrop writes payload 0, which is `DWMSBT_AUTO`. It is not `DWMSBT_NONE` (1). `FluentApply.CancelBackdropIsAuto` states this.
- Fluent.cs resolves the auto theme in one way only: `isDark = !appLight`.
- A trace entry `SetAttribute(a, p)` lands at the integer the code passes, `(int)a` as declared (`Dwm.AttributeId`). The only attributes the library writes are 20 and 38, where the declared and native numbering coincide (`Dwm.NativeNumbering`).

## Model

| member | source | states |
|---|---|---|
| Colors.ThresholdBoundary | WinFormsFluentLib.cs:129-132 | mid-grey (128,128,128) has luminance exactly 8*128 and is dark; one step bluer is light; Empty and black are dark, white is light |
| Colors.LightIsMonotone | EvoraLib.cs:75-78 | brightening any channel never turns a light colour dark |
| Colors.TransparentColorChannels | WinFormsFluentLib.cs:134-137 | alpha, red and green are kept; only the low bit of blue may be set; R != B gives the colour back unchanged, R == B gives packed value OR 1 |
| Colors.TransparentColorIsKeySafe | EvoraLib.cs:83-86 | every result has R != B or an odd blue; the fixed points are exactly the colours with R != B and the non-empty ones with odd blue |
| Colors.TransparentColorIdempotent | WinFormsFluentLib.cs:134-137 | applying CalcTransparentColor twice equals applying it once |
| Dwm.AttributeIdRoundTrip | WinFormsFluentLib.cs:81-109 | decoding an attribute's integer gives the attribute back, and an integer decodes to a member exactly when it is that member's number |
| Dwm.AttributeIdInjective | EvoraLib.cs:23-51 | no two attribute members share an integer |
| Dwm.AttributeNumberingOffByOne | WinFormsFluentLib.cs:83-99 | as declared, DWM_NCRENDERING_ENABLED is 0 (native 1), and DWM_CLOAK carries the native number of DWM_EXCLUDED_FROM_PEEK |
| Dwm.NativeNumbering | WinFormsFluentLib.cs:100-106 | the corrected numbering is injective and never 0; it agrees with the declaration from 20 on, so 20 (dark mode) and 38 (system backdrop) are unchanged |
| Dwm.BackdropOrdinalRoundTrip | WinFormsFluentLib.cs:111-123 | backdrop types AUTO..TABBEDWINDOW are 0..4 and decoding an ordinal inverts the numbering in both directions |
| Dwm.DarkModeRoundTrip | WinFormsFluentLib.cs:30-34 | the dark flag is written as 1 or 0 and reads back as the same flag |
| Window.RunIdempotent | WinFormsFluentLib.cs:23-55 | every trace of overwriting writes leaves the same window when replayed on its own result |
| Window.RunFrame | WinFormsFluentLib.cs:23-55 | a trace leaves every attribute and colour it does not write as it found it |
| FluentApply.ApplyBackdropEffect | WinFormsFluentLib.cs:24-28 | attribute 38 ends up holding the backdrop type's ordinal; nothing else is written |
| FluentApply.ApplyLightTheme | WinFormsFluentLib.cs:30-34 | attribute 20 ends up 1 for dark and 0 for light and reads back as the flag; nothing else is written |
| FluentApply.ApplyTransparentForm | WinFormsFluentLib.cs:36-41 | on a Form, BackColor = TransparencyKey = DarkColor (dark) or LightColor (light) and ForeColor is the other sentinel; attributes untouched; on any other handle nothing changes |
| FluentApply.CancelBackdropEffect | WinFormsFluentLib.cs:43-47 | attribute 38 ends up 0; nothing else is written |
| FluentApply.CancelTransparentForm | WinFormsFluentLib.cs:49-55 | on a Form only TransparencyKey changes, to Empty; on any other handle nothing changes |
| FluentApply.CancelBackdropIsAuto | WinFormsFluentLib.cs:43-47 | cancelling is the same write as selecting DWMSBT_AUTO and differs from selecting DWMSBT_NONE |
| FluentApply.CancelAfterApplyBackdrop | WinFormsFluentLib.cs:24-47 | apply-then-cancel leaves attribute 38 at 0, the same window as cancelling alone |
| FluentApply.TransparentFormContrast | WinFormsFluentLib.cs:18-21 | the background sentinel is dark exactly in dark mode and the foreground light exactly in dark mode; the key is a fixed point of CalcTransparentColor |
| FluentApply.CancelAfterApplyTransparency | WinFormsFluentLib.cs:36-55 | apply-then-cancel on a Form clears the key and keeps the sentinel BackColor and ForeColor |
| LibApply.Then | FluentExtensions.cs:83-87 | sequencing two calls faults iff either faults; the window is the second run on the first's result unless the first threw |
| LibApply.ApplyBackdropEffect | EvoraLib.cs:102-107 | never throws; attribute 38 ends up holding the ordinal; nothing else is written |
| LibApply.ApplyLightTheme | EvoraLib.cs:109-114 | never throws; attribute 20 ends up 1 or 0; nothing else is written |
| LibApply.ApplyTransparentForm | EvoraLib.cs:116-122 | throws, writing nothing, iff the handle is not a Form; on a Form, the same colours as the checked variant |
| LibApply.CancelBackdropEffect | EvoraLib.cs:124-129 | never throws; attribute 38 ends up 0 |
| LibApply.CancelTransparentForm | EvoraLib.cs:131-135 | throws iff the handle is not a Form; on a Form only the key changes, to Empty |
| LibApply.LibMatchesFluentApply | EvoraLib.cs:102-135 | on a Form both libraries issue identical commands for all five effects; on other handles LibApply throws where FluentApply does nothing |
| FluentRegistry.GetValueToBoolean | WinFormsFluentLib.cs:212-217 | absent gives false, present gives value != 0 |
| FluentRegistry.GetValueToColor | WinFormsFluentLib.cs:219-224 | absent gives Empty and only absent does; present packs the DWORD unchanged |
| FluentRegistry.ColorRoundTrip | WinFormsFluentLib.cs:219-224 | storing a colour and decoding it gives it back, Empty included, and the other way round |
| FluentRegistry.MissingThemeReadsDark | WinFormsFluentLib.cs:172-175 | with no Personalize key or no AppsUseLightTheme value, the app theme is not light |
| FluentRegistry.GetAppUseLightTheme | WinFormsFluentLib.cs:172-175 | true exactly when Personalize\AppsUseLightTheme is present and non-zero |
| FluentRegistry.GetSysUseLightTheme | WinFormsFluentLib.cs:178-181 | true exactly when Personalize\SystemUsesLightTheme is present and non-zero |
| FluentRegistry.GetAccentColor | WinFormsFluentLib.cs:197-200 | Empty exactly when DWM\AccentColor is absent, otherwise FromArgb of the stored DWORD; storing the result gives back exactly the registry entry |
| FluentRegistry.GetColorizationColor | WinFormsFluentLib.cs:202-205 | Empty exactly when DWM\ColorizationColor is absent, otherwise FromArgb of the stored DWORD; storing the result gives back exactly the registry entry |
| FluentRegistry.GetColorizationAfterglow | WinFormsFluentLib.cs:207-210 | Empty exactly when DWM\ColorizationAfterglow is absent, otherwise FromArgb of the stored DWORD; storing the result gives back exactly the registry entry |
| FluentRegistry.GetHistoryColors | WinFormsFluentLib.cs:184-194 | null iff the Colors key is missing; otherwise one decoded colour per value name, in name order |
| LibRegistry.GetValueToBoolean | EvoraLib.cs:225-229 | absent converts to 0 and gives false; present gives value != 0 |
| LibRegistry.GetValueToColor | EvoraLib.cs:232-236 | never Empty; absent decodes as FromArgb(0) |
| LibRegistry.DecodersAgainstFluent | EvoraLib.cs:225-236 | the boolean decoders of the two libraries agree on every input; the colour decoders agree exactly on present values, and this one cannot tell absent from a stored 0 |
| LibRegistry.GetAppUseLightTheme | EvoraLib.cs:182-185 | equals the other library's app-light flag on every store |
| LibRegistry.GetSysUseLightTheme | EvoraLib.cs:188-191 | equals the other library's system-light flag on every store |
| LibRegistry.GetAccentColor | EvoraLib.cs:207-210 | never Empty; FromArgb(0) when DWM\AccentColor is absent; a stored DWORD comes back as the colour's ARGB value |
| LibRegistry.GetColorizationColor | EvoraLib.cs:213-216 | never Empty; FromArgb(0) when absent; a stored DWORD comes back as the colour's ARGB value |
| LibRegistry.GetColorizationAfterglow | EvoraLib.cs:219-222 | never Empty; FromArgb(0) when absent; a stored DWORD comes back as the colour's ARGB value |
| LibRegistry.ColorQueriesAgainstFluent | EvoraLib.cs:207-222 | each colour query agrees with the other library's exactly when its value is stored |
| LibRegistry.GetHistoryColors | EvoraLib.cs:194-204 | null iff the Colors key is missing; otherwise one colour per value name, in order, none of them Empty |
| Config.Commit | Fluent.cs:312-342 | title bar: only attribute 20 changes, to the theme; full window: attribute 38 is the kind's ordinal if enabled and 0 if not, attribute 20 the theme, the key is the background sentinel if transparency is on and Empty if off, and Back/ForeColor are the sentinels or left alone; exactly 1 or 3 commands |
| Config.CommitOrder | Fluent.cs:314-341 | full window: backdrop-or-cancel, then theme, then transparency-or-cancel; title bar: the theme write alone |
| Config.TitleBarIgnoresDormantFields | Fluent.cs:314-318 | on the title bar the commit does not depend on backdrop or transparency settings and writes neither attribute 38 nor any colour |
| Config.TargetRoundTrip | Fluent.cs:272-283 | ToTitleBar then ToFullWindow is ToFullWindow alone, so a full-window commit comes back unchanged |
| Config.AutoThemeSign | Fluent.cs:249-253 | Auto() sets isDark exactly when the app theme is not light, i.e. it is Light() or Dark() by the flag |
| Config.AutoBackdropAfterNone | Fluent.cs:208-220 | AutoBackdrop() after None() leaves the backdrop disabled; the commit still writes payload 0, DWMSBT_AUTO's ordinal |
| Config.DefaultCommit | Fluent.cs:194-198 | a fresh configuration commits Mica (2), dark (1) and an empty key |
| Config.Transparency | Fluent.cs:288-293 | sets the flag and immediately commits the updated record |
| Config.NoTransparency | Fluent.cs:296-301 | clears the flag and immediately commits the updated record |
| Config.Apply | Fluent.cs:306-309 | the window after Apply() is the commit outcome of the record |
| Builder.ChainIsLastWriteWins | Fluent.cs:208-283 | after any chain of calls each field holds the value of the last call that writes it; AutoBackdrop() never writes the enabled flag |
| Builder.TargetCallsAreDormant | Fluent.cs:272-283 | removing every target call from a chain changes only the final target, so switching back to the full window brings back the earlier settings |
| Builder.SettersAreSilent | Fluent.cs:208-283 | a chain without Transparency/NoTransparency/Apply issues no command |
| Builder.CommitAppendsCommit | Fluent.cs:288-309 | each committing call appends exactly the commit of the record as it leaves it |
| Builder.EndToEndChains | Fluent.cs:223-341 | Mica().Dark().ToFullWindow().Apply() writes 38=2, 20=1, clears the key; None().Apply() writes 38=0, 20=1, clears the key |
| Presets.ResolveTheme | Fluent.cs:28-43 | detecting overloads use the negated app-light flag; explicit overloads use their argument |
| Presets.Preset | Fluent.cs:61-74 | title bar: only attribute 20 changes; full window: 38 = kind's ordinal, 20 = theme, key = BackColor = background sentinel, ForeColor = foreground sentinel |
| Presets.Mica | Fluent.cs:29-74 | full window writes backdrop 2; title bar never writes the backdrop |
| Presets.Acrylic | Fluent.cs:77-122 | full window writes backdrop 3; title bar never writes the backdrop |
| Presets.Tabbed | Fluent.cs:125-170 | full window writes backdrop 4; title bar never writes the backdrop |
| Presets.Auto | Fluent.cs:173-177 | attribute 20 ends up 0 when the app theme is light and 1 otherwise |
| Presets.AutoIsDetectingMica | Fluent.cs:173-177 | Auto(form) issues exactly what the detecting Mica(form) issues |
| Presets.Reset | Fluent.cs:180-184 | attribute 38 ends up 0 and the key Empty; no theme write, Back/ForeColor untouched |
| Presets.PresetIsBuilderChain | Fluent.cs:46-74 | each Mica/Acrylic/Tabbed preset issues exactly the commands of Configure().Kind().Theme().Target().Transparency() |
| Presets.ResetAfterPreset | Fluent.cs:180-184 | Reset after a full-window preset removes backdrop and key but leaves the preset's BackColor |
| Extensions.ApplyMicaEffect | FluentExtensions.cs:17-20 | never throws; attribute 38 ends up holding the ordinal |
| Extensions.ApplyTheme | FluentExtensions.cs:28-31 | never throws; attribute 20 reads back as the argument |
| Extensions.ApplyTransparency | FluentExtensions.cs:39-42 | the dark flag passes through unchanged: key and BackColor are that theme's background sentinel, ForeColor the other one |
| Extensions.ApplyAuto | FluentExtensions.cs:50-56 | never throws; 38 = ordinal and 20 reads back as the negated app-light flag |
| Extensions.RemoveMicaEffect | FluentExtensions.cs:63-66 | never throws; attribute 38 ends up 0 |
| Extensions.RemoveTransparency | FluentExtensions.cs:73-76 | never throws; only the key changes, to Empty |
| Extensions.RemoveAuto | FluentExtensions.cs:83-87 | backdrop 0 and key Empty, with no theme write |
| Extensions.UpdateTheme | FluentExtensions.cs:94-99 | attribute 20 ends up as the payload of the detected theme (!appLight); key and BackColor become its background sentinel and ForeColor the other one; attribute 38 is never written or changed |
| Extensions.ApplyAutoIsMicaThenUpdate | FluentExtensions.cs:50-56 | ApplyAuto equals ApplyMicaEffect followed by UpdateTheme |
| Extensions.ExtensionsMatchPresets | FluentExtensions.cs:50-87 | ApplyAuto issues the same commands as the detecting full-window preset of Fluent.cs, and RemoveAuto the same as Reset |
| Extensions.Defaults | FluentExtensions.cs:17-31 | the default backdrop is Mica (2) and the default theme is light (0), with the light BackColor |

## Left out

- The `DwmSetWindowAttribute` call itself and its status code, which every caller discards. Each call is a trace entry, and no failure is modelled.
- Registry I/O. `Registry.Store` is a parameter holding the DWORD values. Values of other registry types, which `Convert.ToInt32` would parse or reject, are not modelled.
- The WinForms object model (`Form`, `Control.FromHandle`, `form.Handle`). A handle is `FormHandle` or `OtherHandle`, and a Form is its three written colours. The Fluent.cs builder and presets and the FluentExtensions.cs methods always act on a Form's own handle.
- Values outside a C# enum's declared members, which a cast could produce. Only declared members are modelled.
- `FluentSymbol`/`LibSymbol`, which render bitmaps and fonts with GDI+ and floating-point text measurement.
- `About_Method_Description`/`About_Enum_Description` and the `[Description]` attributes. They are runtime reflection with no behaviour to state.
- GUI thread affinity. The model is single-threaded.
- Named and known colours of `System.Drawing.Color`. A colour is `Empty` or a packed ARGB value, which covers every colour this code builds.
- `LightColor`/`DarkColor` are mutable `public static` fields, one pair per library. The model fixes them at their initial values and both libraries share one pair, so `FluentApply.TransparentFormContrast` and `LibApply.LibMatchesFluentApply` hold only while neither program reassigns them.
- The encoders' default arguments (`BackdropFlag = DWMSBT_MAINWINDOW`, `Dark = false`). Every call in the model passes its argument explicitly; the same defaults of FluentExtensions.cs are stated by `Extensions.Defaults`.
- Presets.Mica: its own contract states only the backdrop payload and the title-bar case. The full effect is stated by `Presets.Preset`, which it instantiates with Mica. The same holds for Presets.Acrylic and Presets.Tabbed.
- Presets.Acrylic: as for Presets.Mica, with backdrop 3.
- Presets.Tabbed: as for Presets.Mica, with backdrop 4.

## Findings

| source | as written | input that shows it | evidently intended | confidence | as-written member | corrected member |
|---|---|---|---|---|---|---|
| WinFormsFluentLib.cs:83-99 (same at EvoraLib.cs:25-41) | the first 17 members of `DwmSetWindowAttributeFlags` are implicitly numbered from 0 | `DWM_NCRENDERING_ENABLED` is 0 and `DWM_CLOAK` is 12; in the DWMWINDOWATTRIBUTE enumeration of dwmapi.h they are 1 and 13, and 12 is DWMWA_EXCLUDED_FROM_PEEK | the block starts at 1, as DWMWA_NCRENDERING_ENABLED = 1 does in dwmapi.h; the library's own writes (20 and 38) are unaffected | medium, not executed | Dwm.AttributeNumberingOffByOne | Dwm.NativeNumbering |
