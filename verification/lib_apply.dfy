/** `LibApply` of EvoraLib.cs. Its attribute encoders are written the same
    way as `FluentApply`'s; its Form encoders cast the handle's control to
    `Form` without checking, so on any other handle they throw before writing
    anything. An `Outcome` records the commands issued and whether the call
    ended by throwing. */
module LibApply {
  import opened Wrappers
  import opened Colors
  import opened Dwm
  import opened Window
  import FluentApply

  datatype Outcome = Outcome(trace: seq<Command>, faulted: bool)

  /** A call that issued `cmds` and returned normally. */
  function Completed(cmds: seq<Command>): Outcome {
    Outcome(cmds, false)
  }

  /** C# statement sequencing: `b` runs only if `a` did not throw. */
  function Then(a: Outcome, b: Outcome): (r: Outcome)
    ensures r.faulted <==> a.faulted || b.faulted
    ensures forall w :: Run(w, r.trace) == if a.faulted then Run(w, a.trace) else Run(Run(w, a.trace), b.trace)
  {
    if a.faulted then a
    else
      var r := Outcome(a.trace + b.trace, b.faulted);
      assert forall w :: Run(w, r.trace) == Run(Run(w, a.trace), b.trace) by {
        forall w { RunAppend(w, a.trace, b.trace); }
      }
      r
  }

  lemma ThenAssociative(a: Outcome, b: Outcome, c: Outcome)
    ensures Then(Then(a, b), c) == Then(a, Then(b, c))
  {
    if !a.faulted && !b.faulted {
      assert (a.trace + b.trace) + c.trace == a.trace + (b.trace + c.trace);
    }
  }

  function ApplyBackdropEffect(kind: BackdropType): (o: Outcome)
    ensures !o.faulted
    ensures forall w :: BackdropAttribute(Run(w, o.trace)) == Some(Ordinal(kind))
    ensures AttributesWritten(o.trace) == {38}
    ensures !WritesFormColors(o.trace) && !WritesKey(o.trace)
  {
    Completed([SetAttribute(SystemBackdropType, Ordinal(kind))])
  }

  function ApplyLightTheme(dark: bool): (o: Outcome)
    ensures !o.faulted
    ensures forall w :: DarkModeAttribute(Run(w, o.trace)) == Some(if dark then 1 else 0)
    ensures AttributesWritten(o.trace) == {20}
    ensures !WritesFormColors(o.trace) && !WritesKey(o.trace)
  {
    Completed([SetAttribute(UseImmersiveDarkMode, if dark then 1 else 0)])
  }

  /** `Apply_Transparent_Form`: on a Form, the same three colour writes as
      the checked variant; on any other handle the cast throws first. */
  function ApplyTransparentForm(h: HandleKind, dark: bool): (o: Outcome)
    ensures o.faulted <==> h == OtherHandle
    ensures h == OtherHandle ==> o.trace == []
    ensures h == FormHandle ==> forall w ::
      && Run(w, o.trace).backColor == Run(w, o.trace).transparencyKey == (if dark then FluentApply.DarkColor else FluentApply.LightColor)
      && Run(w, o.trace).foreColor == (if dark then FluentApply.LightColor else FluentApply.DarkColor)
      && Run(w, o.trace).attributes == w.attributes
  {
    match h
    case FormHandle =>
      Completed([SetFormColors(if dark then FluentApply.LightColor else FluentApply.DarkColor,
                               if dark then FluentApply.DarkColor else FluentApply.LightColor,
                               if dark then FluentApply.DarkColor else FluentApply.LightColor)])
    case OtherHandle => Outcome([], true)
  }

  function CancelBackdropEffect(): (o: Outcome)
    ensures !o.faulted
    ensures forall w :: BackdropAttribute(Run(w, o.trace)) == Some(0)
    ensures AttributesWritten(o.trace) == {38}
    ensures !WritesFormColors(o.trace) && !WritesKey(o.trace)
  {
    Completed([SetAttribute(SystemBackdropType, 0)])
  }

  /** `Cancel_Transparent_Form`: clears the key of a Form; throws otherwise. */
  function CancelTransparentForm(h: HandleKind): (o: Outcome)
    ensures o.faulted <==> h == OtherHandle
    ensures h == OtherHandle ==> o.trace == []
    ensures h == FormHandle ==> forall w :: Run(w, o.trace) == w.(transparencyKey := Empty)
  {
    match h
    case FormHandle => Completed([ClearTransparencyKey])
    case OtherHandle => Outcome([], true)
  }

  /** The two libraries encode every effect identically on a Form; they part
      only on other handles, where `FluentApply` silently does nothing and
      `LibApply` throws. */
  lemma LibMatchesFluentApply(kind: BackdropType, dark: bool, h: HandleKind)
    ensures ApplyBackdropEffect(kind) == Completed(FluentApply.ApplyBackdropEffect(kind))
    ensures ApplyLightTheme(dark) == Completed(FluentApply.ApplyLightTheme(dark))
    ensures CancelBackdropEffect() == Completed(FluentApply.CancelBackdropEffect())
    ensures ApplyTransparentForm(FormHandle, dark) == Completed(FluentApply.ApplyTransparentForm(FormHandle, dark))
    ensures CancelTransparentForm(FormHandle) == Completed(FluentApply.CancelTransparentForm(FormHandle))
    ensures ApplyTransparentForm(OtherHandle, dark).faulted && FluentApply.ApplyTransparentForm(OtherHandle, dark) == []
    ensures CancelTransparentForm(OtherHandle).faulted && FluentApply.CancelTransparentForm(OtherHandle) == []
  {
  }
}
