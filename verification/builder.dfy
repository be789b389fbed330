/** A `Configure()` chain as data: the calls made on one `FluentConfig`, in
    order, and what they leave behind. Every setter overwrites its own
    fields, so each field of the final record is the value of the last call
    that writes it; only `Transparency()`, `NoTransparency()` and `Apply()`
    reach the window. */
module Builder {
  import opened Wrappers
  import opened Dwm
  import opened Registry
  import FluentRegistry
  import C = Config

  datatype Call =
    | AutoBackdropCall | NoneCall | MicaCall | AcrylicCall | TabbedCall
    | AutoCall | DarkCall | LightCall
    | ToTitleBarCall | ToFullWindowCall
    | TransparencyCall | NoTransparencyCall | ApplyCall

  /** One call on the builder. `store` is the registry `Auto()` would read. */
  function Step(s: C.Session, call: Call, store: Store): C.Session {
    match call
    case AutoBackdropCall => s.(config := C.AutoBackdrop(s.config))
    case NoneCall => s.(config := C.None(s.config))
    case MicaCall => s.(config := C.Mica(s.config))
    case AcrylicCall => s.(config := C.Acrylic(s.config))
    case TabbedCall => s.(config := C.Tabbed(s.config))
    case AutoCall => s.(config := C.Auto(s.config, store))
    case DarkCall => s.(config := C.Dark(s.config))
    case LightCall => s.(config := C.Light(s.config))
    case ToTitleBarCall => s.(config := C.ToTitleBar(s.config))
    case ToFullWindowCall => s.(config := C.ToFullWindow(s.config))
    case TransparencyCall =>
      var t := C.Transparency(s.config); C.Session(t.config, s.trace + t.trace)
    case NoTransparencyCall =>
      var t := C.NoTransparency(s.config); C.Session(t.config, s.trace + t.trace)
    case ApplyCall => s.(trace := s.trace + C.Apply(s.config))
  }

  /** A chain of calls, first call first. */
  function Chain(s: C.Session, calls: seq<Call>, store: Store): C.Session
    decreases |calls|
  {
    if |calls| == 0 then s else Chain(Step(s, calls[0], store), calls[1..], store)
  }

  /** The session a `Configure()` call starts. */
  function Start(): C.Session {
    C.Session(C.Configure(), [])
  }

  // Which field each call writes, and with what.

  function KindWrite(call: Call): Option<BackdropType> {
    match call
    case AutoBackdropCall => Some(BackdropAuto)
    case NoneCall => Some(BackdropNone)
    case MicaCall => Some(MainWindow)
    case AcrylicCall => Some(TransientWindow)
    case TabbedCall => Some(TabbedWindow)
    case _ => None
  }

  /** `AutoBackdrop()` is absent here: it does not touch the enabled flag. */
  function EnabledWrite(call: Call): Option<bool> {
    match call
    case NoneCall => Some(false)
    case MicaCall => Some(true)
    case AcrylicCall => Some(true)
    case TabbedCall => Some(true)
    case _ => None
  }

  function ThemeWrite(call: Call, appLight: bool): Option<bool> {
    match call
    case AutoCall => Some(!appLight)
    case DarkCall => Some(true)
    case LightCall => Some(false)
    case _ => None
  }

  function TargetWrite(call: Call): Option<C.Target> {
    match call
    case ToTitleBarCall => Some(C.TitleBar)
    case ToFullWindowCall => Some(C.FullWindow)
    case _ => None
  }

  function TransparencyWrite(call: Call): Option<bool> {
    match call
    case TransparencyCall => Some(true)
    case NoTransparencyCall => Some(false)
    case _ => None
  }

  /** Whether a call commits the configuration to the window. */
  predicate Commits(call: Call) {
    call == TransparencyCall || call == NoTransparencyCall || call == ApplyCall
  }

  /** The value the last writer in `calls` gives, or `init` if none writes. */
  function LastWrite<T>(calls: seq<Call>, write: Call -> Option<T>, init: T): T
    decreases |calls|
  {
    if |calls| == 0 then init
    else match write(calls[|calls| - 1])
      case Some(v) => v
      case None => LastWrite(calls[..|calls| - 1], write, init)
  }

  /** `LastWrite` is what its name says: the value of the last call that
      writes, and `init` when no call writes. */
  lemma {:induction false} LastWriteIsLastWriter<T>(calls: seq<Call>, write: Call -> Option<T>, init: T, i: nat)
    requires i < |calls| && write(calls[i]).Some?
    requires forall j :: i < j < |calls| ==> write(calls[j]).None?
    ensures LastWrite(calls, write, init) == write(calls[i]).value
    decreases |calls|
  {
    if i < |calls| - 1 {
      var pre := calls[..|calls| - 1];
      assert write(calls[|calls| - 1]).None?;
      assert forall j :: i < j < |pre| ==> pre[j] == calls[j];
      LastWriteIsLastWriter(pre, write, init, i);
    }
  }

  lemma {:induction false} LastWriteWithoutWriter<T>(calls: seq<Call>, write: Call -> Option<T>, init: T)
    requires forall j :: 0 <= j < |calls| ==> write(calls[j]).None?
    ensures LastWrite(calls, write, init) == init
    decreases |calls|
  {
    if |calls| > 0 {
      LastWriteWithoutWriter(calls[..|calls| - 1], write, init);
    }
  }

  lemma {:induction false} ChainSnoc(s: C.Session, calls: seq<Call>, call: Call, store: Store)
    ensures Chain(s, calls + [call], store) == Step(Chain(s, calls, store), call, store)
    decreases |calls|
  {
    if |calls| == 0 {
      assert calls + [call] == [call];
    } else {
      assert (calls + [call])[1..] == calls[1..] + [call];
      ChainSnoc(Step(s, calls[0], store), calls[1..], call, store);
    }
  }

  /** One call writes each field it names and keeps every other one. */
  lemma StepWritesFields(s: C.Session, call: Call, store: Store)
    ensures Step(s, call, store).config == C.FluentConfig(
      KindWrite(call).GetOr(s.config.backdropEffect),
      ThemeWrite(call, FluentRegistry.GetAppUseLightTheme(store)).GetOr(s.config.isDark),
      TransparencyWrite(call).GetOr(s.config.transparencyEnabled),
      EnabledWrite(call).GetOr(s.config.backdropEnabled),
      TargetWrite(call).GetOr(s.config.applyTarget))
  {
  }

  /** Last write wins, field by field and independently: the record a chain
      leaves holds, in each field, the value of the last call writing that
      field, or the starting value. */
  lemma {:induction false} ChainIsLastWriteWins(s: C.Session, calls: seq<Call>, store: Store)
    ensures Chain(s, calls, store).config == C.FluentConfig(
      LastWrite(calls, KindWrite, s.config.backdropEffect),
      LastWrite(calls, (c: Call) => ThemeWrite(c, FluentRegistry.GetAppUseLightTheme(store)), s.config.isDark),
      LastWrite(calls, TransparencyWrite, s.config.transparencyEnabled),
      LastWrite(calls, EnabledWrite, s.config.backdropEnabled),
      LastWrite(calls, TargetWrite, s.config.applyTarget))
    decreases |calls|
  {
    if |calls| > 0 {
      var pre := calls[..|calls| - 1];
      var last := calls[|calls| - 1];
      assert calls == pre + [last];
      ChainSnoc(s, pre, last, store);
      ChainIsLastWriteWins(s, pre, store);
      StepWritesFields(Chain(s, pre, store), last, store);
    }
  }

  /** Setters never reach the window: a chain without `Transparency()`,
      `NoTransparency()` or `Apply()` issues no command. */
  lemma {:induction false} SettersAreSilent(s: C.Session, calls: seq<Call>, store: Store)
    requires forall j :: 0 <= j < |calls| ==> !Commits(calls[j])
    ensures Chain(s, calls, store).trace == s.trace
    decreases |calls|
  {
    if |calls| > 0 {
      SettersAreSilent(Step(s, calls[0], store), calls[1..], store);
    }
  }

  /** Each committing call appends exactly the commit of the record as that
      call leaves it. */
  lemma CommitAppendsCommit(s: C.Session, call: Call, store: Store)
    requires Commits(call)
    ensures Step(s, call, store).trace == s.trace + C.Commit(Step(s, call, store).config)
  {
  }

  /** The calls of a chain other than target calls. */
  function WithoutTargetCalls(calls: seq<Call>): (r: seq<Call>)
    ensures forall j :: 0 <= j < |r| ==> TargetWrite(r[j]).None?
    decreases |calls|
  {
    if |calls| == 0 then []
    else if TargetWrite(calls[0]).Some? then WithoutTargetCalls(calls[1..])
    else [calls[0]] + WithoutTargetCalls(calls[1..])
  }

  /** Dropping calls that do not write a field does not change its last
      write. */
  lemma {:induction false} LastWriteSkipsTargetCalls<T>(calls: seq<Call>, write: Call -> Option<T>, init: T)
    requires forall c :: TargetWrite(c).Some? ==> write(c).None?
    ensures LastWrite(WithoutTargetCalls(calls), write, init) == LastWrite(calls, write, init)
    decreases |calls|
  {
    if |calls| > 0 {
      var rest := calls[1..];
      assert calls == [calls[0]] + rest;
      var init' := match write(calls[0]) case Some(v) => v case None => init;
      LastWriteSkipsTargetCalls(rest, write, init');
      LastWriteCons(calls[0], rest, write, init);
      if TargetWrite(calls[0]).None? {
        LastWriteCons(calls[0], WithoutTargetCalls(rest), write, init);
      }
    }
  }

  /** Prepending a call only matters if nothing later overrides it. */
  lemma {:induction false} LastWriteCons<T>(call: Call, rest: seq<Call>, write: Call -> Option<T>, init: T)
    ensures LastWrite([call] + rest, write, init)
         == LastWrite(rest, write, match write(call) case Some(v) => v case None => init)
    decreases |rest|
  {
    var calls := [call] + rest;
    if |rest| > 0 {
      assert calls[..|calls| - 1] == [call] + rest[..|rest| - 1];
      assert calls[|calls| - 1] == rest[|rest| - 1];
      LastWriteCons(call, rest[..|rest| - 1], write, init);
    } else {
      assert calls[..|calls| - 1] == [];
    }
  }

  /** The title-bar target leaves the other settings dormant, not discarded:
      removing every target call from a chain changes its final record in
      the target field only. */
  lemma TargetCallsAreDormant(s: C.Session, calls: seq<Call>, store: Store)
    ensures Chain(s, WithoutTargetCalls(calls), store).config
         == Chain(s, calls, store).config.(applyTarget := s.config.applyTarget)
  {
    var theme := (c: Call) => ThemeWrite(c, FluentRegistry.GetAppUseLightTheme(store));
    ChainIsLastWriteWins(s, calls, store);
    ChainIsLastWriteWins(s, WithoutTargetCalls(calls), store);
    LastWriteSkipsTargetCalls(calls, KindWrite, s.config.backdropEffect);
    LastWriteSkipsTargetCalls(calls, theme, s.config.isDark);
    LastWriteSkipsTargetCalls(calls, TransparencyWrite, s.config.transparencyEnabled);
    LastWriteSkipsTargetCalls(calls, EnabledWrite, s.config.backdropEnabled);
    LastWriteWithoutWriter(WithoutTargetCalls(calls), TargetWrite, s.config.applyTarget);
  }

  /** The two end-to-end chains: `Mica().Dark().ToFullWindow().Apply()`
      commits Mica, dark and a transparency cancellation; `None().Apply()`
      commits a backdrop cancellation, the default dark theme and a
      transparency cancellation. */
  lemma EndToEndChains(store: Store)
    ensures Chain(Start(), [MicaCall, DarkCall, ToFullWindowCall, ApplyCall], store).trace
         == [SetAttribute(SystemBackdropType, 2), SetAttribute(UseImmersiveDarkMode, 1), ClearTransparencyKey]
    ensures Chain(Start(), [NoneCall, ApplyCall], store).trace
         == [SetAttribute(SystemBackdropType, 0), SetAttribute(UseImmersiveDarkMode, 1), ClearTransparencyKey]
  {
  }
}
