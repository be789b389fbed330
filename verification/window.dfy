/** What a command trace does to a window: the attribute values the desktop
    window manager holds for it and the three colours of its Form. This gives
    every trace a meaning, so contracts can speak about the window a trace
    leaves behind rather than about the trace's shape. */
module Window {
  import opened Wrappers
  import opened Colors
  import opened Dwm

  /** What `Control.FromHandle(hwnd)` finds behind a handle: the Form the
      library expects, or anything else (another control, a foreign window). */
  datatype HandleKind = FormHandle | OtherHandle

  /** The observable state of one window. Attributes are keyed by the
      integer the library passes to `DwmSetWindowAttribute`, which is the
      enum member's number as declared (`AttributeId`). */
  datatype WindowState = WindowState(
    attributes: map<int, int>,
    foreColor: Color,
    backColor: Color,
    transparencyKey: Color)

  /** The value last written to attribute `id`, if any. */
  function Lookup(w: WindowState, id: int): Option<int> {
    if id in w.attributes then Some(w.attributes[id]) else None
  }

  function BackdropAttribute(w: WindowState): Option<int> {
    Lookup(w, AttributeId(SystemBackdropType))
  }

  function DarkModeAttribute(w: WindowState): Option<int> {
    Lookup(w, AttributeId(UseImmersiveDarkMode))
  }

  /** One command: every command overwrites, none reads. */
  function Exec(w: WindowState, c: Command): WindowState {
    match c
    case SetAttribute(a, p) => w.(attributes := w.attributes[AttributeId(a) := p])
    case SetFormColors(f, b, k) => w.(foreColor := f, backColor := b, transparencyKey := k)
    case ClearTransparencyKey => w.(transparencyKey := Empty)
  }

  /** A trace, first command first. */
  function Run(w: WindowState, cmds: seq<Command>): WindowState
    decreases |cmds|
  {
    if |cmds| == 0 then w else Run(Exec(w, cmds[0]), cmds[1..])
  }

  /** The attribute identifiers a trace writes. */
  function AttributesWritten(cmds: seq<Command>): set<int>
    decreases |cmds|
  {
    if |cmds| == 0 then {}
    else
      (if cmds[0].SetAttribute? then {AttributeId(cmds[0].attribute)} else {})
      + AttributesWritten(cmds[1..])
  }

  /** Whether a trace writes ForeColor and BackColor. */
  predicate WritesFormColors(cmds: seq<Command>)
    decreases |cmds|
  {
    |cmds| > 0 && (cmds[0].SetFormColors? || WritesFormColors(cmds[1..]))
  }

  /** Whether a trace writes TransparencyKey. */
  predicate WritesKey(cmds: seq<Command>)
    decreases |cmds|
  {
    |cmds| > 0 && (!cmds[0].SetAttribute? || WritesKey(cmds[1..]))
  }

  /** `x` and `y` agree on everything `cmds` does not write. */
  ghost predicate AgreeOutside(x: WindowState, y: WindowState, cmds: seq<Command>) {
    && (forall id :: id !in AttributesWritten(cmds) ==> Lookup(x, id) == Lookup(y, id))
    && (!WritesFormColors(cmds) ==> x.foreColor == y.foreColor && x.backColor == y.backColor)
    && (!WritesKey(cmds) ==> x.transparencyKey == y.transparencyKey)
  }

  /** Running two traces one after the other is running their concatenation. */
  lemma {:induction false} RunAppend(w: WindowState, a: seq<Command>, b: seq<Command>)
    ensures Run(w, a + b) == Run(Run(w, a), b)
    decreases |a|
  {
    if |a| > 0 {
      assert (a + b)[0] == a[0];
      assert (a + b)[1..] == a[1..] + b;
      RunAppend(Exec(w, a[0]), a[1..], b);
    } else {
      assert a + b == b;
    }
  }

  /** What a concatenation writes is what its parts write. */
  lemma {:induction false} WritesAppend(a: seq<Command>, b: seq<Command>)
    ensures AttributesWritten(a + b) == AttributesWritten(a) + AttributesWritten(b)
    ensures WritesFormColors(a + b) <==> WritesFormColors(a) || WritesFormColors(b)
    ensures WritesKey(a + b) <==> WritesKey(a) || WritesKey(b)
    decreases |a|
  {
    if |a| > 0 {
      assert (a + b)[0] == a[0];
      assert (a + b)[1..] == a[1..] + b;
      WritesAppend(a[1..], b);
    } else {
      assert a + b == b;
    }
  }

  /** A trace leaves everything it does not write as it found it. */
  lemma {:induction false} RunFrame(w: WindowState, cmds: seq<Command>)
    ensures AgreeOutside(Run(w, cmds), w, cmds)
    decreases |cmds|
  {
    if |cmds| > 0 {
      RunFrame(Exec(w, cmds[0]), cmds[1..]);
    }
  }

  /** The window a trace leaves depends only on what the trace does not
      overwrite. */
  lemma {:induction false} RunDeterminedOutside(x: WindowState, y: WindowState, cmds: seq<Command>)
    requires AgreeOutside(x, y, cmds)
    ensures Run(x, cmds) == Run(y, cmds)
    decreases |cmds|
  {
    if |cmds| == 0 {
      assert forall id :: Lookup(x, id) == Lookup(y, id);
      assert x.attributes == y.attributes by {
        forall id | id in x.attributes ensures id in y.attributes && x.attributes[id] == y.attributes[id] {
          assert Lookup(x, id) == Lookup(y, id);
        }
        forall id | id in y.attributes ensures id in x.attributes {
          assert Lookup(x, id) == Lookup(y, id);
        }
      }
    } else {
      var x', y' := Exec(x, cmds[0]), Exec(y, cmds[0]);
      forall id | id !in AttributesWritten(cmds[1..])
        ensures Lookup(x', id) == Lookup(y', id)
      {
        if !(cmds[0].SetAttribute? && id == AttributeId(cmds[0].attribute)) {
          assert id !in AttributesWritten(cmds);
          assert Lookup(x, id) == Lookup(y, id);
        }
      }
      RunDeterminedOutside(x', y', cmds[1..]);
    }
  }

  /** Replaying any trace on the window it produced changes nothing: every
      effect the library issues, and every sequence of them, is idempotent. */
  lemma RunIdempotent(w: WindowState, cmds: seq<Command>)
    ensures Run(Run(w, cmds), cmds) == Run(w, cmds)
  {
    RunFrame(w, cmds);
    RunDeterminedOutside(Run(w, cmds), w, cmds);
  }
}
