/** The slice of HKEY_CURRENT_USER both libraries read, and the key and value
    names they read it through. Only DWORD data is modelled: a value is its
    32-bit pattern, which `Convert.ToInt32` turns into the C# `int`. */
module Registry {
  import opened Wrappers

  type Dword = bv32

  /** An open registry key: its value names in enumeration order and the
      data stored under each name. */
  datatype RegistryKey = RegistryKey(valueNames: seq<string>, values: map<string, Dword>)

  /** The subkeys of HKEY_CURRENT_USER that exist, by path. */
  type Store = map<string, RegistryKey>

  const PersonalizeKey: string := "Software\\Microsoft\\Windows\\CurrentVersion\\Themes\\Personalize"
  const AppsUseLightTheme: string := "AppsUseLightTheme"
  const SystemUsesLightTheme: string := "SystemUsesLightTheme"
  const HistoryColorsKey: string := "Software\\Microsoft\\Windows\\CurrentVersion\\Themes\\History\\Colors"
  const DwmKey: string := "Software\\Microsoft\\Windows\\DWM"
  const AccentColor: string := "AccentColor"
  const ColorizationColor: string := "ColorizationColor"
  const ColorizationAfterglow: string := "ColorizationAfterglow"

  /** `Registry.CurrentUser.OpenSubKey(path)`: `None` stands for null. */
  function OpenSubKey(store: Store, path: string): Option<RegistryKey> {
    if path in store then Some(store[path]) else None
  }

  /** `key?.GetValue(name)`: absent when either the key or the value is. */
  function GetValue(store: Store, path: string, name: string): Option<Dword> {
    match OpenSubKey(store, path)
    case None => None
    case Some(k) => if name in k.values then Some(k.values[name]) else None
  }
}

/** `FluentRegistry` of WinFormsFluentLib.cs: absent data decodes to false and
    to `Color.Empty`. */
module FluentRegistry {
  import opened Wrappers
  import opened Colors
  import opened Registry

  /** `GetValueToBoolean`: true exactly for a present, non-zero value. */
  function GetValueToBoolean(value: Option<Dword>): (b: bool)
    ensures value == None ==> !b
    ensures value.Some? ==> (b <==> value.value != 0)
  {
    value != None && value.value != 0
  }

  /** `GetValueToColor`: a present value packs a colour; absence is `Empty`. */
  function GetValueToColor(value: Option<Dword>): (c: Color)
    ensures c == Empty <==> value == None
    ensures value.Some? ==> ToArgb(c) == value.value
  {
    match value
    case Some(v) => FromArgb(v)
    case None => Empty
  }

  /** What a writer would store for a colour: nothing for `Empty`. */
  function StoredColor(c: Color): Option<Dword> {
    match c
    case Empty => None
    case Packed(v) => Some(v)
  }

  /** The colour decoding loses nothing: every colour survives being stored
      and read back, `Empty` included. */
  lemma ColorRoundTrip(c: Color, value: Option<Dword>)
    ensures GetValueToColor(StoredColor(c)) == c
    ensures StoredColor(GetValueToColor(value)) == value
  {
  }

  function GetAppUseLightTheme(store: Store): (light: bool)
    ensures light <==> GetValue(store, PersonalizeKey, AppsUseLightTheme).Some?
                       && GetValue(store, PersonalizeKey, AppsUseLightTheme).value != 0
  {
    GetValueToBoolean(GetValue(store, PersonalizeKey, AppsUseLightTheme))
  }

  function GetSysUseLightTheme(store: Store): (light: bool)
    ensures light <==> GetValue(store, PersonalizeKey, SystemUsesLightTheme).Some?
                       && GetValue(store, PersonalizeKey, SystemUsesLightTheme).value != 0
  {
    GetValueToBoolean(GetValue(store, PersonalizeKey, SystemUsesLightTheme))
  }

  function GetAccentColor(store: Store): (c: Color)
    ensures c == Empty <==> GetValue(store, DwmKey, AccentColor) == None
    ensures GetValue(store, DwmKey, AccentColor).Some? ==> c == FromArgb(GetValue(store, DwmKey, AccentColor).value)
    ensures StoredColor(c) == GetValue(store, DwmKey, AccentColor)
  {
    GetValueToColor(GetValue(store, DwmKey, AccentColor))
  }

  function GetColorizationColor(store: Store): (c: Color)
    ensures c == Empty <==> GetValue(store, DwmKey, ColorizationColor) == None
    ensures GetValue(store, DwmKey, ColorizationColor).Some? ==> c == FromArgb(GetValue(store, DwmKey, ColorizationColor).value)
    ensures StoredColor(c) == GetValue(store, DwmKey, ColorizationColor)
  {
    GetValueToColor(GetValue(store, DwmKey, ColorizationColor))
  }

  function GetColorizationAfterglow(store: Store): (c: Color)
    ensures c == Empty <==> GetValue(store, DwmKey, ColorizationAfterglow) == None
    ensures GetValue(store, DwmKey, ColorizationAfterglow).Some? ==> c == FromArgb(GetValue(store, DwmKey, ColorizationAfterglow).value)
    ensures StoredColor(c) == GetValue(store, DwmKey, ColorizationAfterglow)
  {
    GetValueToColor(GetValue(store, DwmKey, ColorizationAfterglow))
  }

  /** With no Personalize key, or no AppsUseLightTheme value in it, the app
      theme reads as not light. */
  lemma MissingThemeReadsDark(store: Store)
    requires PersonalizeKey !in store || AppsUseLightTheme !in store[PersonalizeKey].values
    ensures !GetAppUseLightTheme(store)
  {
  }

  /** `GetHistoryColors`: null (`None`) without the History\Colors key, otherwise one
      colour per value name, in the order the names are enumerated. */
  method GetHistoryColors(store: Store) returns (r: Option<seq<Color>>)
    ensures r.None? <==> HistoryColorsKey !in store
    ensures r.Some? ==> |r.value| == |store[HistoryColorsKey].valueNames|
    ensures r.Some? ==> forall i :: 0 <= i < |r.value| ==>
      r.value[i] == GetValueToColor(GetValue(store, HistoryColorsKey, store[HistoryColorsKey].valueNames[i]))
  {
    var subKey := OpenSubKey(store, HistoryColorsKey);
    if subKey == None {
      return None;
    }
    var names := subKey.value.valueNames;
    var colorList: seq<Color> := [];
    var i := 0;
    while i < |names|
      invariant 0 <= i <= |names|
      invariant |colorList| == i
      invariant forall j :: 0 <= j < i ==> colorList[j] == GetValueToColor(GetValue(store, HistoryColorsKey, names[j]))
    {
      colorList := colorList + [GetValueToColor(GetValue(store, HistoryColorsKey, names[i]))];
      i := i + 1;
    }
    return Some(colorList);
  }
}

/** `LibRegistry` of EvoraLib.cs: absent data goes through
    `Convert.ToInt32(null)`, which is 0, so a missing colour reads as
    `FromArgb(0)` (transparent black) rather than `Color.Empty`. */
module LibRegistry {
  import opened Wrappers
  import opened Colors
  import opened Registry
  import FluentRegistry

  /** `Convert.ToInt32` of a registry object: null converts to 0. */
  function ToInt32(value: Option<Dword>): Dword {
    value.GetOr(0)
  }

  /** `GetValueToBoolean`: `default != Convert.ToInt32(value)`. */
  function GetValueToBoolean(value: Option<Dword>): (b: bool)
    ensures value == None ==> !b
    ensures value.Some? ==> (b <==> value.value != 0)
  {
    0 != ToInt32(value)
  }

  /** `GetValueToColor`: never `Empty`; absence is transparent black. */
  function GetValueToColor(value: Option<Dword>): (c: Color)
    ensures c != Empty
    ensures ToArgb(c) == if value.Some? then value.value else 0
  {
    FromArgb(ToInt32(value))
  }

  /** The boolean decoders of the two libraries agree on every input; the
      colour decoders agree on every present value and differ exactly on the
      absent one, where this library cannot tell absence from a stored 0. */
  lemma DecodersAgainstFluent(value: Option<Dword>)
    ensures GetValueToBoolean(value) == FluentRegistry.GetValueToBoolean(value)
    ensures GetValueToColor(value) == FluentRegistry.GetValueToColor(value) <==> value.Some?
    ensures GetValueToColor(None) == GetValueToColor(Some(0))
    ensures FluentRegistry.GetValueToColor(None) != FluentRegistry.GetValueToColor(Some(0))
  {
  }

  function GetAppUseLightTheme(store: Store): (light: bool)
    ensures light == FluentRegistry.GetAppUseLightTheme(store)
  {
    GetValueToBoolean(GetValue(store, PersonalizeKey, AppsUseLightTheme))
  }

  function GetSysUseLightTheme(store: Store): (light: bool)
    ensures light == FluentRegistry.GetSysUseLightTheme(store)
  {
    GetValueToBoolean(GetValue(store, PersonalizeKey, SystemUsesLightTheme))
  }

  function GetAccentColor(store: Store): (c: Color)
    ensures c != Empty
    ensures GetValue(store, DwmKey, AccentColor) == None ==> c == FromArgb(0)
    ensures GetValue(store, DwmKey, AccentColor).Some? ==> ToArgb(c) == GetValue(store, DwmKey, AccentColor).value
  {
    GetValueToColor(GetValue(store, DwmKey, AccentColor))
  }

  function GetColorizationColor(store: Store): (c: Color)
    ensures c != Empty
    ensures GetValue(store, DwmKey, ColorizationColor) == None ==> c == FromArgb(0)
    ensures GetValue(store, DwmKey, ColorizationColor).Some? ==> ToArgb(c) == GetValue(store, DwmKey, ColorizationColor).value
  {
    GetValueToColor(GetValue(store, DwmKey, ColorizationColor))
  }

  function GetColorizationAfterglow(store: Store): (c: Color)
    ensures c != Empty
    ensures GetValue(store, DwmKey, ColorizationAfterglow) == None ==> c == FromArgb(0)
    ensures GetValue(store, DwmKey, ColorizationAfterglow).Some? ==> ToArgb(c) == GetValue(store, DwmKey, ColorizationAfterglow).value
  {
    GetValueToColor(GetValue(store, DwmKey, ColorizationAfterglow))
  }

  /** The three colour queries of the two libraries return the same colour
      whenever the value is stored, and differ exactly when it is absent. */
  lemma ColorQueriesAgainstFluent(store: Store)
    ensures GetAccentColor(store) == FluentRegistry.GetAccentColor(store)
            <==> GetValue(store, DwmKey, AccentColor).Some?
    ensures GetColorizationColor(store) == FluentRegistry.GetColorizationColor(store)
            <==> GetValue(store, DwmKey, ColorizationColor).Some?
    ensures GetColorizationAfterglow(store) == FluentRegistry.GetColorizationAfterglow(store)
            <==> GetValue(store, DwmKey, ColorizationAfterglow).Some?
  {
    DecodersAgainstFluent(GetValue(store, DwmKey, AccentColor));
    DecodersAgainstFluent(GetValue(store, DwmKey, ColorizationColor));
    DecodersAgainstFluent(GetValue(store, DwmKey, ColorizationAfterglow));
  }

  /** `GetHistoryColors`: same shape as the other library's, with this
      library's colour decoding (so no entry is ever `Empty`). */
  method GetHistoryColors(store: Store) returns (r: Option<seq<Color>>)
    ensures r.None? <==> HistoryColorsKey !in store
    ensures r.Some? ==> |r.value| == |store[HistoryColorsKey].valueNames|
    ensures r.Some? ==> forall i :: 0 <= i < |r.value| ==>
      r.value[i] == GetValueToColor(GetValue(store, HistoryColorsKey, store[HistoryColorsKey].valueNames[i]))
    ensures r.Some? ==> forall i :: 0 <= i < |r.value| ==> r.value[i] != Empty
  {
    var subKey := OpenSubKey(store, HistoryColorsKey);
    if subKey == None {
      return None;
    }
    var names := subKey.value.valueNames;
    var colorList: seq<Color> := [];
    var i := 0;
    while i < |names|
      invariant 0 <= i <= |names|
      invariant |colorList| == i
      invariant forall j :: 0 <= j < i ==> colorList[j] == GetValueToColor(GetValue(store, HistoryColorsKey, names[j]))
    {
      colorList := colorList + [GetValueToColor(GetValue(store, HistoryColorsKey, names[i]))];
      i := i + 1;
    }
    return Some(colorList);
  }
}
