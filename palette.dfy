/**
 * The colour palette of the options page: the eight-field `ColorSettings`
 * record, the constant default palette `DEFAULT_COLORS`, and the conversion
 * between the record and the JSON object that is stored and sent to tabs.
 */
module Palette {
  import opened Wrappers
  import opened HexColor
  import opened Json

  datatype ColorKey =
    | BackgroundColor | SurfaceColor | ContainerColor | InputBackground
    | BorderColor | TextPrimary | TextSecondary | AccentColor

  /** The property name of each field, as written in the `ColorSettings` interface. */
  function KeyName(k: ColorKey): string {
    match k
    case BackgroundColor => "backgroundColor"
    case SurfaceColor => "surfaceColor"
    case ContainerColor => "containerColor"
    case InputBackground => "inputBackground"
    case BorderColor => "borderColor"
    case TextPrimary => "textPrimary"
    case TextSecondary => "textSecondary"
    case AccentColor => "accentColor"
  }

  /** The field order of the record, which is also its property order in JSON. */
  const AllKeys: seq<ColorKey> := [
    BackgroundColor, SurfaceColor, ContainerColor, InputBackground,
    BorderColor, TextPrimary, TextSecondary, AccentColor
  ]

  /** The position of a field in the record. */
  function IndexOf(k: ColorKey): (i: nat)
    ensures i < |AllKeys| && AllKeys[i] == k
  {
    match k
    case BackgroundColor => 0
    case SurfaceColor => 1
    case ContainerColor => 2
    case InputBackground => 3
    case BorderColor => 4
    case TextPrimary => 5
    case TextSecondary => 6
    case AccentColor => 7
  }

  /** `IndexOf` undoes indexing, so the eight keys are distinct. */
  lemma KeysDistinct(i: nat, j: nat)
    requires i < j < |AllKeys|
    ensures AllKeys[i] != AllKeys[j]
  {
    assert IndexOf(AllKeys[i]) == i && IndexOf(AllKeys[j]) == j;
  }

  /** The property names of `ColorSettings`. */
  const KeyNames: set<string> := set i | 0 <= i < |AllKeys| :: KeyName(AllKeys[i])

  lemma KeyNamesDistinct()
    ensures forall k, j :: KeyName(k) == KeyName(j) ==> k == j
    ensures forall k :: KeyName(k) in KeyNames
  {
    forall k ensures KeyName(k) in KeyNames {
      assert KeyName(AllKeys[IndexOf(k)]) in KeyNames;
    }
  }

  datatype ColorSettings = ColorSettings(
    backgroundColor: string,
    surfaceColor: string,
    containerColor: string,
    inputBackground: string,
    borderColor: string,
    textPrimary: string,
    textSecondary: string,
    accentColor: string)
  {
    /** `settings[key]` */
    function Get(k: ColorKey): string {
      match k
      case BackgroundColor => backgroundColor
      case SurfaceColor => surfaceColor
      case ContainerColor => containerColor
      case InputBackground => inputBackground
      case BorderColor => borderColor
      case TextPrimary => textPrimary
      case TextSecondary => textSecondary
      case AccentColor => accentColor
    }

    /** `{ ...settings, [key]: value }`: the one field changes, the other seven stay. */
    function With(k: ColorKey, value: string): (r: ColorSettings)
      ensures r.Get(k) == value
      ensures forall j :: j != k ==> r.Get(j) == Get(j)
    {
      match k
      case BackgroundColor => this.(backgroundColor := value)
      case SurfaceColor => this.(surfaceColor := value)
      case ContainerColor => this.(containerColor := value)
      case InputBackground => this.(inputBackground := value)
      case BorderColor => this.(borderColor := value)
      case TextPrimary => this.(textPrimary := value)
      case TextSecondary => this.(textSecondary := value)
      case AccentColor => this.(accentColor := value)
    }

    /** The record as a JSON object: one property per field, in declaration order. */
    function Entries(): seq<Entry> {
      seq(|AllKeys|, i requires 0 <= i < |AllKeys| => (KeyName(AllKeys[i]), Get(AllKeys[i])))
    }
  }

  /** Two records that agree on every field are the same record. */
  lemma SettingsExtensional(a: ColorSettings, b: ColorSettings)
    requires forall k :: a.Get(k) == b.Get(k)
    ensures a == b
  {
    assert a.Get(BackgroundColor) == b.Get(BackgroundColor);
    assert a.Get(SurfaceColor) == b.Get(SurfaceColor);
    assert a.Get(ContainerColor) == b.Get(ContainerColor);
    assert a.Get(InputBackground) == b.Get(InputBackground);
    assert a.Get(BorderColor) == b.Get(BorderColor);
    assert a.Get(TextPrimary) == b.Get(TextPrimary);
    assert a.Get(TextSecondary) == b.Get(TextSecondary);
    assert a.Get(AccentColor) == b.Get(AccentColor);
  }

  /** `DEFAULT_COLORS` */
  const Defaults := ColorSettings(
    "#121212", "#1e1e1e", "#242424", "#2d2d2d", "#404040", "#ffffff", "#b3b3b3", "#ff9900")

  /** Every colour of the default palette passes `isValidHexColor`. */
  lemma DefaultsAreValid()
    ensures forall k :: IsValidHexColor(Defaults.Get(k))
  {
    forall k ensures IsValidHexColor(Defaults.Get(k)) {
      var s := Defaults.Get(k);
      assert |s| == 7 && s[0] == '#';
      assert forall i :: 1 <= i < 7 ==> IsHexDigit(s[i]);
      assert AllHex(s[1..]);
    }
  }

  /**
   * The record a parsed JSON object stands for: it must have exactly the eight
   * properties of `ColorSettings` (a repeated property keeps its last value).
   */
  function FromObject(es: seq<Entry>): (r: Option<ColorSettings>)
    ensures r.Some? <==> ToMap(es).Keys == KeyNames
    ensures r.Some? ==> forall k :: KeyName(k) in ToMap(es) && r.value.Get(k) == ToMap(es)[KeyName(k)]
  {
    var m := ToMap(es);
    if m.Keys == KeyNames then
      KeyNamesDistinct();
      Some(FromMap(m))
    else None
  }

  /** The record whose field `k` is the property `KeyName(k)` of the object. */
  function FromMap(m: map<string, string>): (r: ColorSettings)
    requires forall k :: KeyName(k) in m
    ensures forall k :: r.Get(k) == m[KeyName(k)]
  {
    ColorSettings(
      m[KeyName(BackgroundColor)], m[KeyName(SurfaceColor)], m[KeyName(ContainerColor)],
      m[KeyName(InputBackground)], m[KeyName(BorderColor)], m[KeyName(TextPrimary)],
      m[KeyName(TextSecondary)], m[KeyName(AccentColor)])
  }

  lemma EntryNamesDistinct(c: ColorSettings, i: nat, j: nat)
    requires i < j < |AllKeys|
    ensures c.Entries()[i].0 != c.Entries()[j].0
  {
    KeyNamesDistinct();
    KeysDistinct(i, j);
  }

  lemma EntriesKeys(c: ColorSettings)
    ensures ToMap(c.Entries()).Keys == KeyNames
  {
    var es := c.Entries();
    ToMapKeys(es);
    assert (set i | 0 <= i < |es| :: es[i].0) == KeyNames by {
      assert forall i :: 0 <= i < |es| ==> es[i].0 == KeyName(AllKeys[i]);
    }
  }

  lemma EntryValue(c: ColorSettings, k: ColorKey)
    ensures KeyName(k) in ToMap(c.Entries()) && ToMap(c.Entries())[KeyName(k)] == c.Get(k)
  {
    var es := c.Entries();
    var i := IndexOf(k);
    forall j | i < j < |es| ensures es[j].0 != es[i].0 {
      EntryNamesDistinct(c, i, j);
    }
    ToMapLast(es, i);
  }

  /** A record turned into its JSON object and back is the same record. */
  lemma FromObjectOfEntries(c: ColorSettings)
    ensures FromObject(c.Entries()) == Some(c)
  {
    EntriesKeys(c);
    var r := FromObject(c.Entries());
    forall k ensures r.value.Get(k) == c.Get(k) {
      EntryValue(c, k);
    }
    SettingsExtensional(r.value, c);
  }
}
