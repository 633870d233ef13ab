/**
 * The content script (src/content.ts): the page's root element as a map of
 * custom properties, a set of classes and a scroll position, and the three
 * things that change it: applying colours, the runtime message listener and
 * the initial check of the stored dark-mode flag.
 */
module Content {
  import opened Wrappers
  import opened Json
  import opened Palette
  import opened Storage
  import opened Messages
  import opened CssNames

  const DarkClass := "amazon-dark-mode"

  /** The object entries with each property name replaced by its custom property. */
  function CssEntries(es: seq<Entry>): seq<Entry> {
    seq(|es|, i requires 0 <= i < |es| => (CssVarName(es[i].0), es[i].1))
  }

  /** The style after `setProperty` has been called for each entry in order. */
  function Applied(style: map<string, string>, es: seq<Entry>): map<string, string>
    decreases |es|
  {
    if es == [] then style
    else Applied(style, es[..|es| - 1])[CssVarName(es[|es| - 1].0) := es[|es| - 1].1]
  }

  /**
   * Applying an object overrides exactly the custom properties it names, each
   * with the value of the last entry naming it; everything else is untouched.
   */
  lemma {:induction false} AppliedOverrides(style: map<string, string>, es: seq<Entry>)
    ensures Applied(style, es) == style + ToMap(CssEntries(es))
    decreases |es|
  {
    if es != [] {
      var init := es[..|es| - 1];
      AppliedOverrides(style, init);
      assert CssEntries(es)[..|es| - 1] == CssEntries(init);
    }
  }

  /** Applying the same object twice leaves the same properties as applying it once. */
  lemma AppliedIdempotent(style: map<string, string>, es: seq<Entry>)
    ensures Applied(Applied(style, es), es) == Applied(style, es)
  {
    AppliedOverrides(style, es);
    AppliedOverrides(Applied(style, es), es);
    var m := ToMap(CssEntries(es));
    assert (style + m) + m == style + m;
  }

  /** The custom properties of the eight colour fields. */
  const ColorVars: set<string> := set i | 0 <= i < |AllKeys| :: CssVarName(KeyName(AllKeys[i]))

  lemma ColorVarOf(k: ColorKey)
    ensures CssVarName(KeyName(k)) in ColorVars
  {
    assert CssVarName(KeyName(AllKeys[IndexOf(k)])) in ColorVars;
  }

  lemma SettingsVarsKeys(c: ColorSettings)
    ensures ToMap(CssEntries(c.Entries())).Keys == ColorVars
  {
    var ces := CssEntries(c.Entries());
    ToMapKeys(ces);
    var names := set i | 0 <= i < |ces| :: ces[i].0;
    forall n | n in names ensures n in ColorVars {
      var i :| 0 <= i < |ces| && ces[i].0 == n;
      assert n == CssVarName(KeyName(AllKeys[i]));
    }
    forall n | n in ColorVars ensures n in names {
      var i :| 0 <= i < |AllKeys| && CssVarName(KeyName(AllKeys[i])) == n;
      assert ces[i].0 == n;
    }
  }

  lemma VarNamesDistinct(c: ColorSettings, i: nat, j: nat)
    requires i < j < |AllKeys|
    ensures CssEntries(c.Entries())[i].0 != CssEntries(c.Entries())[j].0
  {
    var es := c.Entries();
    var ki, kj := AllKeys[i], AllKeys[j];
    KeysDistinct(i, j);
    assert es[i].0 == KeyName(ki) && es[j].0 == KeyName(kj);
    CssNamesOfKeys();
    assert CssVarName(KeyName(ki)) != CssVarName(KeyName(kj));
  }

  lemma SettingsVarValue(c: ColorSettings, k: ColorKey)
    ensures CssVarName(KeyName(k)) in ToMap(CssEntries(c.Entries()))
    ensures ToMap(CssEntries(c.Entries()))[CssVarName(KeyName(k))] == c.Get(k)
  {
    var ces := CssEntries(c.Entries());
    var i := IndexOf(k);
    forall j | i < j < |ces| ensures ces[j].0 != ces[i].0 {
      VarNamesDistinct(c, i, j);
    }
    ToMapLast(ces, i);
  }

  /**
   * Applying a colour record sets one custom property per field, to that
   * field's value, and leaves every other property as it was.
   */
  lemma AppliedSettings(style: map<string, string>, c: ColorSettings)
    ensures Applied(style, c.Entries()).Keys == style.Keys + ColorVars
    ensures forall k :: CssVarName(KeyName(k)) in Applied(style, c.Entries()) &&
                        Applied(style, c.Entries())[CssVarName(KeyName(k))] == c.Get(k)
    ensures forall n :: n in style && n !in ColorVars ==> Applied(style, c.Entries())[n] == style[n]
  {
    AppliedOverrides(style, c.Entries());
    SettingsVarsKeys(c);
    forall k ensures CssVarName(KeyName(k)) in Applied(style, c.Entries()) &&
                     Applied(style, c.Entries())[CssVarName(KeyName(k))] == c.Get(k) {
      SettingsVarValue(c, k);
    }
  }

  /**
   * `Object.entries(JSON.parse(storedColors))` when `storedColors` is truthy;
   * `None` when nothing is applied.
   */
  function StoredObject(store: Store): Option<seq<Entry>> {
    var stored := Get(store, ColorSettingsKey);
    if !Truthy(stored) then None
    else
      match Parse(stored.value)
      case None => None
      case Some(es) => Some(ObjectEntries(es))
  }

  /**
   * Nothing is applied when no text, or an empty one, is stored; the JSON text
   * of an object, once stored, is read back as that object's entries, which are
   * the object itself when it names each property once.
   */
  lemma StoredObjectCases(store: Store, es: seq<Entry>)
    ensures !Truthy(Get(store, ColorSettingsKey)) ==> StoredObject(store).None?
    ensures StoredObject(store[ColorSettingsKey := Stringify(es)]) == Some(ObjectEntries(es))
    ensures (forall i, j :: 0 <= i < j < |es| ==> es[i].0 != es[j].0) ==>
              StoredObject(store[ColorSettingsKey := Stringify(es)]) == Some(es)
  {
    var updated := store[ColorSettingsKey := Stringify(es)];
    assert Get(updated, ColorSettingsKey) == Some(Stringify(es));
    RoundTrip(es);
    if forall i, j :: 0 <= i < j < |es| ==> es[i].0 != es[j].0 {
      ObjectEntriesDistinct(es);
    }
  }

  /**
   * A stored text whose first property name holds a raw control character makes
   * `JSON.parse` throw, so no colours are read from it, whatever follows.
   */
  lemma StoredControlIgnored(store: Store, name: string, c: char, rest: string)
    requires c < ' '
    requires Get(store, ColorSettingsKey) == Some("{\"" + Escape(name) + [c] + rest)
    ensures StoredObject(store).None?
  {
    var text := "{\"" + Escape(name) + [c] + rest;
    assert text[1..] == "\"" + (Escape(name) + [c] + rest);
    assert text[1..][1..] == Escape(name) + [c] + rest;
    RawControlRejected(name, c, rest);
  }

  /** `document.documentElement` and the window's scroll position. */
  class DocumentRoot {
    var style: map<string, string>
    var classes: set<string>
    var scrollX: int
    var scrollY: int

    constructor (style: map<string, string>, classes: set<string>, scrollX: int, scrollY: int)
      ensures this.style == style && this.classes == classes
      ensures this.scrollX == scrollX && this.scrollY == scrollY
    {
      this.style := style;
      this.classes := classes;
      this.scrollX := scrollX;
      this.scrollY := scrollY;
    }

    /**
     * Save `scrollY`, call `setProperty` for every entry, then `scrollTo(0, saved)`.
     * `drift` is how far the relayout after each `setProperty` moves the viewport.
     */
    method SetColors(colors: seq<Entry>, drift: int)
      modifies this
      ensures style == Applied(old(style), colors)
      ensures classes == old(classes)
      ensures scrollY == old(scrollY) && scrollX == 0
    {
      var saved := scrollY;
      var i := 0;
      while i < |colors|
        invariant 0 <= i <= |colors|
        invariant style == Applied(old(style), colors[..i])
        invariant classes == old(classes)
      {
        var (key, value) := colors[i];
        assert colors[..i + 1][..i] == colors[..i];
        style := style[CssVarName(key) := value];
        scrollY := scrollY + drift;
        i := i + 1;
      }
      assert colors[..i] == colors;
      scrollX, scrollY := 0, saved;
    }

    /** `applyCustomColors`: apply the stored colour object, if any; never a default palette. */
    method ApplyCustomColors(store: Store, drift: int)
      modifies this
      ensures classes == old(classes)
      ensures StoredObject(store).None? ==>
                style == old(style) && scrollX == old(scrollX) && scrollY == old(scrollY)
      ensures StoredObject(store).Some? ==>
                style == Applied(old(style), StoredObject(store).value) && scrollY == old(scrollY) && scrollX == 0
    {
      var colors := StoredObject(store);
      if colors.Some? {
        SetColors(colors.value, drift);
      }
    }

    /** The `chrome.runtime.onMessage` listener. */
    method OnMessage(msg: Message, store: Store, drift: int)
      modifies this
      ensures msg.kind == Some(UpdateColorsType) ==> classes == old(classes)
      ensures msg.kind == Some(UpdateColorsType) && msg.colors.None? ==>
                style == old(style) && scrollX == old(scrollX) && scrollY == old(scrollY)
      ensures msg.kind == Some(UpdateColorsType) && msg.colors.Some? ==>
                style == Applied(old(style), msg.colors.value) && scrollY == old(scrollY) && scrollX == 0
      ensures msg.kind != Some(UpdateColorsType) && msg.darkMode == Some(true) ==>
                classes == old(classes) + {DarkClass} &&
                style == (if StoredObject(store).Some? then Applied(old(style), StoredObject(store).value) else old(style)) &&
                scrollY == old(scrollY) && scrollX == (if StoredObject(store).Some? then 0 else old(scrollX))
      ensures msg.kind != Some(UpdateColorsType) && msg.darkMode == Some(false) ==>
                classes == old(classes) - {DarkClass} &&
                style == old(style) && scrollX == old(scrollX) && scrollY == old(scrollY)
      ensures msg.kind != Some(UpdateColorsType) && msg.darkMode.None? ==>
                classes == old(classes) && style == old(style) &&
                scrollX == old(scrollX) && scrollY == old(scrollY)
    {
      if msg.kind == Some(UpdateColorsType) {
        if msg.colors.Some? {
          SetColors(msg.colors.value, drift);
        }
      } else if msg.darkMode.Some? {
        if msg.darkMode.value {
          classes := classes + {DarkClass};
          ApplyCustomColors(store, drift);
        } else {
          classes := classes - {DarkClass};
        }
      }
    }

    /** The check of the initial state when the script starts. */
    method InitialLoad(store: Store, drift: int)
      modifies this
      ensures DecodeFlag(Get(store, DarkModeKey)) ==>
                classes == old(classes) + {DarkClass} &&
                style == (if StoredObject(store).Some? then Applied(old(style), StoredObject(store).value) else old(style)) &&
                scrollY == old(scrollY) && scrollX == (if StoredObject(store).Some? then 0 else old(scrollX))
      ensures !DecodeFlag(Get(store, DarkModeKey)) ==>
                classes == old(classes) && style == old(style) &&
                scrollX == old(scrollX) && scrollY == old(scrollY)
    {
      if DecodeFlag(Get(store, DarkModeKey)) {
        classes := classes + {DarkClass};
        ApplyCustomColors(store, drift);
      }
    }
  }
}
