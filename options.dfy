/**
 * The settings page (src/options.tsx): the colour record with its storage and
 * its broadcast to Amazon tabs, and the editor each colour field gets (a hex
 * text field, a swatch that opens a colour picker, and a reset button).
 */
module Options {
  import opened Wrappers
  import opened Json
  import opened HexColor
  import opened Palette
  import opened Storage
  import opened Messages

  /** One `sendMessage(tab.id, msg)` per tab with a truthy id, in the order of `tabs`. */
  function Broadcast(tabs: seq<Tab>, msg: Message): seq<(int, Message)>
    decreases |tabs|
  {
    if tabs == [] then []
    else
      var last := tabs[|tabs| - 1];
      Broadcast(tabs[..|tabs| - 1], msg) + (if HasId(last) then [(last.id.value, msg)] else [])
  }

  /**
   * Every tab with a truthy id gets the message, every message goes to such a
   * tab and carries `msg`, and there are no more messages than tabs.
   */
  lemma {:induction false} BroadcastReachesTabs(tabs: seq<Tab>, msg: Message)
    ensures |Broadcast(tabs, msg)| <= |tabs|
    ensures forall i :: 0 <= i < |tabs| && HasId(tabs[i]) ==> (tabs[i].id.value, msg) in Broadcast(tabs, msg)
    ensures forall p :: p in Broadcast(tabs, msg) ==>
              p.1 == msg && exists i :: 0 <= i < |tabs| && HasId(tabs[i]) && tabs[i].id.value == p.0
    decreases |tabs|
  {
    if tabs != [] {
      var init := tabs[..|tabs| - 1];
      BroadcastReachesTabs(init, msg);
      forall i | 0 <= i < |tabs| - 1 ensures tabs[i] == init[i] { }
    }
  }

  lemma BroadcastStep(tabs: seq<Tab>, i: nat, msg: Message)
    requires i < |tabs|
    ensures Broadcast(tabs[..i + 1], msg) ==
            Broadcast(tabs[..i], msg) + (if HasId(tabs[i]) then [(tabs[i].id.value, msg)] else [])
  {
    assert tabs[..i + 1][..i] == tabs[..i];
  }

  /** A tab without a truthy id is never messaged. */
  lemma {:induction false} BroadcastSkipsIdless(tabs: seq<Tab>, msg: Message)
    requires forall i :: 0 <= i < |tabs| ==> !HasId(tabs[i])
    ensures Broadcast(tabs, msg) == []
    decreases |tabs|
  {
    if tabs != [] {
      BroadcastSkipsIdless(tabs[..|tabs| - 1], msg);
    }
  }

  /**
   * The record the page adopts from storage: the stored string when truthy,
   * through `JSON.parse`, when it is an object with exactly the eight fields.
   */
  function StoredColors(store: Store): Option<ColorSettings> {
    var stored := Get(store, ColorSettingsKey);
    if !Truthy(stored) then None
    else
      match Parse(stored.value)
      case None => None
      case Some(es) => FromObject(es)
  }

  /** Storing the JSON text of an object with the eight fields is read back as that record. */
  lemma StoredObjectRoundTrip(store: Store, es: seq<Entry>, c: ColorSettings)
    requires FromObject(es) == Some(c)
    ensures StoredColors(store[ColorSettingsKey := Stringify(es)]) == Some(c)
  {
    var updated := store[ColorSettingsKey := Stringify(es)];
    assert Get(updated, ColorSettingsKey) == Some(Stringify(es));
    RoundTrip(es);
  }

  /** What `handleColorChange` writes is read back as exactly the record it wrote. */
  lemma PersistedRoundTrip(store: Store, c: ColorSettings)
    ensures StoredColors(store[ColorSettingsKey := Stringify(c.Entries())]) == Some(c)
  {
    FromObjectOfEntries(c);
    StoredObjectRoundTrip(store, c.Entries(), c);
  }

  /** With nothing stored, or an empty string, nothing is adopted. */
  lemma NothingStoredNothingAdopted(store: Store)
    requires !Truthy(Get(store, ColorSettingsKey))
    ensures StoredColors(store).None?
  {
  }

  /**
   * What the editor's handlers keep: the pending colour is valid or is the
   * current one, and while the current colour is valid, the validity flag is
   * the validity of the normalised text and a valid text is what is pending.
   */
  ghost predicate EditorAgrees(color: string, tempColor: string, hexInput: string, isValidHex: bool) {
    (IsValidHexColor(tempColor) || tempColor == color) &&
    (IsValidHexColor(color) ==>
       (isValidHex <==> IsValidHexColor(NormalizeHexColor(hexInput))) &&
       (isValidHex ==> tempColor == NormalizeHexColor(hexInput)))
  }

  /** A freshly mounted editor, showing the current colour, agrees. */
  lemma MountedAgrees(color: string)
    ensures EditorAgrees(color, color, color, true)
  {
    if IsValidHexColor(color) {
      NormalizeValid(color);
    }
  }

  /** Typing keeps the agreement, whatever is typed. */
  lemma TypingAgrees(color: string, tempColor: string, hexInput: string, isValidHex: bool, text: string)
    requires EditorAgrees(color, tempColor, hexInput, isValidHex)
    ensures var valid := IsValidHexColor(NormalizeHexColor(text));
            EditorAgrees(color, if valid then NormalizeHexColor(text) else tempColor, text, valid)
  {
  }

  /** Picking a valid colour keeps the agreement. */
  lemma PickingAgrees(color: string, picked: string)
    requires IsValidHexColor(picked)
    ensures EditorAgrees(color, picked, picked, true)
  {
    NormalizeValid(picked);
  }

  /** The `Settings` component: its `colors` state, the storage and the messages it sends. */
  class OptionsPage {
    var colors: ColorSettings
    var store: Store
    /** Every value written under `colorSettings`, in order. */
    var writes: seq<string>
    var sent: seq<(int, Message)>

    /** `useState(DEFAULT_COLORS)`: the page starts from the default palette. */
    constructor (store: Store)
      ensures colors == Defaults && this.store == store && writes == [] && sent == []
    {
      colors := Defaults;
      this.store := store;
      writes := [];
      sent := [];
    }

    /** `loadStoredColors`: adopt the stored record when there is one. */
    method LoadStoredColors()
      modifies this
      ensures StoredColors(store).Some? ==> colors == StoredColors(store).value
      ensures StoredColors(store).None? ==> colors == old(colors)
      ensures store == old(store) && writes == old(writes) && sent == old(sent)
    {
      var stored := StoredColors(store);
      if stored.Some? {
        colors := stored.value;
      }
    }

    /**
     * `handleColorChange(key, value)`: a one-field update of the record, stored
     * as its JSON text, then one `updateColors` message per Amazon tab with an id.
     * `tabs` is what the URL query returns.
     */
    method HandleColorChange(key: ColorKey, value: string, tabs: seq<Tab>)
      modifies this
      ensures colors == old(colors).With(key, value)
      ensures colors.Get(key) == value
      ensures forall k :: k != key ==> colors.Get(k) == old(colors).Get(k)
      ensures store == old(store)[ColorSettingsKey := Stringify(colors.Entries())]
      ensures StoredColors(store) == Some(colors)
      ensures writes == old(writes) + [Stringify(colors.Entries())]
      ensures sent == old(sent) + Broadcast(tabs, UpdateColors(colors.Entries()))
    {
      var newColors := colors.With(key, value);
      colors := newColors;
      Save(Stringify(newColors.Entries()));
      PersistedRoundTrip(old(store), newColors);
      SendToTabs(tabs, UpdateColors(newColors.Entries()));
    }

    /** `storage.set("colorSettings", text)` */
    method Save(text: string)
      modifies this
      ensures store == old(store)[ColorSettingsKey := text]
      ensures writes == old(writes) + [text]
      ensures colors == old(colors) && sent == old(sent)
    {
      store := store[ColorSettingsKey := text];
      writes := writes + [text];
    }

    /** The `chrome.tabs.query` callback: `sendMessage` to each tab with a truthy id, in order. */
    method SendToTabs(tabs: seq<Tab>, msg: Message)
      modifies this
      ensures sent == old(sent) + Broadcast(tabs, msg)
      ensures colors == old(colors) && store == old(store) && writes == old(writes)
    {
      var i := 0;
      while i < |tabs|
        invariant 0 <= i <= |tabs|
        invariant sent == old(sent) + Broadcast(tabs[..i], msg)
        invariant colors == old(colors) && store == old(store) && writes == old(writes)
      {
        BroadcastStep(tabs, i, msg);
        var tab := tabs[i];
        if tab.id.Some? && tab.id.value != 0 {
          sent := sent + [(tab.id.value, msg)];
        }
        i := i + 1;
      }
      assert tabs[..i] == tabs;
    }

    /** `resetColor(key)`: the field goes back to its default; the other seven stay. */
    method ResetColor(key: ColorKey, tabs: seq<Tab>)
      modifies this
      ensures colors == old(colors).With(key, Defaults.Get(key))
      ensures colors.Get(key) == Defaults.Get(key) && IsValidHexColor(colors.Get(key))
      ensures forall k :: k != key ==> colors.Get(k) == old(colors).Get(k)
      ensures store == old(store)[ColorSettingsKey := Stringify(colors.Entries())]
      ensures StoredColors(store) == Some(colors)
      ensures writes == old(writes) + [Stringify(colors.Entries())]
      ensures sent == old(sent) + Broadcast(tabs, UpdateColors(colors.Entries()))
    {
      DefaultsAreValid();
      HandleColorChange(key, Defaults.Get(key), tabs);
    }
  }

  /**
   * The editor of one colour field. Every change of the page's record re-renders
   * the page, and because the editor component is declared inside the page's
   * render function, it is then mounted afresh: closed, showing the record's value.
   */
  class ColorPicker {
    const page: OptionsPage
    const key: ColorKey
    var isOpen: bool
    var tempColor: string
    var hexInput: string
    var isValidHex: bool

    /** The `color` prop: the page's current value of this field. */
    function Color(): string
      reads page
    {
      page.colors.Get(key)
    }

    /** The state a freshly mounted editor has. */
    predicate Mounted()
      reads this, page
    {
      !isOpen && tempColor == Color() && hexInput == Color() && isValidHex
    }

    /** The editor's state agrees with the page, as `EditorAgrees` states it. */
    ghost predicate Consistent()
      reads this, page
    {
      EditorAgrees(Color(), tempColor, hexInput, isValidHex)
    }

    constructor (page: OptionsPage, key: ColorKey)
      ensures this.page == page && this.key == key
      ensures Mounted() && Consistent()
    {
      this.page := page;
      this.key := key;
      isOpen := false;
      tempColor := page.colors.Get(key);
      hexInput := page.colors.Get(key);
      isValidHex := true;
      new;
      MountedAgrees(Color());
    }

    /** The editor mounted afresh after the page re-renders: closed, showing the current colour. */
    method Remount()
      modifies this
      ensures Mounted() && Consistent()
    {
      isOpen, tempColor, hexInput, isValidHex := false, Color(), Color(), true;
      MountedAgrees(Color());
    }

    /** `handleColorChange(colorKey, v)` followed by the re-render that remounts the editor. */
    method Commit(v: string, tabs: seq<Tab>)
      modifies this, page
      ensures page.colors == old(page.colors).With(key, v)
      ensures page.store == old(page.store)[ColorSettingsKey := Stringify(page.colors.Entries())]
      ensures StoredColors(page.store) == Some(page.colors)
      ensures page.writes == old(page.writes) + [Stringify(page.colors.Entries())]
      ensures page.sent == old(page.sent) + Broadcast(tabs, UpdateColors(page.colors.Entries()))
      ensures Color() == v && Mounted() && Consistent()
    {
      page.HandleColorChange(key, v, tabs);
      Remount();
    }

    /**
     * `handleHexInputChange(text)`: the text is shown as typed, its validity is
     * that of its normalised form, and only a valid text becomes the pending colour.
     */
    method HexInputChange(text: string)
      modifies this
      ensures hexInput == text
      ensures isValidHex <==> IsValidHexColor(NormalizeHexColor(text))
      ensures isValidHex ==> tempColor == NormalizeHexColor(text)
      ensures !isValidHex ==> tempColor == old(tempColor)
      ensures isOpen == old(isOpen)
      ensures old(Consistent()) ==> Consistent()
    {
      if Consistent() {
        TypingAgrees(Color(), tempColor, hexInput, isValidHex, text);
      }
      hexInput := text;
      var normalized := NormalizeHexColor(text);
      var valid := IsValidHexColor(normalized);
      isValidHex := valid;
      if valid {
        tempColor := normalized;
      }
    }

    /**
     * `handleHexInputBlur` (also reached by pressing Enter in the text field): a
     * valid, changed pending colour is committed once; an invalid text reverts to
     * the current colour; otherwise nothing happens.
     */
    method HexInputBlur(tabs: seq<Tab>)
      modifies this, page
      ensures old(isValidHex) && old(tempColor) != old(Color()) ==>
                page.colors == old(page.colors).With(key, old(tempColor)) &&
                page.store == old(page.store)[ColorSettingsKey := Stringify(page.colors.Entries())] &&
                StoredColors(page.store) == Some(page.colors) &&
                page.writes == old(page.writes) + [Stringify(page.colors.Entries())] &&
                page.sent == old(page.sent) + Broadcast(tabs, UpdateColors(page.colors.Entries())) &&
                Mounted()
      ensures old(isValidHex) && old(tempColor) != old(Color()) && old(Consistent()) ==>
                IsValidHexColor(Color())
      ensures !old(isValidHex) ==>
                page.colors == old(page.colors) && page.writes == old(page.writes) &&
                page.store == old(page.store) && page.sent == old(page.sent) &&
                hexInput == Color() && tempColor == Color() && isValidHex && isOpen == old(isOpen)
      ensures old(isValidHex) && old(tempColor) == old(Color()) ==>
                page.colors == old(page.colors) && page.writes == old(page.writes) &&
                page.store == old(page.store) && page.sent == old(page.sent) &&
                isOpen == old(isOpen) && tempColor == old(tempColor) &&
                hexInput == old(hexInput) && isValidHex == old(isValidHex)
      ensures old(Consistent()) ==> Consistent()
    {
      if isValidHex && tempColor != Color() {
        Commit(tempColor, tabs);
      } else if !isValidHex {
        hexInput := Color();
        tempColor := Color();
        isValidHex := true;
        MountedAgrees(Color());
      }
    }

    /** A click on the swatch opens or closes the picker; it is inside the editor, so nothing is committed. */
    method SwatchClick()
      modifies this
      ensures isOpen == !old(isOpen)
      ensures tempColor == old(tempColor) && hexInput == old(hexInput) && isValidHex == old(isValidHex)
      ensures old(Consistent()) ==> Consistent()
    {
      isOpen := !isOpen;
    }

    /** The colour picker's `onChange(newColor)`: the new colour is pending and shown. */
    method PickerChange(newColor: string)
      modifies this
      ensures tempColor == newColor && hexInput == newColor && isValidHex && isOpen == old(isOpen)
      ensures old(Consistent()) && IsValidHexColor(newColor) ==> Consistent()
    {
      tempColor, hexInput, isValidHex := newColor, newColor, true;
      if IsValidHexColor(newColor) {
        PickingAgrees(Color(), newColor);
      }
    }

    /**
     * A `mousedown` outside the editor: while the picker is open, it closes and
     * the pending colour is committed (even when unchanged); while closed,
     * no listener is registered and nothing happens.
     */
    method OutsideClick(tabs: seq<Tab>)
      modifies this, page
      ensures old(isOpen) ==>
                page.colors == old(page.colors).With(key, old(tempColor)) &&
                page.store == old(page.store)[ColorSettingsKey := Stringify(page.colors.Entries())] &&
                StoredColors(page.store) == Some(page.colors) &&
                page.writes == old(page.writes) + [Stringify(page.colors.Entries())] &&
                page.sent == old(page.sent) + Broadcast(tabs, UpdateColors(page.colors.Entries())) &&
                Mounted()
      ensures old(isOpen) && old(Consistent()) ==> IsValidHexColor(Color()) || Color() == old(Color())
      ensures !old(isOpen) ==>
                page.colors == old(page.colors) && page.writes == old(page.writes) &&
                page.store == old(page.store) && page.sent == old(page.sent) &&
                isOpen == old(isOpen) && tempColor == old(tempColor) && hexInput == old(hexInput) && isValidHex == old(isValidHex)
      ensures old(Consistent()) ==> Consistent()
    {
      if isOpen {
        isOpen := false;
        Commit(tempColor, tabs);
      }
    }

    /** The reset button: `resetColor(colorKey)`, then the remount. */
    method Reset(tabs: seq<Tab>)
      modifies this, page
      ensures page.colors == old(page.colors).With(key, Defaults.Get(key))
      ensures IsValidHexColor(Color())
      ensures page.store == old(page.store)[ColorSettingsKey := Stringify(page.colors.Entries())]
      ensures StoredColors(page.store) == Some(page.colors)
      ensures page.writes == old(page.writes) + [Stringify(page.colors.Entries())]
      ensures page.sent == old(page.sent) + Broadcast(tabs, UpdateColors(page.colors.Entries()))
      ensures Mounted() && Consistent()
    {
      DefaultsAreValid();
      Commit(Defaults.Get(key), tabs);
    }
  }

  /** A page opened with no stored record shows the default palette, all of it valid. */
  method OpenWithoutStoredColors(store: Store) returns (shown: ColorSettings)
    requires !Truthy(Get(store, ColorSettingsKey))
    ensures shown == Defaults
    ensures forall k :: IsValidHexColor(shown.Get(k))
  {
    var page := new OptionsPage(store);
    page.LoadStoredColors();
    shown := page.colors;
    DefaultsAreValid();
  }

  /**
   * A page reopened after a commit adopts the record that was committed: the
   * storage write and the load are inverse.
   */
  method ReopenAfterCommit(store: Store, key: ColorKey, value: string, tabs: seq<Tab>)
      returns (committed: ColorSettings, reloaded: ColorSettings)
    ensures committed.Get(key) == value
    ensures reloaded == committed
  {
    var page := new OptionsPage(store);
    page.LoadStoredColors();
    page.HandleColorChange(key, value, tabs);
    committed := page.colors;
    var reopened := new OptionsPage(page.store);
    reopened.LoadStoredColors();
    reloaded := reopened.colors;
  }
}
