/**
 * The toolbar popup (src/popup.tsx): shows the dark-mode switch, persists the
 * flag as a string and tells the active tab about the new value.
 */
module Popup {
  import opened Wrappers
  import opened Storage
  import opened Messages

  class Popup {
    /** The `isDarkMode` state of the component. */
    var isDarkMode: bool
    /** The extension storage, as far as the popup reads and writes it. */
    var store: Store
    /** Every `chrome.tabs.sendMessage(tabId, message)` made so far, in order. */
    var sent: seq<(int, Message)>

    /** A freshly mounted popup shows dark mode off until storage has been read. */
    constructor (store: Store)
      ensures !isDarkMode && this.store == store && sent == []
    {
      isDarkMode := false;
      this.store := store;
      sent := [];
    }

    /** The mount effect: the switch is on exactly when the stored value is the string "true". */
    method Load()
      modifies this
      ensures isDarkMode <==> Get(store, DarkModeKey) == Some("true")
      ensures store == old(store) && sent == old(sent)
    {
      isDarkMode := DecodeFlag(Get(store, DarkModeKey));
    }

    /**
     * `toggleDarkMode`: flip the flag, store its string form, then message the
     * first tab of the active-tab query. `activeTab` is `tabs[0]`; when it is
     * undefined the callback throws before sending anything.
     */
    method Toggle(activeTab: Option<Tab>)
      modifies this
      ensures isDarkMode == !old(isDarkMode)
      ensures store == old(store)[DarkModeKey := EncodeFlag(isDarkMode)]
      ensures DecodeFlag(Get(store, DarkModeKey)) == isDarkMode
      ensures forall k :: k in old(store) && k != DarkModeKey ==> k in store && store[k] == old(store)[k]
      ensures activeTab.Some? && HasId(activeTab.value) ==>
                sent == old(sent) + [(activeTab.value.id.value, DarkMode(isDarkMode))]
      ensures !(activeTab.Some? && HasId(activeTab.value)) ==> sent == old(sent)
    {
      var newValue := !isDarkMode;
      isDarkMode := newValue;
      store := store[DarkModeKey := EncodeFlag(newValue)];
      if activeTab.Some? {
        var tab := activeTab.value;
        if tab.id.Some? && tab.id.value != 0 {
          sent := sent + [(tab.id.value, DarkMode(newValue))];
        }
      }
    }
  }

  /**
   * A popup that loads and then toggles twice ends where it started: the same
   * switch position, and a store holding the encoded flag, while a tab with an
   * id has received the opposite value and then the original one.
   */
  method ToggleTwiceRestores(store: Store, tabId: int)
      returns (first: bool, last: bool, finalStore: Store, messages: seq<(int, Message)>)
    requires tabId != 0
    ensures first == last
    ensures finalStore == store[DarkModeKey := EncodeFlag(first)]
    ensures DarkModeKey in store && store[DarkModeKey] in {"true", "false"} ==> finalStore == store
    ensures messages == [(tabId, DarkMode(!first)), (tabId, DarkMode(first))]
  {
    var popup := new Popup(store);
    popup.Load();
    first := popup.isDarkMode;
    var tab := Some(Tab(Some(tabId)));
    popup.Toggle(tab);
    popup.Toggle(tab);
    last := popup.isDarkMode;
    finalStore := popup.store;
    messages := popup.sent;
  }

  /**
   * Loading after a toggle shows the toggled value, so a popup reopened later
   * agrees with the one that wrote the flag.
   */
  method ReopenSeesToggle(store: Store, activeTab: Option<Tab>) returns (written: bool, reread: bool)
    ensures reread == written
  {
    var popup := new Popup(store);
    popup.Load();
    popup.Toggle(activeTab);
    written := popup.isDarkMode;
    var reopened := new Popup(popup.store);
    reopened.Load();
    reread := reopened.isDarkMode;
  }
}
