/**
 * The runtime messages sent to content scripts, and the tabs they are sent to.
 */
module Messages {
  import opened Wrappers
  import opened Json

  /** A browser tab; only its optional numeric id matters here. */
  datatype Tab = Tab(id: Option<int>)

  /** `if (tab.id)`: a tab is addressed only when its id is present and not 0. */
  predicate HasId(t: Tab) {
    t.id.Some? && t.id.value != 0
  }

  /**
   * A message as the content script sees it: the optional `type` property, the
   * `colors` object (`None` when missing or falsy) and the optional `darkMode` property.
   */
  datatype Message = Message(kind: Option<string>, colors: Option<seq<Entry>>, darkMode: Option<bool>)

  const UpdateColorsType := "updateColors"

  /** `{ type: "updateColors", colors }` */
  function UpdateColors(colors: seq<Entry>): Message {
    Message(Some(UpdateColorsType), Some(colors), None)
  }

  /** `{ darkMode }` */
  function DarkMode(on: bool): Message {
    Message(None, None, Some(on))
  }
}
