# Amazon dark mode, modelled in Dafny

A browser extension that darkens Amazon pages. Four pieces of it are modelled here:

- **Options page** (`src/options.tsx`): the eight-colour palette record
  (`ColorSettings`), its default `DEFAULT_COLORS`, hex validation and
  normalisation, and the editor of each colour field (hex text field, swatch with
  colour picker, reset button). A commit updates one field, stores the whole record
  as JSON under `colorSettings` and sends `{type: "updateColors", colors}` to
  every Amazon tab with an id.
- **Content script** (`src/content.ts`): the page root as a map of custom
  properties, a set of classes and a scroll position. camelCase colour names become
  `--kebab-case` custom properties (the `--*` form of section 2 of CSS Custom
  Properties for Cascading Variables Module Level 1). The script applies stored
  colours, reacts to `updateColors` and `darkMode` messages, and checks the flag
  when it starts.
- **Background worker** (`src/background.ts`): the guard that decides whether to
  inject the content script: `status === "complete"` and the URL matches
  `^https:\/\/(www\.)?amazon\.[a-z.]+`.
- **Popup** (`src/popup.tsx`): the dark-mode switch. The flag is stored as
  `"true"`/`"false"`, read back with `=== "true"`, and sent to the active tab.

Storage is a synchronous `map<string, string>`. The tabs a query returns are a
parameter (`seq<Tab>`). Messages sent are kept in a log (`sent`), and so are the
values written under `colorSettings` (`writes`). `JSON.stringify`/`JSON.parse`
are a concrete codec for flat objects with string values, and the round trip is
proved (`Json.RoundTrip`).

Files: `wrappers.dfy` (Option), `hex_color.dfy`, `json.dfy`, `palette.dfy`,
`storage.dfy`, `messages.dfy`, `css_names.dfy`, `content.dfy`, `background.dfy`,
`popup.dfy`, `options.dfy`.

### What the code does that the model keeps

- A malformed stored `colorSettings` is not caught (`src/options.tsx:61`,
  `src/content.ts:61`). `JSON.parse` throws, the handler stops, and nothing
  changes. Nothing falls back to the defaults.
- With nothing stored, the content script applies no colours at all
  (`src/content.ts:63`); no default palette is applied to the page.
  `Content.DocumentRoot.ApplyCustomColors` states exactly that.
- The activation regex accepts multi-label domains: `.` is in `[a-z.]`, so
  `amazon.co.uk` and `amazon.com.br` match (`Background.MultiLabelDomains`).
- Nothing that is loaded from storage is validated as a hex colour. An outside
  click commits the pending colour even when it has not changed. What is proved
  is that an editor commits only a valid colour or the current colour.
- `window.scrollTo(0, saved)` restores the vertical position. It also sets the
  horizontal position to 0, and the model does the same.
- `ColorPicker` is declared inside the body of `Settings`. So every `setColors`
  re-renders the page and mounts every editor afresh: closed, with `tempColor` and
  `hexInput` equal to the field's value and `isValidHex` true. The model remounts
  the editor that committed (`Options.ColorPicker.Remount`).

## Model

| member | source | states |
|---|---|---|
| HexColor.ValidIffMatchesPattern | src/options.tsx:38-41 | `IsValidHexColor` holds exactly when the string is `#` followed by a run of exactly 3 or exactly 6 hex digits (either case), as the regular expression reads. |
| HexColor.AlphaFormsRejected | src/options.tsx:38-41 | Strings of length 5 or 9 are rejected, so the 4- and 8-digit alpha forms never pass. |
| HexColor.ValidIsStrictSubsetOfCss | src/options.tsx:38-41 | Accepted strings are exactly the 3- and 6-digit members of the hex notation of section 5.2 of CSS Color Module Level 4. `#ff99` is valid CSS but is rejected. |
| HexColor.NormalizeHexColor | src/options.tsx:44-49 | The result always starts with `#`. It is the input or one character longer. An input that already starts with `#` comes back unchanged. |
| HexColor.NormalizeKeepsText | src/options.tsx:44-49 | Normalising only adds a prefix: the input is the tail of the result. |
| HexColor.NormalizeIdempotent | src/options.tsx:44-49 | Normalising twice gives the same as normalising once. |
| HexColor.NormalizeValid | src/options.tsx:44-49 | A valid colour is a fixed point of normalisation. |
| HexColor.NormalizedValidity | src/options.tsx:150-156 | Typed text is valid after normalisation iff it is already a valid colour, or it is 3 or 6 hex digits without `#`. |
| Palette.DefaultsAreValid | src/options.tsx:10-19 | Every field of the default palette passes the validity check. |
| Palette.KeyNamesDistinct | src/options.tsx:21-30 | The eight property names are pairwise distinct, and each is one of the record's property names. |
| Palette.ColorSettings.With | src/options.tsx:66 | The spread update sets field `key` to the value and keeps the other seven fields. |
| Palette.FromObject | src/options.tsx:61 | A parsed object is read as a record whose field `k` is the object's property `KeyName(k)` (its last value in the text). The record exists exactly when the object has the eight property names, and no others. |
| Palette.FromObjectOfEntries | src/options.tsx:61-68 | A record turned into its JSON object and read back is the same record. |
| Json.RoundTrip | src/options.tsx:61-68 | `Parse(Stringify(es)) == Some(es)`: parsing the JSON text of an object (as `Stringify` writes it) gives back the same properties in the same order. |
| Json.RawControlRejected | src/content.ts:61 | A raw control character (below U+0020) inside a string fails the parse, after any run of well-formed characters, as `JSON.parse` throws on it. |
| Json.StringifyNoControl | src/options.tsx:68 | The JSON text written for any object contains no raw control character: each one is escaped. |
| Json.ToMapKeys | src/content.ts:61 | The parsed object has exactly the property names that occur in the text. |
| Json.ToMapLast | src/content.ts:61 | A property that is not repeated later keeps its value in the parsed object. |
| Json.PropertyNames | src/content.ts:70 | The names `Object.entries` lists are exactly the parsed object's property names, each once. |
| Json.ObjectEntriesOfObject | src/content.ts:70 | `Object.entries` of the parsed object describes the same object (same names, each with its last value) and names each property once. |
| Json.ObjectEntriesDistinct | src/content.ts:70 | An object text that names each property once is listed by `Object.entries` exactly as written, in the same order. |
| Storage.FlagRoundTrip | src/popup.tsx:14-21 | `DecodeFlag` of what `EncodeFlag` writes gives back the flag. Only the exact string `"true"` decodes to true. |
| CssNames.LowerCase | src/content.ts:71 | Lower-casing keeps the length, maps each character to its lower-case form, and leaves no upper-case letter. |
| CssNames.DashMarksCapitals | src/content.ts:71 | In the result of `DashBeforeUpper`, every capital letter has a dash just before it, and a name without capitals is returned unchanged. |
| CssNames.OneHump | src/content.ts:71 | A name with one capital becomes `--`, the part before it, `-`, the lower-case letter, then the rest (`backgroundColor` to `--background-color`). |
| CssNames.CamelCaseOfKebab | src/content.ts:71 | For names without a dash of their own, turning `-x` back into `X` undoes the conversion. |
| CssNames.CssVarNameInjective | src/content.ts:71 | `CssVarName` is injective: two names without dashes that map to the same custom property are equal. |
| CssNames.CssNamesOfKeys | src/content.ts:34-43 | The eight colour keys map to eight distinct custom properties. Each starts with `--` and has no upper-case letter after it. |
| Content.AppliedOverrides | src/content.ts:70-73 | `Applied`, setting the properties in order, overrides exactly the custom properties the object names. Each gets the value of the last entry that names it. All others are unchanged. |
| Content.AppliedIdempotent | src/content.ts:91-94 | Applying the same object twice leaves the same properties as applying it once. |
| Content.AppliedSettings | src/content.ts:70-73 | Applying a colour record adds exactly the eight colour properties. Each holds its field's value. Every other property is unchanged. |
| Content.DocumentRoot.SetColors | src/content.ts:88-96 | The loop leaves the style equal to the object applied to the old style. Classes are unchanged. `scrollY` is restored, however far the relayout after each property moved it, and `scrollX` is 0. |
| Content.StoredObjectCases | src/content.ts:60-61 | `StoredObject` gives nothing when no text, or an empty one, is stored. The JSON text of an object, once stored, is read back as that object's entries, which are the object as written when it names each property once. |
| Content.StoredControlIgnored | src/content.ts:60-61 | A stored text whose first property name holds a raw control character yields no object to apply, whatever follows it. |
| Content.DocumentRoot.ApplyCustomColors | src/content.ts:59-78 | With no stored text, an empty one or one that does not parse, nothing changes and no default palette is applied. Otherwise the stored object's entries (`Object.entries`: each property once, at its first position, with its last value) are applied, `scrollY` is kept and `scrollX` is 0. |
| Content.DocumentRoot.OnMessage | src/content.ts:81-106 | `updateColors` takes precedence over `darkMode`. Without `colors` it changes nothing, and otherwise it applies them. `darkMode: true` adds the class and applies the stored colours; the scroll position is then kept, with `scrollX` 0, when colours were applied. `false` only removes the class. Any other message changes nothing. |
| Content.DocumentRoot.InitialLoad | src/content.ts:109-113 | The class is added, and the stored colours applied (keeping `scrollY`, with `scrollX` 0), exactly when the stored flag is the string `"true"`. Otherwise nothing changes. |
| Background.MatchesIffRegexFinds | src/background.ts:2 | The character-level guard `MatchesAmazonUrl` holds exactly when some prefix of the URL is in the language of the regular expression. |
| Background.ShouldInject | src/background.ts:2 | Injection happens exactly when the status is `"complete"`, the URL is present and the regular expression finds a match at its start. |
| Background.AnySuffix | src/background.ts:2 | Only a prefix is checked, so anything may follow a matching URL. |
| Background.HttpNeverMatches | src/background.ts:2 | No `http://` URL matches. |
| Background.OnlyWwwSubdomain | src/background.ts:2 | After `https://`, only `www.amazon.` or `amazon.` can match. Other subdomains such as `smile.` fail. |
| Background.MultiLabelDomains | src/background.ts:2 | Any continuation that starts with a lower-case letter or `.` matches after `amazon.`, with or without `www.`. This includes `co.uk` and `com.br`. |
| Background.CaseSensitiveAndNonEmpty | src/background.ts:2 | Upper-case `AMAZON` or an upper-case domain does not match, and `amazon.` needs at least one more character. |
| Popup.Popup.constructor | src/popup.tsx:10 | The switch is off before storage has been read. |
| Popup.Popup.Load | src/popup.tsx:12-16 | After loading, the switch is on exactly when the stored value is the string `"true"`. |
| Popup.Popup.Toggle | src/popup.tsx:18-29 | The flag is negated and stored as its string. The stored text decodes to the new flag, and other keys are kept. The active tab gets the same boolean only when it exists and has a truthy id. |
| Popup.ToggleTwiceRestores | src/popup.tsx:18-21 | Two toggles restore the flag, and also the store when it already held `"true"` or `"false"`. The tab receives the opposite value, then the original one. |
| Popup.ReopenSeesToggle | src/popup.tsx:12-21 | A popup opened after a toggle shows the toggled value. |
| Options.BroadcastReachesTabs | src/options.tsx:97-106 | In `Broadcast`, every tab with a truthy id gets the message, and every message goes to such a tab with the same payload. There are at most as many messages as tabs. |
| Options.BroadcastSkipsIdless | src/options.tsx:99 | Tabs without a truthy id get nothing. |
| Options.PersistedRoundTrip | src/options.tsx:58-68 | The text a commit stores is read back by the loader (`StoredColors`) as exactly the committed record. |
| Options.NothingStoredNothingAdopted | src/options.tsx:58-63 | `StoredColors`: with no stored text, or an empty one, nothing is adopted. |
| Options.MountedAgrees | src/options.tsx:121-124 | A freshly mounted editor satisfies the editor invariant. |
| Options.TypingAgrees | src/options.tsx:150-161 | Typing any text preserves the editor invariant. |
| Options.PickingAgrees | src/options.tsx:217-221 | Picking a valid colour preserves the editor invariant. |
| Options.OptionsPage.constructor | src/options.tsx:52 | The page starts from the default palette. |
| Options.OptionsPage.LoadStoredColors | src/options.tsx:58-63 | The stored record is adopted when there is one. Otherwise the colours are unchanged, which means the defaults on a fresh page. |
| Options.OptionsPage.HandleColorChange | src/options.tsx:65-107 | Field `key` becomes the value and the other seven are kept. The stored text is the JSON of that record and reads back as it. One write is logged. Every Amazon tab with an id gets `updateColors` with the new record. |
| Options.OptionsPage.Save | src/options.tsx:68 | The text is stored under `colorSettings` and logged once. Nothing else changes. |
| Options.OptionsPage.SendToTabs | src/options.tsx:97-106 | The loop sends exactly the broadcast to the tabs, in order. Nothing else changes. |
| Options.OptionsPage.ResetColor | src/options.tsx:109-111 | Field `key` returns to its (valid) default and the other seven are kept. The store holds the JSON of the new record, which reads back as it, and the record is broadcast. |
| Options.ColorPicker.constructor | src/options.tsx:121-124 | A new editor is closed and shows the field's value as valid. |
| Options.ColorPicker.Remount | src/options.tsx:120-131 | After a re-render the editor is mounted afresh and satisfies the invariant. |
| Options.ColorPicker.Commit | src/options.tsx:137 | A commit is a one-field record update. The store holds its JSON, which reads back as the record, and it is broadcast. The editor is then remounted on the new value. |
| Options.ColorPicker.HexInputChange | src/options.tsx:150-161 | The text is shown as typed, and `isValidHex` is the validity of its normalised form. Only a valid text replaces the pending colour. The invariant is preserved. |
| Options.ColorPicker.HexInputBlur | src/options.tsx:163-172 | A valid, changed pending colour is committed exactly once, and the store then reads back as the new record. An invalid text reverts to the current colour and commits nothing. A valid, unchanged one changes nothing. The invariant is preserved. |
| Options.ColorPicker.SwatchClick | src/options.tsx:211 | The swatch toggles `isOpen` and commits nothing. |
| Options.ColorPicker.PickerChange | src/options.tsx:217-221 | The picked colour becomes pending and is shown as valid. The invariant is preserved for a valid colour. |
| Options.ColorPicker.OutsideClick | src/options.tsx:134-142 | While open, the picker closes and commits the pending colour once (stored, reading back as the new record), and the result is valid or unchanged. While closed, nothing happens. |
| Options.ColorPicker.Reset | src/options.tsx:227 | The field returns to its valid default. The store reads back as the new record, which is broadcast. The editor is remounted. |
| Options.OpenWithoutStoredColors | src/options.tsx:52-63 | A page opened with nothing stored shows the default palette, all of it valid. |
| Options.ReopenAfterCommit | src/options.tsx:58-68 | A page reopened after a commit shows exactly the committed record. |

## Left out

- Rendering (JSX, icons, Tailwind classes, the live swatch colour) and `tailwind.config.js`: presentation only.
- `chrome.tabs.query` and its 23 URL patterns (`src/options.tsx:71-97`): the model takes the tabs the query returns as a parameter.
- `chrome.tabs.query` for the active tab (`src/popup.tsx:23-24`): `tabs[0]` is a parameter. When it is missing, the callback throws and nothing is sent.
- `chrome.scripting.executeScript` and its error logging (`src/background.ts:3-6`): side effect of the guard, outside the model.
- `openSettings` / `chrome.tabs.create` (`src/popup.tsx:31-33`): opens a page, no state of its own.
- Listener registration (`onMessage`, `onUpdated`) and the add/remove of the `mousedown` listener (`src/options.tsx:141-147`): the model turns the listener's effect into the `OutsideClick` method. It acts only while the picker is open.
- Asynchrony: `await`, unawaited promises and races between the popup, the options page and content scripts sharing one store. Every handler runs to completion, one at a time.
- The Enter key handler (`src/options.tsx:174-178`): it only blurs the field, which is `HexInputBlur`.
- The `[color]` effect (`src/options.tsx:128-131`): every change of `color` also remounts the editor, which sets the same values (`Remount`).
- Options.ColorPicker.Commit: only the editor that committed is remounted. The other seven editors are remounted in the same way by the code but are not followed.
- Options.ColorPicker.PickerChange: the colour picker's internals are left out, and the new colour is any string. The invariant is kept only for a valid one.
- Options.ColorPicker.HexInputChange: the field's `maxLength={7}` is not modelled, so any text can be typed.
- Options.OptionsPage.LoadStoredColors: a stored object that parses but does not have exactly the eight colour properties leaves the colours unchanged. The code would adopt that object as it is.
- Json.Stringify: characters that `JSON.stringify` escapes for well-formedness (lone surrogates, written as `\udXXX`) cannot occur, as a Dafny `char` is a Unicode scalar value. `"`, `\` and the control characters below U+0020 are escaped as `JSON.stringify` does.
- Json.Parse: it reads only flat objects with string values and no whitespace. Inside strings it reads every escape of JSON (`\"`, `\\`, `\/`, `\b`, `\f`, `\n`, `\r`, `\t`, `\uXXXX`) and rejects raw control characters, as `JSON.parse` does. A `\u` escape naming a surrogate (a pair, or a lone one) gives `None`, as do other valid JSON texts (`{ }`, `{"a":1}`, `"ab"`), where the code would go on with the parsed value.
- Json.ObjectEntries: property names that are array indices (`"0"`, `"1"`, …) are listed by `Object.entries` first, in ascending order. The model lists every name at its first position.
- Palette.FromObject: an object with other property names, or missing some, is not read as a record, while `setColors(JSON.parse(storedColors))` adopts any parsed value as it is. The record does not keep the object's property order: after loading a text that lists the eight names in another order, the next commit stores and sends them in declaration order, where the spread keeps the loaded order.
- Content.Applied: every `setProperty` call is taken to store its value. In a browser, `setProperty(name, "")` removes the property, and a value that is not a valid custom-property value is ignored; neither is modelled, so `Content.AppliedSettings` holds for records whose fields are valid colours, as the editors commit, but not for a stored record with an empty field.
- CssNames.LowerCase: it lowers only `A`–`Z`. Unicode case mapping of `toLowerCase` is not modelled.
- Content.DocumentRoot.SetColors: real layout is not modelled. The movement of the viewport while the properties are set is a parameter (`drift`).
- `@plasmohq/storage` serialisation: it is taken as a string-to-string map, where reading back what was written gives the same string.
