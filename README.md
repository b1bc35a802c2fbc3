# StyleText, modelled in Dafny

StyleText is a small page script. It reads style-bound form controls (those
with the `data-style-text` marker) into a settings object. It persists that
object as JSON under the local-storage key `styleText`. It applies the nine
style properties, the text and a computed multi-layer drop shadow to every
text area with the `data-text-area` marker. This project models the
`StyleText` object of `styletext.js` and proves properties of the model:

- `values.dfy` (`JsValues`): settings values as scripts see them. A value is
  a string or `undefined`, a missing key reads as `undefined`, and only a
  non-empty string is truthy.
- `storage.dfy` (`Storage`): the stored item. `JSON.stringify` drops
  `undefined` properties and `JSON.parse` gives strings back.
- `shadow.dfy` (`Shadow`): `getTextShadowValueFromSettings`. The loop runs
  over a half-pixel counter `k = 1 .. 2 * dropShadowSize`, and layer `k`
  prints `String(k / 2)` as its offset.
- `form.dfy` (`FormBinding`): reading one control, reading the whole form,
  and the write-back with its first-match option scan. Each works on a
  snapshot (`ControlView`) of a control.
- `styling.dfy` (`Styling`): the style, shadow and text a text area gets.
- `style_text.dfy` (`StyleTextState`): the object itself. `Control` and
  `TextArea` are classes updated in place. `StyleText` holds `settings`, the
  stored item and the marked elements. Its methods are the object's members
  and the three handlers' state transitions.

The source throws a TypeError in several situations. The model returns
`ok == false` for each of them and keeps everything the throw leaves behind:

- A single select with no selected option: `options[-1].value`.
- A reset button outside a form: `control.form.reset()`.
- A switched-on shadow whose settings have no `fontSize`: `undefined.replace`.

Two behaviours of the code shape the properties below:

- Saving and loading is exact only when no setting is `undefined`. A control
  of a tag other than select or input writes `undefined` (styletext.js:54,69),
  and that key is lost on saving. It still reads the same (`undefined`)
  after loading (`Storage.SaveLoadRoundTrip`).
- After a reset, the fresh settings read from the form are not saved. The
  item stays removed until the next change or input event (styletext.js:18,
  30, 37-41).

## Model

| member | source | states |
|---|---|---|
| `FormBinding.ReadControl` | styletext.js:51-65 | a read is skipped exactly for multi-selects and radio/checkbox inputs; it throws exactly for a single select whose `selectedIndex` names no option |
| `FormBinding.SettingsAfterRead` | styletext.js:50-70 | a skipped or throwing control leaves the settings as they were (absent stays absent); otherwise `settings[name]` becomes the read value (the selected option's value, the input's value, or `undefined` for another tag), `{}` is created first if needed, and every other key is kept |
| `FormBinding.ReadForm` | styletext.js:45-49 | walks the controls in document order and stops at the first throw; a walk that reads no control leaves the settings as they were, absent ones included (completion, untouched keys and the deciding control are the three lemmas below) |
| `FormBinding.ReadFormCompletes` | styletext.js:45-49 | reading the whole form completes exactly when no control throws |
| `FormBinding.ReadFormUntouched` | styletext.js:45-49 | a key that no read control names keeps its exact entry (skipped controls never add, change or remove a key) |
| `FormBinding.ReadFormLastWins` | styletext.js:45-49 | the last read control with a name decides that key, provided nothing before it throws |
| `FormBinding.FreshReadKeys` | styletext.js:45-69 | reading the form into absent settings creates only keys named by a supported control |
| `FormBinding.FirstMatch` | styletext.js:112-117 | the option scan finds the least index whose option value equals the wanted value, and finds nothing exactly when no option does |
| `FormBinding.WriteControl` | styletext.js:104-125 | only `value` and `selectedIndex` can change; unsupported and other-tag controls are untouched; a single select moves to the first matching option and otherwise keeps its selection; a text-like input takes the setting only when it is a non-empty string |
| `FormBinding.WriteWithoutSettings` | styletext.js:113-122 | with no settings, writing back changes no control |
| `FormBinding.WriteIdempotent` | styletext.js:103-127 | writing the same settings back twice equals writing once |
| `FormBinding.ReadThenWrite` | styletext.js:103-127 | reading a control and writing the result back shows the same value: inputs unchanged, a select moves to the first option with the selected value |
| `Storage.Stringify` | styletext.js:82 | the serialised item has exactly the keys whose value is a string |
| `Storage.Parse` | styletext.js:77 | the parsed settings have exactly the item's keys |
| `Storage.SavedItem` | styletext.js:80-86 | there is no item exactly when there are no settings; otherwise the item's keys are exactly the settings holding a string |
| `Storage.LoadedSettings` | styletext.js:71-79 | there are no settings exactly when there is no item; otherwise they have the item's keys and every value is a string |
| `Storage.ParseStringifyLookup` | styletext.js:77-82 | parse after stringify reads the same on every key |
| `Storage.ParseStringifyExact` | styletext.js:77-82 | parse after stringify is the identity exactly when no value is `undefined` |
| `Storage.StringifyParse` | styletext.js:77-82 | a stored item comes back unchanged through load and save |
| `Storage.SaveLoadRoundTrip` | styletext.js:71-86 | save then load: absent settings leave no item and load back as absent; present settings load back present, equal on every key, and identical when no value is `undefined` |
| `Shadow.Decimal` | styletext.js:150 | an integer prints as at least one decimal digit with no leading zero |
| `Shadow.DecimalRoundTrip` | styletext.js:150 | the printed integer denotes the integer |
| `Shadow.OffsetRoundTrip` | styletext.js:149-150 | the offset printed for layer `k` is exactly `k * 0.5` (a `.5` fraction for odd `k`) |
| `Shadow.Substitute` | styletext.js:150 | a colour without `$` is inserted verbatim by `replace` |
| `Shadow.Layer` | styletext.js:150 | for a colour without `$`, layer `k` is `"{o}px {o}px {color}"` with `o` the printed offset `String(k / 2)`; `$` patterns in the colour are expanded by `Substitute` |
| `Shadow.LayerCount` | styletext.js:149 | no layer exactly when the size is at most 0; otherwise the count `n` with `n * 0.5 <= size < (n + 1) * 0.5` |
| `Shadow.LayerCountExact` | styletext.js:149 | layer `k` is generated exactly when `k * 0.5 <= dropShadowSize` |
| `Shadow.Layers` | styletext.js:147-151 | exactly `n` entries, entry `j` being layer `j + 1` |
| `Shadow.LayersSnoc` | styletext.js:149-151 | one more iteration appends layer `n + 1` to the first `n` |
| `Shadow.LayersShape` | styletext.js:147-151 | there are exactly `n` layers, and for a colour without `$` layer `j + 1` reads `"{o}px {o}px {color}"` with `o` the printed offset of `j + 1` half pixels |
| `Shadow.Join` | styletext.js:155 | no parts give `''`, one part gives itself, and more start with the first part followed by the separator |
| `Shadow.JoinNonEmpty` | styletext.js:152-155 | joining a list whose first layer is non-empty gives a non-empty string |
| `Shadow.DropShadowOn` | styletext.js:140-142 | the shadow is on exactly when `dropShadow` is a string whose number is nonzero (`undefined` gives NaN, which is falsy) |
| `Shadow.TextShadow` | styletext.js:139-157 | no settings give `''`; the value is undefined (the throw) only when `fontSize` is missing; a non-empty shadow needs the shadow on and a colour set (the full case split is `TextShadowCases`) |
| `Shadow.TextShadowCases` | styletext.js:140-156 | the shadow is `''` exactly when it is off (absent settings, `dropShadow` zero or not a number, no colour) or the size is below half a pixel; it throws exactly when it is on and `fontSize` is missing |
| `Shadow.SixteenPixelOffsets` | styletext.js:149-150 | layers 1, 2 and 32 print the offsets `0.5`, `1` and `16` |
| `Shadow.SixteenPixelShadow` | styletext.js:145-155 | size 16 in `#000` gives 32 layers from `0.5px 0.5px #000` to `16px 16px #000` |
| `Shadow.TextShadowValue` | styletext.js:139-157 | the loop builds exactly the specified shadow, or reports the throw |
| `Styling.TextShadowNotStyleName` | styletext.js:100-138 | the shadow property is none of the nine style properties |
| `Styling.StyleValue` | styletext.js:91-95 | a property's new value is `''` exactly when its setting is not a non-empty string, and otherwise is that setting |
| `Styling.StyleFields` | styletext.js:90-96 | writing the properties in order removes none and makes each written one present (the values are `StyleFieldsSpec`) |
| `Styling.StyleFieldsSpec` | styletext.js:90-96 | each written property holds its setting when truthy, `''` otherwise; every other property is kept |
| `Styling.Styled` | styletext.js:89-100 | the shadow property ends up holding the shadow (the other properties are `StyledSpec`) |
| `Styling.AppliedText` | styletext.js:97-99 | the text becomes the `text` setting when that is a non-empty string and is kept otherwise |
| `Styling.StyledSpec` | styletext.js:88-100 | after applying, each of the nine properties holds its setting or `''`, `textShadow` holds the shadow, nothing else changes |
| `Styling.StyledIdempotent` | styletext.js:87-102 | applying the same settings twice gives the same style as once |
| `Styling.ClearedWithoutSettings` | styletext.js:91-95 | with no settings all nine properties are cleared |
| `StyleTextState.ViewsOf` | styletext.js:46 | the views are those of the controls, in document order |
| `StyleTextState.StyleText.UpdateSettingsFromFormControl` | styletext.js:50-70 | the new settings are `SettingsAfterRead` of the old ones; `ok` is false exactly when reading throws |
| `StyleTextState.StyleText.UpdateSettingsFromForm` | styletext.js:45-49 | settings and completion are `ReadForm` of the old settings over the controls |
| `StyleTextState.StyleText.LoadSettingsFromStorage` | styletext.js:71-79 | returns whether an item exists; settings become its parse, or absent when there is none |
| `StyleTextState.StyleText.SaveSettingsToStorage` | styletext.js:80-86 | the item becomes the serialised settings, or is removed when there are none |
| `StyleTextState.StyleText.ApplyToTextArea` | styletext.js:89-101 | one text area's style and text become `Styled` and `AppliedText` of their old values |
| `StyleTextState.StyleText.ApplySettingsToTextAreas` | styletext.js:87-102 | when the shadow is defined, every text area is styled with it; otherwise (the throw) none is touched |
| `StyleTextState.StyleText.UpdateControlFromSettings` | styletext.js:104-126 | one control becomes `WriteControl` of its old view; the scan stops at the first match |
| `StyleTextState.StyleText.UpdateFormFromSettings` | styletext.js:103-127 | every marked control becomes `WriteControl` of its old view |
| `StyleTextState.StyleText.Init` | styletext.js:2-10 | with an item: settings are its parse and the form is written from them; without: the form is read into fresh settings and left unchanged; then the settings are applied unless a throw came first |
| `StyleTextState.StyleText.ChangeHandler` | styletext.js:13-19 | an unmarked target changes nothing; a marked one is read, and unless that throws the settings are saved and applied |
| `StyleTextState.StyleText.InputHandler` | styletext.js:22-30 | for a marked text area, `text` becomes its text, settings are created if absent, no other key's entry changes, and the settings are saved |
| `StyleTextState.StyleText.ResetForm` | styletext.js:38 | controls and text areas in the form take their defaults; everything else, and all styles, are kept |
| `StyleTextState.StyleText.ResetHandler` | styletext.js:33-42 | the settings are deleted; without a form that throws; otherwise the form is reset, the item removed (and not re-saved), the form read into fresh settings and those applied |

## Left out

- Event wiring: `addEventListener`, `event.target`, the `matches('input[type="reset"]')` filter, `preventDefault`, `bind` and the `load` hook are not modelled. Each handler is a method on the object's state that takes the event's target (or, for reset, the reset button's form).
- The DOM lookup `querySelectorAll` is modelled as the fixed sequences `controls` and `textAreas`. The page's elements do not change while the object runs.
- Native `form.reset()` is modelled as each element taking fixed default values (`defaultValue`, `defaultIndex`). The browser's real reset rules are not modelled.
- The JSON text is not modelled: a stored item is the object it decodes to. The thrown error for a malformed stored item is left out, because only `saveSettingsToStorage` writes the item.
- Number coercion is not modelled. `numberIsNonzero` stands for the truthiness of `Number(s)`. `roundedShadowSize` stands for `Math.round(Number(fontSize without px) * Number(dropShadow))`. Both are supplied when the object is built. The `: 16` fallback is left out, because it is unreachable: with no settings the shadow is already off.
- `Shadow.Decimal`: models `String(n)` only below 10^21, where JavaScript switches to exponent notation. The model also does not capture that `i += 0.5` stops being exact beyond 2^52. No loop that large can finish anyway.
- CSS semantics are left out: a style is a map from property name to string, and a value the browser would refuse is stored as written.
- The loop counter `i` in `updateFormFromSettings` is an implicit global (styletext.js:112). The write to the global object is not modelled.
- Special property names such as `__proto__` act like ordinary keys in the model.
- An element that carries both `data-style-text` and `data-text-area` cannot be expressed. Style-bound controls (`Control`) and text areas (`TextArea`) are objects of different classes, so no object is in both lists. For example, the model cannot express an `<input>` whose `value` applying overwrites and a later change reads back.
- `roundedShadowSize` returns an integer. A size of `Infinity` (for example `dropShadow` `1e400`) has no counterpart in the model. On such a size the loop at styletext.js:149 never ends.
