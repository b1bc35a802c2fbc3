/** The StyleText object: its settings, the local-storage item, and the page
    elements it reads and writes (the style-bound form controls and the text
    areas). Each method is one member of the object; each handler is the
    state change one event causes once it has been routed to the object.
    A method that returns `ok == false` ended with a thrown TypeError: what it
    had changed before the throw stays changed, the rest is not done. */
module StyleTextState {
  import opened JsValues
  import opened Storage
  import opened Shadow
  import opened FormBinding
  import opened Styling

  /** A form control bearing the style-binding marker. Its tag, name, type,
      `multiple` flag and option values are fixed; its value and selection
      change. `defaultValue` and `defaultIndex` are what a native form reset
      restores. */
  class Control {
    const tag: Tag
    const name: string
    const inputType: string
    const multiple: bool
    const options: seq<string>
    const defaultValue: string
    const defaultIndex: int
    var value: string
    var selectedIndex: int

    constructor (tag: Tag, name: string, inputType: string, multiple: bool, options: seq<string>,
                 defaultValue: string, defaultIndex: int)
      ensures View() == ControlView(tag, name, inputType, multiple, options, defaultValue, defaultIndex)
      ensures this.defaultValue == defaultValue && this.defaultIndex == defaultIndex
    {
      this.tag, this.name, this.inputType, this.multiple, this.options := tag, name, inputType, multiple, options;
      this.defaultValue, this.defaultIndex := defaultValue, defaultIndex;
      value, selectedIndex := defaultValue, defaultIndex;
    }

    /** The fields the object reads. */
    function View(): ControlView
      reads this
    {
      ControlView(tag, name, inputType, multiple, options, value, selectedIndex)
    }

    /** The control as a native form reset leaves it. */
    function ResetView(): ControlView
      reads this
    {
      View().(value := defaultValue, selectedIndex := defaultIndex)
    }
  }

  /** A text area bearing the text-area marker: its style properties and its text. */
  class TextArea {
    const defaultValue: string
    var value: string
    var style: map<string, string>

    constructor (defaultValue: string)
      ensures this.defaultValue == defaultValue && value == defaultValue && style == map[]
    {
      this.defaultValue := defaultValue;
      value, style := defaultValue, map[];
    }
  }

  predicate Distinct<T(==)>(s: seq<T>)
  {
    forall i, j :: 0 <= i < j < |s| ==> s[i] != s[j]
  }

  /** The views of a sequence of controls, in order. */
  function ViewsOf(cs: seq<Control>): (vs: seq<ControlView>)
    reads set c | c in cs
    ensures |vs| == |cs|
    ensures forall i :: 0 <= i < |cs| ==> vs[i] == cs[i].View()
  {
    if cs == [] then [] else [cs[0].View()] + ViewsOf(cs[1..])
  }

  class StyleText {
    /** The marked controls and the marked text areas, in document order. */
    const controls: seq<Control>
    const textAreas: seq<TextArea>
    /** The truthiness of `Number(s)` for a string `s` (no NaN, no zero). */
    const numberIsNonzero: string -> bool
    /** `Math.round(Number(fontSize without px) * Number(dropShadow))`. */
    const roundedShadowSize: (string, string) -> int
    /** `this.settings`; `None` when the property is absent. */
    var settings: Option<Settings>
    /** The local-storage item under `StorageKey`, decoded; `None` when there is none. */
    var stored: Option<Json>

    ghost predicate Valid()
    {
      Distinct(controls) && Distinct(textAreas)
    }

    constructor (controls: seq<Control>, textAreas: seq<TextArea>, stored: Option<Json>,
                 numberIsNonzero: string -> bool, roundedShadowSize: (string, string) -> int)
      requires Distinct(controls) && Distinct(textAreas)
      ensures Valid()
      ensures this.controls == controls && this.textAreas == textAreas && this.stored == stored
      ensures this.numberIsNonzero == numberIsNonzero && this.roundedShadowSize == roundedShadowSize
      ensures settings == None
    {
      this.controls, this.textAreas := controls, textAreas;
      this.numberIsNonzero, this.roundedShadowSize := numberIsNonzero, roundedShadowSize;
      this.stored := stored;
      settings := None;
    }

    function Views(): seq<ControlView>
      reads set c | c in controls
    {
      ViewsOf(controls)
    }

    /** The shadow the current settings give (`None`: its computation throws). */
    function CurrentShadow(): Option<string>
      reads this
    {
      TextShadow(settings, numberIsNonzero, roundedShadowSize)
    }

    /** Every text area carries the current settings and `shadow`, computed
        from its style and text in the old state. */
    twostate predicate TextAreasApplied(shadow: string)
      reads this, set t | t in textAreas
    {
      forall t :: t in textAreas ==>
        && t.style == Styled(old(t.style), settings, shadow)
        && t.value == AppliedText(old(t.value), settings)
    }

    twostate predicate TextAreasUnchanged()
      reads set t | t in textAreas
    {
      forall t :: t in textAreas ==> t.style == old(t.style) && t.value == old(t.value)
    }

    twostate predicate ControlsUnchanged()
      reads set c | c in controls
    {
      forall c :: c in controls ==> c.View() == old(c.View())
    }

    /** updateSettingsFromFormControl. */
    method UpdateSettingsFromFormControl(control: Control) returns (ok: bool)
      modifies this`settings
      ensures settings == SettingsAfterRead(old(settings), control.View())
      ensures ok <==> !ReadControl(control.View()).Threw?
    {
      var value: Value;
      if control.tag == Select {
        if control.multiple {
          return true;
        }
        if !(0 <= control.selectedIndex < |control.options|) {
          // `control.options[control.selectedIndex]` is undefined: `.value` throws
          return false;
        }
        value := Str(control.options[control.selectedIndex]);
      } else if control.tag == Input {
        if control.inputType == "radio" || control.inputType == "checkbox" {
          return true;
        }
        value := Str(control.value);
      } else {
        value := Undefined;
      }
      if settings.None? {
        settings := Some(map[]);
      }
      settings := Some(settings.value[control.name := value]);
      ok := true;
    }

    /** updateSettingsFromForm: each marked control in turn, stopping at a throw. */
    method UpdateSettingsFromForm() returns (ok: bool)
      modifies this`settings
      ensures (settings, ok) == ReadForm(old(settings), Views())
    {
      var views := Views();
      var i := 0;
      while i < |controls|
        invariant 0 <= i <= |controls|
        invariant ReadForm(old(settings), views) == ReadForm(settings, views[i..])
      {
        assert views[i..][1..] == views[i + 1..];
        ok := UpdateSettingsFromFormControl(controls[i]);
        if !ok {
          return;
        }
        i := i + 1;
      }
      ok := true;
    }

    /** loadSettingsFromStorage. */
    method LoadSettingsFromStorage() returns (loaded: bool)
      modifies this`settings
      ensures loaded <==> stored.Some?
      ensures settings == LoadedSettings(stored)
    {
      if stored.None? {
        settings := None;
        return false;
      }
      settings := Some(Parse(stored.value));
      loaded := true;
    }

    /** saveSettingsToStorage. */
    method SaveSettingsToStorage()
      modifies this`stored
      ensures stored == SavedItem(settings)
    {
      if settings.Some? {
        stored := Some(Stringify(settings.value));
      } else {
        stored := None;
      }
    }

    /** The body of applySettingsToTextAreas for one text area. */
    method ApplyToTextArea(area: TextArea, shadow: string)
      modifies area
      ensures area.style == Styled(old(area.style), settings, shadow)
      ensures area.value == AppliedText(old(area.value), settings)
    {
      var j := 0;
      while j < |StyleNames|
        invariant 0 <= j <= |StyleNames|
        invariant area.style == StyleFields(old(area.style), settings, StyleNames[..j])
        invariant area.value == old(area.value)
      {
        var styleName := StyleNames[j];
        if settings.Some? && Truthy(Lookup(settings.value, styleName)) {
          area.style := area.style[styleName := Lookup(settings.value, styleName).s];
        } else {
          area.style := area.style[styleName := ""];
        }
        assert StyleNames[..j + 1][..j] == StyleNames[..j];
        j := j + 1;
      }
      assert StyleNames[..j] == StyleNames by {
        assert j == |StyleNames|;
        assert forall n :: 0 <= n < j ==> StyleNames[..j][n] == StyleNames[n];
      }
      if settings.Some? && Truthy(Lookup(settings.value, TextKey)) {
        area.value := Lookup(settings.value, TextKey).s;
      }
      area.style := area.style[TextShadowProperty := shadow];
    }

    /** applySettingsToTextAreas: computes the shadow (which may throw before
        any text area is touched), then styles every text area. */
    method ApplySettingsToTextAreas() returns (ok: bool)
      requires Valid()
      modifies set t | t in textAreas
      ensures ok <==> CurrentShadow().Some?
      ensures ok ==> TextAreasApplied(CurrentShadow().value)
      ensures !ok ==> TextAreasUnchanged()
    {
      var shadow := TextShadowValue(settings, numberIsNonzero, roundedShadowSize);
      if shadow.None? {
        return false;
      }
      var i := 0;
      while i < |textAreas|
        invariant 0 <= i <= |textAreas|
        invariant forall k :: 0 <= k < i ==>
          && textAreas[k].style == Styled(old(textAreas[k].style), settings, shadow.value)
          && textAreas[k].value == AppliedText(old(textAreas[k].value), settings)
        invariant forall k :: i <= k < |textAreas| ==>
          textAreas[k].style == old(textAreas[k].style) && textAreas[k].value == old(textAreas[k].value)
      {
        var area := textAreas[i];
        ApplyToTextArea(area, shadow.value);
        assert forall k :: 0 <= k < |textAreas| && k != i ==> textAreas[k] != area;
        i := i + 1;
      }
      forall t | t in textAreas
        ensures t.style == Styled(old(t.style), settings, shadow.value)
        ensures t.value == AppliedText(old(t.value), settings)
      {
        var k :| 0 <= k < |textAreas| && textAreas[k] == t;
      }
      ok := true;
    }

    /** The body of updateFormFromSettings for one control. */
    method UpdateControlFromSettings(control: Control)
      modifies control
      ensures control.View() == WriteControl(settings, old(control.View()))
    {
      var name := control.name;
      if control.tag == Select {
        if control.multiple {
          return;
        }
        var i := 0;
        while i < |control.options|
          invariant 0 <= i <= |control.options|
          invariant control.View() == old(control.View())
          invariant forall j :: 0 <= j < i ==> Str(control.options[j]) != Get(settings, name)
        {
          if settings.Some? && Str(control.options[i]) == Lookup(settings.value, name) {
            control.selectedIndex := i;
            break;
          }
          i := i + 1;
        }
      } else if control.tag == Input {
        if control.inputType == "radio" || control.inputType == "checkbox" {
          return;
        }
        if settings.Some? && Truthy(Lookup(settings.value, name)) {
          control.value := Lookup(settings.value, name).s;
        }
      }
    }

    /** updateFormFromSettings: writes the settings into every marked control. */
    method UpdateFormFromSettings()
      requires Valid()
      modifies set c | c in controls
      ensures forall c :: c in controls ==> c.View() == WriteControl(settings, old(c.View()))
    {
      var i := 0;
      while i < |controls|
        invariant 0 <= i <= |controls|
        invariant forall k :: 0 <= k < i ==> controls[k].View() == WriteControl(settings, old(controls[k].View()))
        invariant forall k :: i <= k < |controls| ==> controls[k].View() == old(controls[k].View())
      {
        UpdateControlFromSettings(controls[i]);
        i := i + 1;
      }
    }

    /** init, after the event handlers are installed: load the stored settings
        into the form, or read the form when nothing is stored; then apply. */
    method Init() returns (ok: bool)
      requires Valid()
      modifies this`settings, set c | c in controls, set t | t in textAreas
      ensures stored.Some? ==>
        && settings == Some(Parse(stored.value))
        && forall c :: c in controls ==> c.View() == WriteControl(settings, old(c.View()))
      ensures stored.None? ==> ControlsUnchanged()
      ensures stored.None? ==> (settings, ReadForm(None, Views()).1) == ReadForm(None, Views())
      ensures ok <==> (stored.Some? || ReadForm(None, Views()).1) && CurrentShadow().Some?
      ensures ok ==> TextAreasApplied(CurrentShadow().value)
      ensures !ok ==> TextAreasUnchanged()
    {
      var loaded := LoadSettingsFromStorage();
      if loaded {
        UpdateFormFromSettings();
      } else {
        ok := UpdateSettingsFromForm();
        if !ok {
          return;
        }
      }
      assert TextAreasUnchanged();
      ok := ApplySettingsToTextAreas();
    }

    /** The change handler, for a control that is the event's target: a
        marked control is read into the settings, then the settings are saved
        and applied; any other target is ignored. */
    method ChangeHandler(target: Control) returns (ok: bool)
      requires Valid()
      modifies this`settings, this`stored, set t | t in textAreas
      ensures target !in controls ==>
        ok && settings == old(settings) && stored == old(stored) && TextAreasUnchanged()
      ensures target in controls ==> settings == SettingsAfterRead(old(settings), target.View())
      ensures target in controls && ReadControl(target.View()).Threw? ==>
        !ok && stored == old(stored) && TextAreasUnchanged()
      ensures target in controls && !ReadControl(target.View()).Threw? ==>
        && stored == SavedItem(settings)
        && (ok <==> CurrentShadow().Some?)
        && (ok ==> TextAreasApplied(CurrentShadow().value))
        && (!ok ==> TextAreasUnchanged())
    {
      if target !in controls {
        return true;
      }
      ok := UpdateSettingsFromFormControl(target);
      if !ok {
        return;
      }
      SaveSettingsToStorage();
      ok := ApplySettingsToTextAreas();
    }

    /** The input handler, for a text area that is the event's target: a
        marked text area's text becomes the `text` setting (creating the
        settings if needed), and the settings are saved; nothing is applied. */
    method InputHandler(target: TextArea)
      modifies this`settings, this`stored
      ensures target !in textAreas ==> settings == old(settings) && stored == old(stored)
      ensures target in textAreas ==>
        && settings.Some?
        && Entry(settings, TextKey) == Some(Str(target.value))
        && (forall k :: k != TextKey ==> Entry(settings, k) == Entry(old(settings), k))
        && stored == SavedItem(settings)
    {
      if target !in textAreas {
        return;
      }
      if settings.None? {
        settings := Some(map[]);
      }
      settings := Some(settings.value[TextKey := Str(target.value)]);
      SaveSettingsToStorage();
    }

    /** `form.reset()`: every marked control and text area in `form` takes its default. */
    method ResetForm(form: set<object>)
      requires Valid()
      modifies set c | c in controls, set t | t in textAreas
      ensures forall c :: c in controls ==>
        c.View() == if c in form then old(c.ResetView()) else old(c.View())
      ensures forall t :: t in textAreas ==>
        t.style == old(t.style) && t.value == if t in form then t.defaultValue else old(t.value)
    {
      var i := 0;
      while i < |controls|
        invariant 0 <= i <= |controls|
        invariant forall k :: 0 <= k < i ==>
          controls[k].View() == if controls[k] in form then old(controls[k].ResetView()) else old(controls[k].View())
        invariant forall k :: i <= k < |controls| ==> controls[k].View() == old(controls[k].View())
        invariant forall t :: t in textAreas ==> t.style == old(t.style) && t.value == old(t.value)
      {
        var c := controls[i];
        if c in form {
          c.value, c.selectedIndex := c.defaultValue, c.defaultIndex;
        }
        i := i + 1;
      }
      var j := 0;
      while j < |textAreas|
        invariant 0 <= j <= |textAreas|
        invariant forall k :: 0 <= k < j ==>
          && textAreas[k].style == old(textAreas[k].style)
          && textAreas[k].value == if textAreas[k] in form then textAreas[k].defaultValue else old(textAreas[k].value)
        invariant forall k :: j <= k < |textAreas| ==>
          textAreas[k].style == old(textAreas[k].style) && textAreas[k].value == old(textAreas[k].value)
        invariant forall c :: c in controls ==>
          c.View() == if c in form then old(c.ResetView()) else old(c.View())
      {
        var t := textAreas[j];
        if t in form {
          t.value := t.defaultValue;
        }
        j := j + 1;
      }
    }

    /** The reset handler: the settings are deleted, the reset button's form
        (`None`: the button has no form, and `form.reset()` throws) is
        reset, the storage item is removed, the form is read into fresh
        settings and those are applied. The item stays removed: nothing saves
        the fresh settings. */
    method ResetHandler(form: Option<set<object>>) returns (ok: bool)
      requires Valid()
      modifies this`settings, this`stored, set c | c in controls, set t | t in textAreas
      ensures form.None? ==>
        && !ok && settings == None && stored == old(stored)
        && ControlsUnchanged() && TextAreasUnchanged()
      ensures form.Some? ==>
        && stored == None
        && (forall c :: c in controls ==>
              c.View() == if c in form.value then old(c.ResetView()) else old(c.View()))
        && (settings, ReadForm(None, Views()).1) == ReadForm(None, Views())
        && (ok <==> ReadForm(None, Views()).1 && CurrentShadow().Some?)
        && forall t :: t in textAreas ==>
             var reset := if t in form.value then t.defaultValue else old(t.value);
             if ok then t.style == Styled(old(t.style), settings, CurrentShadow().value)
                        && t.value == AppliedText(reset, settings)
             else t.style == old(t.style) && t.value == reset
    {
      settings := None;
      if form.None? {
        return false;
      }
      ResetForm(form.value);
      SaveSettingsToStorage();
      ok := UpdateSettingsFromForm();
      if !ok {
        return;
      }
      ok := ApplySettingsToTextAreas();
    }
  }
}
