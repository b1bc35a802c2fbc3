/** Form binding: reading one style-bound control into the settings, reading
    the whole form, and writing the settings back into a control. Controls
    are seen here through a snapshot of the fields the object uses. */
module FormBinding {
  import opened JsValues

  /** `control.tagName.toLowerCase()`, as far as the object distinguishes it. */
  datatype Tag = Select | Input | Other

  /** The fields of a control that the object reads: tag, `name`, `type`,
      `multiple`, the option values, `value` and `selectedIndex`. */
  datatype ControlView = ControlView(tag: Tag, name: string, inputType: string, multiple: bool,
                                     options: seq<string>, value: string, selectedIndex: int)

  /** The kinds the object skips: multi-selects, radio buttons and checkboxes. */
  predicate Unsupported(c: ControlView) {
    || (c.tag == Select && c.multiple)
    || (c.tag == Input && (c.inputType == "radio" || c.inputType == "checkbox"))
  }

  /** What reading a control gives: nothing (skipped), a thrown TypeError, or a value. */
  datatype Reading = Skipped | Threw | Read(v: Value)

  /** The value updateSettingsFromFormControl reads from a control. A select
      reads the value of the option at `selectedIndex`; with no option there
      (`selectedIndex` is -1 when nothing is selected) `options[i]` is
      `undefined` and reading `.value` of it throws. A control of any other
      tag contributes `undefined`. */
  function ReadControl(c: ControlView): (r: Reading)
    ensures r.Skipped? <==> Unsupported(c)
    ensures r.Threw? <==> c.tag == Select && !c.multiple && !(0 <= c.selectedIndex < |c.options|)
  {
    match c.tag
    case Select =>
      if c.multiple then Skipped
      else if 0 <= c.selectedIndex < |c.options| then Read(Str(c.options[c.selectedIndex]))
      else Threw
    case Input =>
      if c.inputType == "radio" || c.inputType == "checkbox" then Skipped else Read(Str(c.value))
    case Other => Read(Undefined)
  }

  /** The settings after reading one control: an unsupported control, or one
      that throws, leaves them as they were (absent stays absent); any other
      sets `settings[name]`, creating the settings object if needed, and
      keeps every other key. */
  function SettingsAfterRead(s: Option<Settings>, c: ControlView): (r: Option<Settings>)
    ensures !ReadControl(c).Read? ==> r == s
    ensures ReadControl(c).Read? ==>
      && r.Some?
      && r.value.Keys == OrEmpty(s).Keys + {c.name}
      && r.value[c.name] == ReadControl(c).v
      && forall k :: k in OrEmpty(s) && k != c.name ==> r.value[k] == OrEmpty(s)[k]
  {
    match ReadControl(c)
    case Read(v) => Some(OrEmpty(s)[c.name := v])
    case _ => s
  }

  /** updateSettingsFromForm: reads every control in document order; a throw
      ends the walk, keeping what was read before it. The flag says whether
      the walk completed. A walk in which no control is read leaves the
      settings as they were, absent ones included. */
  function ReadForm(s: Option<Settings>, cs: seq<ControlView>): (r: (Option<Settings>, bool))
    ensures (forall i :: 0 <= i < |cs| ==> !ReadControl(cs[i]).Read?) ==> r.0 == s
    decreases |cs|
  {
    if cs == [] then (s, true)
    else if ReadControl(cs[0]).Threw? then (s, false)
    else ReadForm(SettingsAfterRead(s, cs[0]), cs[1..])
  }

  /** The walk completes exactly when no control throws. */
  lemma {:induction false} ReadFormCompletes(s: Option<Settings>, cs: seq<ControlView>)
    ensures ReadForm(s, cs).1 <==> forall i :: 0 <= i < |cs| ==> !ReadControl(cs[i]).Threw?
    decreases |cs|
  {
    if cs != [] && !ReadControl(cs[0]).Threw? {
      ReadFormCompletes(SettingsAfterRead(s, cs[0]), cs[1..]);
      assert forall i :: 1 <= i < |cs| ==> cs[i] == cs[1..][i - 1];
    }
  }

  /** A key that no read control carries is left exactly as it was: skipped
      controls never add, change or remove a key. */
  lemma {:induction false} ReadFormUntouched(s: Option<Settings>, cs: seq<ControlView>, k: string)
    requires forall i :: 0 <= i < |cs| && cs[i].name == k ==> !ReadControl(cs[i]).Read?
    ensures Entry(ReadForm(s, cs).0, k) == Entry(s, k)
    decreases |cs|
  {
    if cs != [] && !ReadControl(cs[0]).Threw? {
      forall i | 0 <= i < |cs| - 1 && cs[1..][i].name == k
        ensures !ReadControl(cs[1..][i]).Read?
      {
        assert cs[1..][i] == cs[i + 1];
      }
      ReadFormUntouched(SettingsAfterRead(s, cs[0]), cs[1..], k);
    }
  }

  /** The last read control with a given name decides that key, provided no
      control before it throws. */
  lemma {:induction false} ReadFormLastWins(s: Option<Settings>, cs: seq<ControlView>, i: nat)
    requires i < |cs| && ReadControl(cs[i]).Read?
    requires forall j :: 0 <= j < i ==> !ReadControl(cs[j]).Threw?
    requires forall j :: i < j < |cs| && cs[j].name == cs[i].name ==> !ReadControl(cs[j]).Read?
    ensures Entry(ReadForm(s, cs).0, cs[i].name) == Some(ReadControl(cs[i]).v)
    decreases i
  {
    var s' := SettingsAfterRead(s, cs[0]);
    var rest := cs[1..];
    if i == 0 {
      forall j | 0 <= j < |rest| && rest[j].name == cs[0].name
        ensures !ReadControl(rest[j]).Read?
      {
        assert rest[j] == cs[j + 1];
      }
      ReadFormUntouched(s', rest, cs[0].name);
    } else {
      assert rest[i - 1] == cs[i];
      forall j | 0 <= j < i - 1 ensures !ReadControl(rest[j]).Threw? {
        assert rest[j] == cs[j + 1];
      }
      forall j | i - 1 < j < |rest| && rest[j].name == rest[i - 1].name
        ensures !ReadControl(rest[j]).Read?
      {
        assert rest[j] == cs[j + 1];
      }
      ReadFormLastWins(s', rest, i - 1);
    }
  }

  /** Reading the form into fresh settings creates only keys named by some
      supported control: multi-selects, radio buttons and checkboxes never
      contribute a key. */
  lemma FreshReadKeys(cs: seq<ControlView>, k: string)
    requires Entry(ReadForm(None, cs).0, k).Some?
    ensures exists i :: 0 <= i < |cs| && cs[i].name == k && !Unsupported(cs[i]) && ReadControl(cs[i]).Read?
  {
    if forall i :: 0 <= i < |cs| && cs[i].name == k ==> !ReadControl(cs[i]).Read? {
      ReadFormUntouched(None, cs, k);
      assert false;
    }
  }

  /** The option scan of updateFormFromSettings: the first option whose value
      is `wanted`, if any. */
  function FirstMatch(options: seq<string>, wanted: Value): (r: Option<nat>)
    ensures r.Some? ==>
      && r.value < |options|
      && Str(options[r.value]) == wanted
      && forall j :: 0 <= j < r.value ==> Str(options[j]) != wanted
    ensures r.None? <==> forall j :: 0 <= j < |options| ==> Str(options[j]) != wanted
    decreases |options|
  {
    if options == [] then None
    else if Str(options[0]) == wanted then Some(0)
    else match FirstMatch(options[1..], wanted)
      case None => None
      case Some(i) => Some(i + 1)
  }

  /** updateFormFromSettings for one control. A single select moves to the
      first option whose value equals `settings[name]`, and keeps its
      selection when none does; a text-like input takes `settings[name]` only
      when that is a non-empty string; everything else is left alone. */
  function WriteControl(s: Option<Settings>, c: ControlView): (r: ControlView)
    ensures r.(value := c.value, selectedIndex := c.selectedIndex) == c
    ensures Unsupported(c) || c.tag == Other ==> r == c
    ensures c.tag == Select ==> r.value == c.value
    ensures c.tag == Select && !c.multiple ==>
      if exists j :: 0 <= j < |c.options| && Str(c.options[j]) == Get(s, c.name) then
        && 0 <= r.selectedIndex < |c.options|
        && Str(c.options[r.selectedIndex]) == Get(s, c.name)
        && forall j :: 0 <= j < r.selectedIndex ==> Str(c.options[j]) != Get(s, c.name)
      else r.selectedIndex == c.selectedIndex
    ensures c.tag == Input && !Unsupported(c) ==>
      && r.selectedIndex == c.selectedIndex
      && r.value == (if Truthy(Get(s, c.name)) then Get(s, c.name).s else c.value)
  {
    match c.tag
    case Select =>
      if c.multiple then c
      else (match FirstMatch(c.options, Get(s, c.name))
        case None => c
        case Some(i) => c.(selectedIndex := i))
    case Input =>
      if c.inputType == "radio" || c.inputType == "checkbox" then c
      else if Truthy(Get(s, c.name)) then c.(value := Get(s, c.name).s)
      else c
    case Other => c
  }

  /** Without settings, writing back changes no control. */
  lemma WriteWithoutSettings(c: ControlView)
    ensures WriteControl(None, c) == c
  {
  }

  /** Writing the same settings back twice is the same as once. */
  lemma WriteIdempotent(s: Option<Settings>, c: ControlView)
    ensures WriteControl(s, WriteControl(s, c)) == WriteControl(s, c)
  {
  }

  /** Reading a control and writing the result back shows the same value: an
      input or other control is unchanged, and a select lands on the first
      option carrying the value that was selected. */
  lemma ReadThenWrite(s: Option<Settings>, c: ControlView)
    requires ReadControl(c).Read?
    ensures var r := WriteControl(SettingsAfterRead(s, c), c);
      && (c.tag != Select ==> r == c)
      && (c.tag == Select ==>
            && 0 <= r.selectedIndex <= c.selectedIndex
            && c.options[r.selectedIndex] == c.options[c.selectedIndex]
            && forall j :: 0 <= j < r.selectedIndex ==> c.options[j] != c.options[c.selectedIndex])
  {
  }
}
