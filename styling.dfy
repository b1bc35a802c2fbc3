/** Applying the settings to a text area: the nine style properties, the
    text-shadow property and the text itself. */
module Styling {
  import opened JsValues

  /** The style properties copied from the settings, in the order they are written. */
  const StyleNames: seq<string> := [
    "fontFamily", "fontStyle", "fontWeight", "fontSize", "color",
    "backgroundColor", "textAlign", "fontStretch", "padding"
  ]

  /** The style property that receives the computed shadow. */
  const TextShadowProperty: string := "textShadow"

  /** The settings key mirrored into the text areas' content. */
  const TextKey: string := "text"

  lemma TextShadowNotStyleName()
    ensures TextShadowProperty !in StyleNames
  {
  }

  /** A style property's new value: the setting when it is a non-empty
      string, the empty string (clearing the property) otherwise. */
  function StyleValue(s: Option<Settings>, name: string): (r: string)
    ensures r == "" <==> !Truthy(Get(s, name))
    ensures r != "" ==> Get(s, name) == Str(r)
  {
    if Truthy(Get(s, name)) then Get(s, name).s else ""
  }

  /** The style after writing the properties `names`, in order: no property
      is removed and every written one is present. */
  function StyleFields(style: map<string, string>, s: Option<Settings>, names: seq<string>): (r: map<string, string>)
    ensures style.Keys <= r.Keys
    ensures forall n :: n in names ==> n in r
    decreases |names|
  {
    if names == [] then style
    else
      var last := names[|names| - 1];
      StyleFields(style, s, names[..|names| - 1])[last := StyleValue(s, last)]
  }

  /** Each written property holds its value from the settings; every other
      property is untouched. */
  lemma {:induction false} StyleFieldsSpec(style: map<string, string>, s: Option<Settings>, names: seq<string>)
    ensures StyleFields(style, s, names).Keys == style.Keys + (set n | n in names)
    ensures forall n :: n in names ==> StyleFields(style, s, names)[n] == StyleValue(s, n)
    ensures forall k :: k in style && k !in names ==> StyleFields(style, s, names)[k] == style[k]
    decreases |names|
  {
    if names != [] {
      var init, last := names[..|names| - 1], names[|names| - 1];
      assert names == init + [last];
      var prev := StyleFields(style, s, init);
      assert StyleFields(style, s, names) == prev[last := StyleValue(s, last)];
      StyleFieldsSpec(style, s, init);
      assert (set n | n in names) == (set n | n in init) + {last};
    }
  }

  /** The style of a text area after applySettingsToTextAreas: the nine
      properties, then the shadow, which the shadow property ends up holding
      (StyledSpec states the rest). */
  function Styled(style: map<string, string>, s: Option<Settings>, shadow: string): (r: map<string, string>)
    ensures TextShadowProperty in r && r[TextShadowProperty] == shadow
  {
    StyleFields(style, s, StyleNames)[TextShadowProperty := shadow]
  }

  /** The text of a text area after applySettingsToTextAreas: the `text`
      setting when it is a non-empty string, the old text otherwise. */
  function AppliedText(value: string, s: Option<Settings>): (r: string)
    ensures Truthy(Get(s, TextKey)) ==> r == Get(s, TextKey).s
    ensures !Truthy(Get(s, TextKey)) ==> r == value
  {
    if Truthy(Get(s, TextKey)) then Get(s, TextKey).s else value
  }

  /** After applying, every one of the nine properties holds its setting or
      the empty string, the shadow property holds the shadow, and nothing
      else in the style changes. */
  lemma StyledSpec(style: map<string, string>, s: Option<Settings>, shadow: string)
    ensures Styled(style, s, shadow).Keys == style.Keys + (set n | n in StyleNames) + {TextShadowProperty}
    ensures forall n :: n in StyleNames ==> Styled(style, s, shadow)[n] == StyleValue(s, n)
    ensures Styled(style, s, shadow)[TextShadowProperty] == shadow
    ensures forall k :: k in style && k !in StyleNames && k != TextShadowProperty ==>
      Styled(style, s, shadow)[k] == style[k]
  {
    StyleFieldsSpec(style, s, StyleNames);
    TextShadowNotStyleName();
  }

  /** Applying the same settings twice gives the same style as applying once. */
  lemma StyledIdempotent(style: map<string, string>, s: Option<Settings>, shadow: string)
    ensures Styled(Styled(style, s, shadow), s, shadow) == Styled(style, s, shadow)
  {
    var once := Styled(style, s, shadow);
    StyledSpec(style, s, shadow);
    StyledSpec(once, s, shadow);
    assert Styled(once, s, shadow).Keys == once.Keys;
  }

  /** Without settings every one of the nine properties is cleared. */
  lemma ClearedWithoutSettings(style: map<string, string>, shadow: string)
    ensures forall n :: n in StyleNames ==> n in Styled(style, None, shadow) && Styled(style, None, shadow)[n] == ""
  {
    StyledSpec(style, None, shadow);
  }
}
