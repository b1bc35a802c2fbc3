/** The persisted form of the settings: one local-storage item whose text is
    the JSON serialisation of the settings object. The text itself is not
    modelled; an item is represented by the object it decodes to, a map from
    property name to string. */
module Storage {
  import opened JsValues

  /** The one local-storage key the object uses. */
  const StorageKey: string := "styleText"

  /** A stored item, as the object JSON.parse gives back. */
  type Json = map<string, string>

  /** JSON.stringify of the settings: properties whose value is `undefined`
      are omitted, string properties are kept. */
  function Stringify(s: Settings): (j: Json)
    ensures forall k :: k in j <==> k in s && s[k].Str?
  {
    map k | k in s && s[k].Str? :: s[k].s
  }

  /** JSON.parse of a stored item: every property comes back as a string. */
  function Parse(j: Json): (s: Settings)
    ensures s.Keys == j.Keys
  {
    map k | k in j :: Str(j[k])
  }

  /** Saving then loading gives back settings that read the same on every key:
      a key stored as `undefined` comes back absent, which also reads `undefined`. */
  lemma ParseStringifyLookup(s: Settings)
    ensures forall k :: Lookup(Parse(Stringify(s)), k) == Lookup(s, k)
  {
    forall k ensures Lookup(Parse(Stringify(s)), k) == Lookup(s, k) {
      if k in s && s[k].Str? {
        assert k in Stringify(s);
      }
    }
  }

  /** The round trip is exact exactly when no property holds `undefined`. */
  lemma ParseStringifyExact(s: Settings)
    ensures Parse(Stringify(s)) == s <==> forall k :: k in s ==> s[k].Str?
  {
    var t := Parse(Stringify(s));
    if forall k :: k in s ==> s[k].Str? {
      assert t.Keys == s.Keys;
      forall k | k in s ensures t[k] == s[k] {
        assert k in Stringify(s);
      }
    } else {
      var k :| k in s && !s[k].Str?;
      assert k !in t;
    }
  }

  /** A stored item survives loading and saving back unchanged. */
  lemma StringifyParse(j: Json)
    ensures Stringify(Parse(j)) == j
  {
    var t := Stringify(Parse(j));
    assert t.Keys == j.Keys;
  }

  /** The item saveSettingsToStorage leaves under the key: the serialised
      settings, or no item at all when there are none. */
  function SavedItem(settings: Option<Settings>): (r: Option<Json>)
    ensures r.None? <==> settings.None?
    ensures r.Some? ==> forall k :: k in r.value <==> k in settings.value && settings.value[k].Str?
  {
    match settings
    case None => None
    case Some(m) => Some(Stringify(m))
  }

  /** The settings loadSettingsFromStorage produces from the item: none when
      there is no item, the parsed object otherwise, whose every property is
      a string. */
  function LoadedSettings(item: Option<Json>): (r: Option<Settings>)
    ensures r.None? <==> item.None?
    ensures r.Some? ==> r.value.Keys == item.value.Keys && forall k :: k in r.value ==> r.value[k].Str?
  {
    match item
    case None => None
    case Some(j) => Some(Parse(j))
  }

  /** Saving and then loading restores the settings: absent stays absent
      (the load reports that nothing was found), present comes back present
      and reads the same on every key, and identical when no value is
      `undefined`. */
  lemma SaveLoadRoundTrip(settings: Option<Settings>)
    ensures SavedItem(settings).None? <==> settings.None?
    ensures LoadedSettings(SavedItem(settings)).Some? <==> settings.Some?
    ensures forall k :: Get(LoadedSettings(SavedItem(settings)), k) == Get(settings, k)
    ensures (settings.Some? ==> forall k :: k in settings.value ==> settings.value[k].Str?) ==>
      LoadedSettings(SavedItem(settings)) == settings
  {
    if settings.Some? {
      ParseStringifyLookup(settings.value);
      ParseStringifyExact(settings.value);
    }
  }
}
