/** Script-level values as the StyleText object sees them: a settings entry is
    a string or `undefined`, and an absent key reads as `undefined`. */
module JsValues {

  datatype Option<+T> = None | Some(value: T)

  /** A settings value: a string, or `undefined` (what a control of an
      unsupported tag contributes, and what a missing key reads as). */
  datatype Value = Undefined | Str(s: string)

  /** Truthiness: only a non-empty string is truthy. */
  predicate Truthy(v: Value) {
    v.Str? && v.s != ""
  }

  /** The in-memory settings object: property name to value. */
  type Settings = map<string, Value>

  /** `obj[key]`: a missing property reads as `undefined`. */
  function Lookup(m: Settings, key: string): Value {
    if key in m then m[key] else Undefined
  }

  /** `this.settings && this.settings[key]`: `undefined` when there are no settings. */
  function Get(settings: Option<Settings>, key: string): Value {
    match settings
    case None => Undefined
    case Some(m) => Lookup(m, key)
  }

  /** `if (!this.settings) { this.settings = {}; }` — the object written into. */
  function OrEmpty(settings: Option<Settings>): Settings {
    match settings
    case None => map[]
    case Some(m) => m
  }

  /** What a reader of key `key` can observe: absent, or present with a value. */
  function Entry(settings: Option<Settings>, key: string): Option<Value> {
    if settings.Some? && key in settings.value then Some(settings.value[key]) else None
  }
}
