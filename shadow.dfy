/** The layered drop shadow: `2 * dropShadowSize` stacked text-shadow layers
    at offsets 0.5px, 1px, 1.5px, ..., all in the drop-shadow colour. */
module Shadow {
  import opened JsValues

  /** The decimal digit for `d`. */
  function Digit(d: nat): char
    requires d < 10
  {
    (48 + d) as char
  }

  /** `String(n)` for a non-negative integer below 10^21: its decimal digits. */
  function Decimal(n: nat): (r: string)
    ensures |r| >= 1
    ensures forall i :: 0 <= i < |r| ==> '0' <= r[i] <= '9'
    ensures |r| > 1 ==> r[0] != '0'
    decreases n
  {
    if n < 10 then [Digit(n)] else Decimal(n / 10) + [Digit(n % 10)]
  }

  /** The number a string of decimal digits denotes. */
  function DecimalValue(s: string): int
  {
    if s == [] then 0 else 10 * DecimalValue(s[..|s| - 1]) + (s[|s| - 1] as int - 48)
  }

  lemma {:induction false} DecimalRoundTrip(n: nat)
    ensures DecimalValue(Decimal(n)) == n
    decreases n
  {
    if n >= 10 {
      DecimalRoundTrip(n / 10);
      var d := Decimal(n);
      assert d[..|d| - 1] == Decimal(n / 10);
    }
  }

  /** `String(k / 2)`: the offset of layer `k`, counted in half pixels.
      An odd `k` prints with a `.5` fraction, an even one as an integer. */
  function Offset(k: nat): string
  {
    if k % 2 == 0 then Decimal(k / 2) else Decimal(k / 2) + ".5"
  }

  /** Reads an offset back, in half pixels. */
  function OffsetValue(s: string): int
  {
    if |s| >= 2 && s[|s| - 2..] == ".5" then 2 * DecimalValue(s[..|s| - 2]) + 1
    else 2 * DecimalValue(s)
  }

  /** The printed offset of layer `k` is exactly `k * 0.5`. */
  lemma OffsetRoundTrip(k: nat)
    ensures OffsetValue(Offset(k)) == k
  {
    var d := Decimal(k / 2);
    DecimalRoundTrip(k / 2);
    if k % 2 == 0 {
      if |d| >= 2 {
        assert d[|d| - 2] != '.';
        assert d[|d| - 2..] != ".5";
      }
    } else {
      assert Offset(k)[..|Offset(k)| - 2] == d;
    }
  }

  /** The replacement step of `String.prototype.replace` with a string
      replacement and a pattern without capture groups: `$$` becomes `$`,
      `$&` the matched text, `` $` `` the text before the match and `$'` the
      text after it; every other character is copied. */
  function Substitute(repl: string, matched: string, before: string, after: string): (r: string)
    ensures '$' !in repl ==> r == repl
    decreases |repl|
  {
    if |repl| == 0 then ""
    else if repl[0] == '$' && |repl| >= 2 && repl[1] == '$' then
      "$" + Substitute(repl[2..], matched, before, after)
    else if repl[0] == '$' && |repl| >= 2 && repl[1] == '&' then
      matched + Substitute(repl[2..], matched, before, after)
    else if repl[0] == '$' && |repl| >= 2 && repl[1] == '`' then
      before + Substitute(repl[2..], matched, before, after)
    else if repl[0] == '$' && |repl| >= 2 && repl[1] == '\'' then
      after + Substitute(repl[2..], matched, before, after)
    else
      [repl[0]] + Substitute(repl[1..], matched, before, after)
  }

  /** The text `"{offset}px {offset}px {color}"`. */
  function PlainLayer(offset: string, color: string): string
  {
    offset + "px " + offset + "px " + color
  }

  /** Layer `k`: the template `"%dpx %dpx %s"` with both `%d` replaced by the
      offset and then `%s` replaced by the colour. A colour without `$` is
      copied into the layer verbatim. */
  function Layer(k: nat, color: string): (r: string)
    ensures '$' !in color ==> r == PlainLayer(Offset(k), color)
  {
    var prefix := Offset(k) + "px " + Offset(k) + "px ";
    prefix + Substitute(color, "%s", prefix, "")
  }

  /** The first `n` layers, in loop order: entry `j` is layer `j + 1`. */
  function Layers(n: nat, color: string): (r: seq<string>)
    ensures |r| == n
    ensures forall j :: 0 <= j < n ==> r[j] == Layer(j + 1, color)
  {
    seq(n, j requires 0 <= j < n => Layer(j + 1, color))
  }

  /** One more iteration appends the next layer. */
  lemma LayersSnoc(n: nat, color: string)
    ensures Layers(n + 1, color) == Layers(n, color) + [Layer(n + 1, color)]
  {
    var a := Layers(n + 1, color);
    var b := Layers(n, color) + [Layer(n + 1, color)];
    assert |a| == |b|;
    forall j | 0 <= j < |a| ensures a[j] == b[j] {
      if j < n {
        assert a[j] == Layer(j + 1, color) == b[j];
      }
    }
  }

  /** `parts.join(sep)`: empty for no parts, the part itself for one, and
      otherwise opening with the first part followed by the separator. */
  function Join(parts: seq<string>, sep: string): (r: string)
    ensures |parts| == 0 ==> r == ""
    ensures |parts| == 1 ==> r == parts[0]
    ensures |parts| >= 2 ==> |r| >= |parts[0]| + |sep| && r[..|parts[0]| + |sep|] == parts[0] + sep
  {
    if |parts| == 0 then ""
    else if |parts| == 1 then parts[0]
    else parts[0] + sep + Join(parts[1..], sep)
  }

  /** The number of iterations of `for (i = 0.5; i <= size; i += 0.5)`: the
      largest count `n` with `n * 0.5 <= size`, zero when there is none. */
  function LayerCount(size: int): (n: nat)
    ensures n == 0 <==> size <= 0
    ensures n > 0 ==> (n as real) / 2.0 <= size as real
    ensures size as real < ((n + 1) as real) / 2.0 || size < 0
  {
    if size <= 0 then 0 else 2 * size
  }

  /** Layer `k` (from 1) is generated exactly when its offset `k * 0.5` is at
      most the shadow size. */
  lemma LayerCountExact(size: int, k: nat)
    requires 1 <= k
    ensures k <= LayerCount(size) <==> (k as real) / 2.0 <= size as real
  {
  }

  /** `!!Number(this.settings && this.settings.dropShadow)`: `undefined` gives
      NaN, which is falsy; a string is judged by `numberIsNonzero`. The shadow
      is on exactly when `dropShadow` is a string judged nonzero. */
  function DropShadowOn(settings: Option<Settings>, numberIsNonzero: string -> bool): (on: bool)
    ensures on <==> Get(settings, "dropShadow").Str? && numberIsNonzero(Get(settings, "dropShadow").s)
  {
    match Get(settings, "dropShadow")
    case Undefined => false
    case Str(s) => numberIsNonzero(s)
  }

  /** The text-shadow value, or `None` where the computation throws: with the
      shadow switched on, a missing `fontSize` has no `replace` method.
      `roundedSize(fontSize, dropShadow)` stands for
      `Math.round(Number(fontSize without its px suffix) * Number(dropShadow))`. */
  function TextShadow(settings: Option<Settings>, numberIsNonzero: string -> bool,
                      roundedSize: (string, string) -> int): (r: Option<string>)
    ensures settings.None? ==> r == Some("")
    ensures r.None? ==> Get(settings, "fontSize").Undefined?
    ensures r.Some? && r.value != "" ==>
      DropShadowOn(settings, numberIsNonzero) && Truthy(Get(settings, "dropShadowColor"))
  {
    var drop := Get(settings, "dropShadow");
    var color := Get(settings, "dropShadowColor");
    if !DropShadowOn(settings, numberIsNonzero) || !Truthy(color) then Some("")
    else match Get(settings, "fontSize")
      case Undefined => None
      case Str(fontSize) =>
        Some(Join(Layers(LayerCount(roundedSize(fontSize, drop.s)), color.s), ", "))
  }

  /** getTextShadowValueFromSettings: pushes one layer per half pixel, then joins. */
  method TextShadowValue(settings: Option<Settings>, numberIsNonzero: string -> bool,
                         roundedSize: (string, string) -> int) returns (r: Option<string>)
    ensures r == TextShadow(settings, numberIsNonzero, roundedSize)
  {
    var dropShadowOn := DropShadowOn(settings, numberIsNonzero);
    var color := Get(settings, "dropShadowColor");
    if !dropShadowOn || !Truthy(color) {
      return Some("");
    }
    var fontSize := Get(settings, "fontSize");
    if fontSize.Undefined? {
      return None;
    }
    var size := roundedSize(fontSize.s, Get(settings, "dropShadow").s);
    var result: seq<string> := [];
    var k := 1;
    while k <= 2 * size
      invariant 1 <= k <= LayerCount(size) + 1
      invariant result == Layers(k - 1, color.s)
      decreases 2 * size + 1 - k
    {
      LayersSnoc(k - 1, color.s);
      result := result + [Layer(k, color.s)];
      k := k + 1;
    }
    assert result == Layers(LayerCount(size), color.s);
    if |result| == 0 {
      return Some("");
    }
    r := Some(Join(result, ", "));
  }

  /** A joined list of non-empty layers is empty only when there are none. */
  lemma JoinNonEmpty(parts: seq<string>, sep: string)
    requires |parts| > 0 && |parts[0]| > 0
    ensures Join(parts, sep) != ""
  {
    assert Join(parts, sep)[0] == parts[0][0];
  }

  /** The shadow is empty exactly when it is switched off (no numeric
      `dropShadow`, or no colour) or when the size rounds to below half a
      pixel; it is undefined (a throw) exactly when `fontSize` is missing. */
  lemma TextShadowCases(settings: Option<Settings>, numberIsNonzero: string -> bool,
                        roundedSize: (string, string) -> int)
    ensures settings.None? ==> TextShadow(settings, numberIsNonzero, roundedSize) == Some("")
    ensures TextShadow(settings, numberIsNonzero, roundedSize).None? <==>
      DropShadowOn(settings, numberIsNonzero) && Truthy(Get(settings, "dropShadowColor"))
      && Get(settings, "fontSize").Undefined?
    ensures TextShadow(settings, numberIsNonzero, roundedSize) == Some("") <==>
      || !DropShadowOn(settings, numberIsNonzero)
      || !Truthy(Get(settings, "dropShadowColor"))
      || (Get(settings, "fontSize").Str? &&
          roundedSize(Get(settings, "fontSize").s, Get(settings, "dropShadow").s) <= 0)
  {
    var color := Get(settings, "dropShadowColor");
    if DropShadowOn(settings, numberIsNonzero) && Truthy(color) && Get(settings, "fontSize").Str? {
      var size := roundedSize(Get(settings, "fontSize").s, Get(settings, "dropShadow").s);
      if size > 0 {
        var ls := Layers(LayerCount(size), color.s);
        assert |ls[0]| > 0 by {
          assert ls[0] == Layer(1, color.s);
        }
        JoinNonEmpty(ls, ", ");
      }
    }
  }

  /** Every layer: layer `j + 1` carries its offset (`(j + 1) * 0.5`, see
      OffsetRoundTrip) on both axes and, for a colour without `$`, the colour
      itself. */
  lemma LayersShape(n: nat, color: string)
    requires '$' !in color
    ensures |Layers(n, color)| == n
    ensures forall j :: 0 <= j < n ==> Layers(n, color)[j] == PlainLayer(Offset(j + 1), color)
  {
    forall j | 0 <= j < n ensures Layers(n, color)[j] == PlainLayer(Offset(j + 1), color) {
      assert Layers(n, color)[j] == Layer(j + 1, color);
    }
  }

  /** A 16px size in colour `#000` gives 32 layers, from `0.5px 0.5px #000` to
      `16px 16px #000`. */
  lemma SixteenPixelOffsets()
    ensures Offset(1) == "0.5" && Offset(2) == "1" && Offset(32) == "16"
  {
    assert Decimal(0) == "0";
    assert Decimal(1) == "1";
    assert Decimal(16) == Decimal(1) + [Digit(6)];
  }

  lemma SixteenPixelShadow()
    ensures |Layers(LayerCount(16), "#000")| == 32
    ensures Layers(LayerCount(16), "#000")[0] == "0.5px 0.5px #000"
    ensures Layers(LayerCount(16), "#000")[1] == "1px 1px #000"
    ensures Layers(LayerCount(16), "#000")[31] == "16px 16px #000"
  {
    var ls := Layers(LayerCount(16), "#000");
    assert LayerCount(16) == 32;
    assert '$' !in "#000" by {
      assert "#000" == ['#', '0', '0', '0'];
    }
    LayersShape(32, "#000");
    SixteenPixelOffsets();
    assert ls[0] == PlainLayer("0.5", "#000");
    assert ls[1] == PlainLayer("1", "#000");
    assert ls[31] == PlainLayer("16", "#000");
  }
}
