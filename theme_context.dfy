/**
 * The persisted theme (src/context/ThemeContext.tsx): a mode, a primary colour and a
 * list of gradient colours, held in `useAsyncStorageState` with three setters.
 */
module ThemeContext {
  import opened Wrappers
  import opened Json
  import opened AsyncStorageState

  datatype ThemeMode = Color | Gradient

  datatype ThemeSettings = ThemeSettings(themeMode: ThemeMode, themeColor: string, gradientColors: seq<string>)

  const StorageKey: string := "wakewalk:theme-settings"
  const DefaultPrimaryColor: string := "#808080"
  const DefaultGradientColors: seq<string> := ["#8B5CF6", "#3B82F6"]

  function Defaults(): ThemeSettings {
    ThemeSettings(Color, DefaultPrimaryColor, DefaultGradientColors)
  }

  function ThemeModeName(m: ThemeMode): string {
    match m
    case Color => "color"
    case Gradient => "gradient"
  }

  /** `colors.every((color) => typeof color === 'string')`. */
  predicate AllStrings(items: seq<Json>) {
    forall i :: 0 <= i < |items| ==> items[i].JString?
  }

  /** `validateThemeSettings`. */
  predicate ValidateThemeSettings(value: Json) {
    IsNonNullObject(value) &&
    var obj := Props(value);
    (IsStringLiteral(Get(obj, "themeMode"), "color") || IsStringLiteral(Get(obj, "themeMode"), "gradient")) &&
    IsString(Get(obj, "themeColor")) &&
    Get(obj, "gradientColors").Some? && obj["gradientColors"].JArray? &&
    AllStrings(obj["gradientColors"].items)
  }

  function EncodeStrings(colors: seq<string>): (items: seq<Json>)
    ensures |items| == |colors| && AllStrings(items)
    ensures forall i :: 0 <= i < |colors| ==> items[i] == JString(colors[i])
  {
    seq(|colors|, i requires 0 <= i < |colors| => JString(colors[i]))
  }

  function DecodeStrings(items: seq<Json>): (colors: seq<string>)
    requires AllStrings(items)
    ensures |colors| == |items|
    ensures forall i :: 0 <= i < |items| ==> items[i] == JString(colors[i])
  {
    seq(|items|, i requires 0 <= i < |items| => items[i].s)
  }

  function Encode(t: ThemeSettings): Json {
    JObject(map[
      "themeMode" := JString(ThemeModeName(t.themeMode)),
      "themeColor" := JString(t.themeColor),
      "gradientColors" := JArray(EncodeStrings(t.gradientColors))])
  }

  /** The validator followed by the cast. */
  function Decode(value: Json): (r: Option<ThemeSettings>)
    ensures r.Some? <==> ValidateThemeSettings(value)
    ensures r.Some? ==> forall name :: name in Encode(r.value).fields ==>
      Get(Props(value), name) == Some(Encode(r.value).fields[name])
  {
    if !ValidateThemeSettings(value) then None
    else
      var obj := Props(value);
      var r := ThemeSettings(
        if obj["themeMode"] == JString("color") then Color else Gradient,
        obj["themeColor"].s,
        DecodeStrings(obj["gradientColors"].items));
      assert EncodeStrings(r.gradientColors) == obj["gradientColors"].items;
      Some(r)
  }

  /** Every theme survives a save and a load, whatever its gradient list. */
  lemma DecodeEncode(t: ThemeSettings)
    ensures Decode(Encode(t)) == Some(t)
  {
    var items := EncodeStrings(t.gradientColors);
    assert DecodeStrings(items) == t.gradientColors;
    assert ThemeModeName(t.themeMode) == "color" <==> t.themeMode == Color;
  }

  /** An empty gradient list passes; one non-string element anywhere fails the whole value. */
  lemma GradientListRule(t: ThemeSettings, items: seq<Json>, k: nat)
    requires k < |items| && !items[k].JString?
    ensures Decode(Encode(t.(gradientColors := []))) == Some(t.(gradientColors := []))
    ensures Decode(JObject(Encode(t).fields["gradientColors" := JArray(items)])) == None
  {
    DecodeEncode(t.(gradientColors := []));
  }

  /** The defaults ('color', '#808080', two gradient colours) pass the validator. */
  lemma DefaultsAreValid()
    ensures Decode(Encode(Defaults())) == Some(Defaults())
    ensures Defaults().themeMode == Color && |Defaults().gradientColors| == 2
  {
    DecodeEncode(Defaults());
  }

  class ThemeProvider {
    const storage: AsyncStorageState<ThemeSettings>

    constructor ()
      ensures fresh(storage) && storage.Valid()
      ensures storage.key == StorageKey
      ensures forall v :: storage.accept(v) == Decode(v)
      ensures storage.Snapshot() == Snap(Defaults(), false, true, [])
    {
      storage := new AsyncStorageState(StorageKey, Defaults(), Decode);
    }

    method SetThemeMode(mode: ThemeMode)
      requires storage.Valid()
      modifies storage
      ensures storage.Valid()
      ensures storage.Snapshot() == AfterSet(old(storage.Snapshot()), old(storage.state).(themeMode := mode))
    {
      storage.SetState(storage.state.(themeMode := mode));
    }

    method SetThemeColor(color: string)
      requires storage.Valid()
      modifies storage
      ensures storage.Valid()
      ensures storage.Snapshot() == AfterSet(old(storage.Snapshot()), old(storage.state).(themeColor := color))
    {
      storage.SetState(storage.state.(themeColor := color));
    }

    method SetGradientColors(colors: seq<string>)
      requires storage.Valid()
      modifies storage
      ensures storage.Valid()
      ensures storage.Snapshot() == AfterSet(old(storage.Snapshot()), old(storage.state).(gradientColors := colors))
    {
      storage.SetState(storage.state.(gradientColors := colors));
    }
  }
}
