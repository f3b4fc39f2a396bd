/**
 * The built-in alarm sounds (src/constants/sounds.ts): two groups of sounds,
 * flattened into one list, two id-keyed lookup tables, and the display name
 * derived from an id.
 */
module Sounds {
  import opened Wrappers
  import opened Strings

  /** One sound; `asset` names the bundled file the `import` resolves to. */
  datatype Sound = Sound(id: string, fileName: string, asset: string)

  datatype SoundGroup = SoundGroup(key: string, title: string, sounds: seq<Sound>)

  function AssetOf(fileName: string): string {
    "../../assets/sound/" + fileName
  }

  function Bundled(id: string): Sound {
    Sound(id, id + ".m4a", AssetOf(id + ".m4a"))
  }

  const BirdGroup: SoundGroup := SoundGroup("bird", "Bird", [
    Bundled("bird_01_pigeon"),
    Bundled("bird_02_sparrow"),
    Bundled("bird_03_sea"),
    Bundled("bird_04_river"),
    Bundled("bird_05_Japanese_nightingale")])

  const InsectGroup: SoundGroup := SoundGroup("insect", "Insect", [
    Bundled("insect_01"),
    Bundled("insect_02"),
    Bundled("insect_03"),
    Bundled("insect_04"),
    Bundled("insect_05")])

  const BuiltInSoundGroups: seq<SoundGroup> := [BirdGroup, InsectGroup]

  /** The sounds of every group, group after group, each in declaration order. */
  function Flatten(groups: seq<SoundGroup>): seq<Sound> {
    if groups == [] then [] else groups[0].sounds + Flatten(groups[1..])
  }

  lemma {:induction false} FlattenAppend(groups: seq<SoundGroup>, g: SoundGroup)
    ensures Flatten(groups + [g]) == Flatten(groups) + g.sounds
  {
    if groups == [] {
      assert Flatten([g]) == g.sounds + Flatten([]);
    } else {
      assert (groups + [g])[1..] == groups[1..] + [g];
      FlattenAppend(groups[1..], g);
    }
  }

  /** The `for ... push(...group.sounds)` loop that builds `allSounds`. */
  method CollectSounds(groups: seq<SoundGroup>) returns (all: seq<Sound>)
    ensures all == Flatten(groups)
  {
    all := [];
    var i := 0;
    while i < |groups|
      invariant 0 <= i <= |groups|
      invariant all == Flatten(groups[..i])
    {
      FlattenAppend(groups[..i], groups[i]);
      assert groups[..i + 1] == groups[..i] + [groups[i]];
      all := all + groups[i].sounds;
      i := i + 1;
    }
    assert groups[..i] == groups;
  }

  /** `BUILT_IN_SOUNDS`. */
  function BuiltInSounds(): seq<Sound> {
    Flatten(BuiltInSoundGroups)
  }

  function Ids(sounds: seq<Sound>): (ids: seq<string>)
    ensures |ids| == |sounds| && forall i :: 0 <= i < |sounds| ==> ids[i] == sounds[i].id
  {
    seq(|sounds|, i requires 0 <= i < |sounds| => sounds[i].id)
  }

  /** `ALARM_SOUND_IDS`, the ids the settings validator accepts. */
  function BuiltInSoundIds(): seq<string> {
    Ids(BuiltInSounds())
  }

  /** Bird sounds first, then insect sounds: ten in all, ids pairwise distinct. */
  lemma BuiltInSoundsLayout()
    ensures BuiltInSounds() == BirdGroup.sounds + InsectGroup.sounds
    ensures |BuiltInSounds()| == 10
    ensures forall i, j :: 0 <= i < j < 10 ==> BuiltInSounds()[i].id != BuiltInSounds()[j].id
  {
    assert BuiltInSoundGroups[1..] == [InsectGroup];
    assert Flatten([InsectGroup]) == InsectGroup.sounds + Flatten([]);
    var s := BuiltInSounds();
    assert s == BirdGroup.sounds + Flatten([InsectGroup]);
    forall i, j | 0 <= i < j < 10 ensures s[i].id != s[j].id {
      assert s[i].id[..1] != s[j].id[..1] || s[i].id[..9] != s[j].id[..9] || s[i].id != s[j].id;
    }
  }

  /** `DEFAULT_SOUND_ID`: the first built-in id. */
  function DefaultSoundId(): (id: string)
    ensures id == "bird_01_pigeon"
    ensures id in BuiltInSoundIds()
  {
    BuiltInSoundsLayout();
    BuiltInSounds()[0].id
  }

  /** The table `reduce` builds: each sound's value under its id, later sounds winning. */
  function KeyedBy<V>(sounds: seq<Sound>, f: Sound -> V): map<string, V>
    decreases |sounds|
  {
    if sounds == [] then map[]
    else KeyedBy(sounds[..|sounds| - 1], f)[sounds[|sounds| - 1].id := f(sounds[|sounds| - 1])]
  }

  /** The `reduce` into a mutable accumulator behind `SOUND_FILE_MAP` and `SOUND_ASSET_MAP`. */
  method BuildTable<V>(sounds: seq<Sound>, f: Sound -> V) returns (acc: map<string, V>)
    ensures acc == KeyedBy(sounds, f)
  {
    acc := map[];
    var i := 0;
    while i < |sounds|
      invariant 0 <= i <= |sounds|
      invariant acc == KeyedBy(sounds[..i], f)
    {
      assert sounds[..i + 1][..i] == sounds[..i];
      acc := acc[sounds[i].id := f(sounds[i])];
      i := i + 1;
    }
    assert sounds[..i] == sounds;
  }

  /** With distinct ids, every sound's own value is found under its id, and nothing else is there. */
  lemma {:induction false} KeyedByLookup<V>(sounds: seq<Sound>, f: Sound -> V)
    requires forall i, j :: 0 <= i < j < |sounds| ==> sounds[i].id != sounds[j].id
    ensures KeyedBy(sounds, f).Keys == set i | 0 <= i < |sounds| :: sounds[i].id
    ensures forall i :: 0 <= i < |sounds| ==> KeyedBy(sounds, f)[sounds[i].id] == f(sounds[i])
    decreases |sounds|
  {
    if sounds != [] {
      var init := sounds[..|sounds| - 1];
      KeyedByLookup(init, f);
      var m := KeyedBy(sounds, f);
      assert (set i | 0 <= i < |sounds| :: sounds[i].id) == (set i | 0 <= i < |init| :: init[i].id) + {sounds[|sounds| - 1].id};
      forall i | 0 <= i < |sounds| ensures m[sounds[i].id] == f(sounds[i]) {
        if i < |sounds| - 1 {
          assert sounds[i] == init[i];
        }
      }
    }
  }

  function FileNameOf(s: Sound): string { s.fileName }
  function AssetRefOf(s: Sound): string { s.asset }

  /** `SOUND_FILE_MAP` and `SOUND_ASSET_MAP` give every built-in id its own file and asset. */
  lemma BuiltInTables()
    ensures KeyedBy(BuiltInSounds(), FileNameOf).Keys == KeyedBy(BuiltInSounds(), AssetRefOf).Keys
    ensures forall i :: 0 <= i < |BuiltInSounds()| ==>
      var s := BuiltInSounds()[i];
      s.id in KeyedBy(BuiltInSounds(), FileNameOf) && s.id in KeyedBy(BuiltInSounds(), AssetRefOf) &&
      KeyedBy(BuiltInSounds(), FileNameOf)[s.id] == s.fileName &&
      KeyedBy(BuiltInSounds(), AssetRefOf)[s.id] == s.asset
    ensures BuiltInSounds()[0].id in KeyedBy(BuiltInSounds(), FileNameOf)
  {
    BuiltInSoundsLayout();
    KeyedByLookup(BuiltInSounds(), FileNameOf);
    KeyedByLookup(BuiltInSounds(), AssetRefOf);
  }

  // ---------------------------------------------------------------- display names

  /** `\w` of a regular expression. */
  predicate IsWordChar(c: char) {
    'a' <= c <= 'z' || 'A' <= c <= 'Z' || '0' <= c <= '9' || c == '_'
  }

  /** Position `i` of `s` starts a word (`\b\w`). */
  predicate StartsWord(s: string, i: int)
    requires 0 <= i < |s|
  {
    IsWordChar(s[i]) && (i == 0 || !IsWordChar(s[i - 1]))
  }

  /** `titleCase`: lower-case everything, then upper-case the first character of each word. */
  function TitleCase(value: string): (r: string)
    ensures |r| == |value|
  {
    var lower := Lower(value);
    seq(|lower|, i requires 0 <= i < |lower| => if StartsWord(lower, i) then ToUpper(lower[i]) else lower[i])
  }

  lemma WordCharsKeepCase(c: char)
    ensures IsWordChar(ToLower(c)) == IsWordChar(c)
    ensures IsWordChar(ToUpper(c)) == IsWordChar(c)
    ensures ToLower(ToUpper(ToLower(c))) == ToLower(c)
    ensures ToLower(ToLower(c)) == ToLower(c)
  {
  }

  /**
   * Every character of the result is that of the input lower-cased, except the
   * first character of each word, which is upper-cased; so title-casing twice
   * changes nothing more.
   */
  lemma TitleCaseIdempotent(value: string)
    ensures Lower(TitleCase(value)) == Lower(value)
    ensures TitleCase(TitleCase(value)) == TitleCase(value)
  {
    var t := TitleCase(value);
    var l := Lower(value);
    forall i | 0 <= i < |value| ensures Lower(t)[i] == l[i] && IsWordChar(t[i]) == IsWordChar(l[i]) {
      WordCharsKeepCase(value[i]);
    }
    assert Lower(t) == l;
    forall i | 0 <= i < |value| ensures TitleCase(t)[i] == t[i] {
      if i > 0 {
        WordCharsKeepCase(value[i - 1]);
      }
      assert StartsWord(Lower(t), i) == StartsWord(l, i);
    }
  }

  predicate IsWhitespace(c: char) {
    c == ' ' || c == '\t' || c == '\n' || c == '\r' || c == '\U{B}' || c == '\U{C}'
  }

  /** `trim()`: leading and trailing white space removed. */
  function Trim(s: string): (r: string)
    ensures |r| <= |s|
    ensures r != [] ==> !IsWhitespace(r[0]) && !IsWhitespace(r[|r| - 1])
    decreases |s|
  {
    if s == [] then []
    else if IsWhitespace(s[0]) then Trim(s[1..])
    else if IsWhitespace(s[|s| - 1]) then Trim(s[..|s| - 1])
    else s
  }

  /** `s.replace(/_/g, ' ')`. */
  function UnderscoresToSpaces(s: string): (r: string)
    ensures |r| == |s| && forall i :: 0 <= i < |s| ==> r[i] == if s[i] == '_' then ' ' else s[i]
  {
    seq(|s|, i requires 0 <= i < |s| => if s[i] == '_' then ' ' else s[i])
  }

  /** Length of the longest prefix of decimal digits. */
  function DigitPrefixLength(s: string): (k: nat)
    ensures k <= |s|
    ensures AllDigits(s[..k])
  {
    if s == [] || !IsDigit(s[0]) then 0
    else
      var k := 1 + DigitPrefixLength(s[1..]);
      assert s[..k] == [s[0]] + s[1..][..k - 1];
      k
  }

  /** `Number.parseInt(s, 10)` for strings that start with a digit or not at all: NaN is None. */
  function ParseDecimal(s: string): (r: Option<nat>)
    ensures r.None? <==> (s == [] || !IsDigit(s[0]))
  {
    var k := DigitPrefixLength(s);
    if k == 0 then None else Some(DigitsValue(s[..k]))
  }

  /** The name of an `insect_...` id from the parts after `insect`. */
  function InsectName(rest: seq<string>): string {
    var index := if |rest| > 0 then rest[0] else "";
    match ParseDecimal(index)
    case Some(n) => "Insect " + NatToString(n)
    case None => TitleCase(Trim("insect " + Join(rest, " ")))
  }

  /** The name of a `bird_...` id from the parts after `bird`. */
  function BirdName(rest: seq<string>): string {
    var nameParts := if |rest| > 0 then rest[1..] else [];
    var nameParts' := if |nameParts| == 0 && |rest| > 0 then [rest[|rest| - 1]] else nameParts;
    var joined := Join(nameParts', " ");
    var name := if joined == "" then Join(rest, " ") else joined;
    if |rest| > 0 && rest[0] == "03" then "Bird with Sea"
    else if |rest| > 0 && rest[0] == "04" then "Bird with River"
    else TitleCase(name)
  }

  /** `getSoundDisplayName`, split on the category before the first '_'. */
  function SoundDisplayName(soundId: string): string {
    var parts := Split(soundId, '_');
    if parts[0] == "insect" then InsectName(parts[1..])
    else if parts[0] == "bird" then BirdName(parts[1..])
    else
      var joined := Join(parts[1..], " ");
      TitleCase(if joined == "" then UnderscoresToSpaces(soundId) else joined)
  }

  lemma DigitPrefixOfDigits(s: string)
    requires AllDigits(s)
    ensures DigitPrefixLength(s) == |s|
    decreases |s|
  {
    if s != [] {
      DigitPrefixOfDigits(s[1..]);
    }
  }

  lemma InsectNameOfDigits(digits: string)
    requires |digits| > 0 && AllDigits(digits)
    ensures InsectName([digits]) == "Insect " + NatToString(DigitsValue(digits))
  {
    DigitPrefixOfDigits(digits);
    assert digits[..|digits|] == digits;
    assert ParseDecimal(digits) == Some(DigitsValue(digits));
  }

  /** An insect id with a numeric suffix shows the suffix's value, leading zeros dropped. */
  lemma InsectDisplayName(digits: string)
    requires |digits| > 0 && AllDigits(digits)
    ensures SoundDisplayName(Join(["insect", digits], "_")) == "Insect " + NatToString(DigitsValue(digits))
  {
    assert '_' !in digits;
    SplitJoin(["insect", digits], '_');
    assert Split(Join(["insect", digits], "_"), '_')[1..] == [digits];
    InsectNameOfDigits(digits);
  }

  /** The parts of a bird id joined from its number and words. */
  lemma BirdIdParts(number: string, words: seq<string>)
    requires '_' !in number
    requires forall i :: 0 <= i < |words| ==> '_' !in words[i]
    ensures Split(Join(["bird", number] + words, "_"), '_') == ["bird", number] + words
  {
    var parts := ["bird", number] + words;
    NoSeparatorInParts("bird", number, words, parts, '_');
    SplitJoin(parts, '_');
  }

  lemma NoSeparatorInParts(kind: string, number: string, words: seq<string>, parts: seq<string>, c: char)
    requires c !in kind && c !in number && parts == [kind, number] + words
    requires forall i :: 0 <= i < |words| ==> c !in words[i]
    ensures forall i :: 0 <= i < |parts| ==> c !in parts[i]
  {
    forall i | 0 <= i < |parts| ensures c !in parts[i] {
      if i >= 2 {
        assert parts[i] == words[i - 2];
      }
    }
  }

  lemma BirdNameBySplit(id: string, number: string, words: seq<string>)
    requires Split(id, '_') == ["bird", number] + words
    ensures SoundDisplayName(id) == BirdName([number] + words)
  {
    assert Split(id, '_')[1..] == [number] + words;
  }

  /** Bird ids numbered 03 and 04 have fixed names, whatever follows the number. */
  lemma BirdWithSeaOrRiver(number: string, words: seq<string>)
    requires number == "03" || number == "04"
    requires forall i :: 0 <= i < |words| ==> '_' !in words[i]
    ensures SoundDisplayName(Join(["bird", number] + words, "_")) ==
      if number == "03" then "Bird with Sea" else "Bird with River"
  {
    BirdIdParts(number, words);
    BirdNameBySplit(Join(["bird", number] + words, "_"), number, words);
    assert ([number] + words)[0] == number;
  }

  lemma BirdNameOfWords(number: string, words: seq<string>)
    requires number != "03" && number != "04"
    requires |words| >= 1 && words[0] != ""
    ensures BirdName([number] + words) == TitleCase(Join(words, " "))
  {
    var rest := [number] + words;
    assert rest[1..] == words;
    assert Join(words, " ") != "" by {
      if |words| > 1 {
        assert Join(words, " ") == words[0] + " " + Join(words[1..], " ");
      }
    }
  }

  /** Any other bird id shows the words after its number, title-cased and space-separated. */
  lemma BirdDisplayName(number: string, words: seq<string>)
    requires '_' !in number && number != "03" && number != "04"
    requires |words| >= 1 && words[0] != ""
    requires forall i :: 0 <= i < |words| ==> '_' !in words[i]
    ensures SoundDisplayName(Join(["bird", number] + words, "_")) == TitleCase(Join(words, " "))
  {
    BirdIdParts(number, words);
    BirdNameBySplit(Join(["bird", number] + words, "_"), number, words);
    BirdNameOfWords(number, words);
  }

  /** Display names of built-in sounds. */
  lemma PigeonDisplayName()
    ensures SoundDisplayName("bird_01_pigeon") == "Pigeon"
  {
    PigeonId();
    BirdDisplayName("01", ["pigeon"]);
    PigeonTitle();
  }

  lemma PigeonId()
    ensures Join(["bird", "01"] + ["pigeon"], "_") == "bird_01_pigeon"
  {
    var parts := ["bird", "01", "pigeon"];
    assert ["bird", "01"] + ["pigeon"] == parts;
    assert parts[1..][1..] == ["pigeon"];
    assert Join(parts[1..], "_") == "01" + "_" + "pigeon";
    assert Join(parts, "_") == "bird" + "_" + ("01" + "_" + "pigeon");
  }

  lemma PigeonTitle()
    ensures TitleCase("pigeon") == "Pigeon"
  {
  }

  lemma SeaDisplayName()
    ensures SoundDisplayName("bird_03_sea") == "Bird with Sea"
  {
    assert ["bird", "03"] + ["sea"] == ["bird", "03", "sea"];
    assert Join(["bird", "03", "sea"], "_") == "bird_03_sea";
    BirdWithSeaOrRiver("03", ["sea"]);
  }

  lemma RiverDisplayName()
    ensures SoundDisplayName("bird_04_river") == "Bird with River"
  {
    assert ["bird", "04"] + ["river"] == ["bird", "04", "river"];
    assert Join(["bird", "04", "river"], "_") == "bird_04_river";
    BirdWithSeaOrRiver("04", ["river"]);
  }

  lemma FirstInsectDisplayName()
    ensures SoundDisplayName("insect_01") == "Insect 1"
  {
    assert Join(["insect", "01"], "_") == "insect_01";
    InsectDisplayName("01");
    assert DigitsValue("01") == 1;
  }
}
