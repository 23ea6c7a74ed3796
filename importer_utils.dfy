/**
 * The helpers the mobility-data importers share: splitting an address into
 * street name and number, assigning per-language attributes of a model
 * object, translating a street name through the street register, and
 * looking up a content type's configuration.
 */
module ImporterUtils {
  import opened Wrappers
  import opened Text

  /** The languages every translated field has, in the order they are filled. */
  const LANGUAGES: seq<string> := ["fi", "sv", "en"]

  /** Length of the leading run of non-digit characters. */
  function LeadingNonDigits(s: string): (n: nat)
    ensures n <= |s|
    ensures forall i :: 0 <= i < n ==> !IsDigit(s[i])
    ensures n < |s| ==> IsDigit(s[n])
  {
    if s == [] || IsDigit(s[0]) then 0 else 1 + LeadingNonDigits(s[1..])
  }

  /**
   * `get_street_name_and_number`: `re.split(r"(^[^\d]+)", address)` gives
   * `["", name, rest]` when the address starts with a non-digit and just
   * `[address]` otherwise, where indexing `tmp[1]` raises `IndexError`. The
   * name is the leading non-digit run without trailing whitespace, the
   * number everything from the first digit on.
   */
  function StreetNameAndNumber(address: string): (r: Result<(string, string)>)
    ensures r.Err? <==> address == [] || IsDigit(address[0])
  {
    if address == [] || IsDigit(address[0]) then Err("IndexError: list index out of range")
    else
      var n := LeadingNonDigits(address);
      Ok((RStrip(address[..n]), address[n..]))
  }

  /**
   * The parts of a split address: a digit-free name not ending in
   * whitespace, then only whitespace, then a number that is empty or starts
   * with a digit; the number is empty exactly when the address has no digit.
   */
  lemma StreetNameAndNumberParts(address: string)
    requires StreetNameAndNumber(address).Ok?
    ensures var (name, number) := StreetNameAndNumber(address).value;
      && |name| + |number| <= |address|
      && address[..|name|] == name && address[|address| - |number|..] == number
      && (forall i :: |name| <= i < |address| - |number| ==> IsSpace(address[i]))
      && (forall i :: 0 <= i < |name| ==> !IsDigit(name[i]))
      && (name == [] || !IsSpace(name[|name| - 1]))
      && (number == [] || IsDigit(number[0]))
      && (number == [] <==> forall i :: 0 <= i < |address| ==> !IsDigit(address[i]))
  {
    var n := LeadingNonDigits(address);
    var name := RStrip(address[..n]);
    RStripPrefix(address[..n]);
    assert address[..|name|] == address[..n][..|name|];
  }

  /** Digits are not whitespace. */
  lemma DigitNotSpace(c: char)
    requires IsDigit(c)
    ensures !IsSpace(c)
  {
  }

  /** The leading non-digit run of `a + b`, when `b` starts with a digit, is `a`. */
  lemma {:induction false} LeadingNonDigitsConcat(a: string, b: string)
    requires (forall i :: 0 <= i < |a| ==> !IsDigit(a[i])) && (b == [] || IsDigit(b[0]))
    ensures LeadingNonDigits(a + b) == |a|
  {
    if a != [] {
      LeadingNonDigitsConcat(a[1..], b);
      assert (a + b)[1..] == a[1..] + b;
    }
  }

  /** Whitespace after a string that does not end in whitespace is what `rstrip` removes. */
  lemma {:induction false} RStripGap(name: string, gap: string)
    requires name == [] || !IsSpace(name[|name| - 1])
    requires forall i :: 0 <= i < |gap| ==> IsSpace(gap[i])
    ensures RStrip(name + gap) == name
    decreases |gap|
  {
    if gap == [] {
      assert name + gap == name;
    } else {
      var g := gap[..|gap| - 1];
      assert (name + gap)[..|name + gap| - 1] == name + g;
      RStripGap(name, g);
    }
  }

  /** Joining a name, whitespace and a number and splitting again gives the name and the number back. */
  lemma StreetNameAndNumberCompose(name: string, gap: string, number: string)
    requires name != [] && !IsSpace(name[|name| - 1]) && forall i :: 0 <= i < |name| ==> !IsDigit(name[i])
    requires forall i :: 0 <= i < |gap| ==> IsSpace(gap[i])
    requires number == [] || IsDigit(number[0])
    ensures StreetNameAndNumber(name + gap + number) == Ok((name, number))
  {
    var a := name + gap;
    forall i | 0 <= i < |a| ensures !IsDigit(a[i]) {
      if i >= |name| && IsDigit(a[i]) {
        DigitNotSpace(a[i]);
      }
    }
    LeadingNonDigitsConcat(a, number);
    assert (a + number)[..|a|] == a && (a + number)[|a|..] == number;
    RStripGap(name, gap);
  }

  /** A Django model instance, reduced to its attributes; `None` values are `Option.None`. */
  class ModelObject {
    var attrs: map<string, Option<string>>

    constructor(attrs: map<string, Option<string>>)
      ensures this.attrs == attrs
    {
      this.attrs := attrs;
    }
  }

  /** The attribute holding language `lang` of a translated field. */
  function TranslatedKey(fieldName: string, lang: string): string {
    fieldName + "_" + lang
  }

  /** One turn of `set_translated_field`'s loop: language `lang` set when `data` has it. */
  function SetLanguage(attrs: map<string, Option<string>>, fieldName: string, data: map<string, string>,
                       lang: string): map<string, Option<string>>
  {
    if lang in data then attrs[TranslatedKey(fieldName, lang) := Some(data[lang])] else attrs
  }

  /** The attributes after setting the given languages of a field from `data`. */
  function SetLanguages(attrs: map<string, Option<string>>, fieldName: string, data: map<string, string>,
                        langs: seq<string>): map<string, Option<string>>
  {
    if langs == [] then attrs
    else SetLanguage(SetLanguages(attrs, fieldName, data, langs[..|langs| - 1]), fieldName, data, langs[|langs| - 1])
  }

  /** The prefixes of the language list. */
  lemma LanguagePrefixes()
    ensures LANGUAGES[..0] == [] && LANGUAGES[..1] == ["fi"] && LANGUAGES[..2] == ["fi", "sv"]
    ensures LANGUAGES[..3] == LANGUAGES && |LANGUAGES| == 3
    ensures ["fi"][..0] == [] && ["fi", "sv"][..1] == ["fi"] && LANGUAGES[..|LANGUAGES| - 1] == ["fi", "sv"]
  {
  }

  /** Setting fi, sv and en in turn. */
  lemma SetLanguagesUnfold(attrs: map<string, Option<string>>, fieldName: string, data: map<string, string>)
    ensures SetLanguages(attrs, fieldName, data, LANGUAGES)
      == SetLanguage(SetLanguage(SetLanguage(attrs, fieldName, data, "fi"), fieldName, data, "sv"), fieldName, data, "en")
  {
    LanguagePrefixes();
    assert SetLanguages(attrs, fieldName, data, ["fi"]) == SetLanguage(attrs, fieldName, data, "fi");
  }

  /** The attribute keys of the three languages differ from one another. */
  lemma TranslatedKeysDistinct(fieldName: string)
    ensures TranslatedKey(fieldName, "fi") != TranslatedKey(fieldName, "sv")
    ensures TranslatedKey(fieldName, "fi") != TranslatedKey(fieldName, "en")
    ensures TranslatedKey(fieldName, "sv") != TranslatedKey(fieldName, "en")
  {
    var k := |fieldName| + 1;
    assert TranslatedKey(fieldName, "fi")[k] == 'f';
    assert TranslatedKey(fieldName, "sv")[k] == 's';
    assert TranslatedKey(fieldName, "en")[k] == 'e';
  }

  /**
   * After `set_translated_field`, `{field}_{lang}` holds `data[lang]` for each
   * of fi, sv and en that `data` has; every other attribute, including the
   * languages `data` lacks, is as before, and keys other than fi, sv and en
   * in `data` have no effect.
   */
  lemma SetTranslatedFieldEffect(attrs: map<string, Option<string>>, fieldName: string, data: map<string, string>)
    ensures var r := SetLanguages(attrs, fieldName, data, LANGUAGES);
      && (forall lang :: lang in LANGUAGES && lang in data ==>
            TranslatedKey(fieldName, lang) in r && r[TranslatedKey(fieldName, lang)] == Some(data[lang]))
      && (forall k :: (forall lang :: lang in LANGUAGES && lang in data ==> k != TranslatedKey(fieldName, lang)) ==>
            (k in r <==> k in attrs) && (k in attrs ==> r[k] == attrs[k]))
  {
    TranslatedKeysDistinct(fieldName);
    SetLanguagesUnfold(attrs, fieldName, data);
  }

  /** `set_translated_field(obj, field_name, data)`. */
  method SetTranslatedField(obj: ModelObject, fieldName: string, data: map<string, string>)
    modifies obj
    ensures obj.attrs == SetLanguages(old(obj.attrs), fieldName, data, LANGUAGES)
  {
    for i := 0 to |LANGUAGES|
      invariant obj.attrs == SetLanguages(old(obj.attrs), fieldName, data, LANGUAGES[..i])
    {
      var lang := LANGUAGES[i];
      assert LANGUAGES[..i + 1][..i] == LANGUAGES[..i];
      if lang in data {
        var objKey := TranslatedKey(fieldName, lang);
        obj.attrs := obj.attrs[objKey := Some(data[lang])];
      }
    }
    assert LANGUAGES[..|LANGUAGES|] == LANGUAGES;
  }

  /** A row of the street register; a missing translation is the empty string. */
  datatype Street = Street(nameFi: string, nameSv: string, nameEn: string)

  function StreetName(street: Street, lang: string): string {
    if lang == "fi" then street.nameFi else if lang == "sv" then street.nameSv else street.nameEn
  }

  /** The translation of a street into `lang`, the Finnish name where it has none. */
  function StreetTranslation(street: Street, lang: string): string {
    if StreetName(street, lang) != "" then StreetName(street, lang) else street.nameFi
  }

  /**
   * The name `get_street_name_translations` gives language `lang`: the
   * street's translation when the register has the street (looked up by name
   * and lowercased municipality), otherwise the input name.
   */
  function StreetNameIn(name: string, municipality: string, find: (string, string) -> Option<Street>, lang: string)
    : string
  {
    match find(name, Lower(municipality))
    case Some(street) => StreetTranslation(street, lang)
    case None => name
  }

  /** The names of the first `|langs|` languages. */
  function StreetNames(name: string, municipality: string, find: (string, string) -> Option<Street>,
                       langs: seq<string>): map<string, string>
  {
    if langs == [] then map[]
    else
      var lang := langs[|langs| - 1];
      StreetNames(name, municipality, find, langs[..|langs| - 1])[lang := StreetNameIn(name, municipality, find, lang)]
  }

  /** The map `get_street_name_translations` returns. */
  function StreetNameTranslations(name: string, municipality: string, find: (string, string) -> Option<Street>)
    : (r: map<string, string>)
    ensures "fi" in r && "sv" in r && "en" in r
  {
    LanguagePrefixes();
    assert "fi" in StreetNames(name, municipality, find, ["fi"]);
    assert "fi" in StreetNames(name, municipality, find, ["fi", "sv"]);
    StreetNames(name, municipality, find, LANGUAGES)
  }

  /**
   * The translations have exactly the keys fi, sv and en; a street found in
   * the register gives each language its own name or else the Finnish one
   * (so Finnish is always the register's Finnish name); a street not found
   * gives every language the input name.
   */
  lemma StreetNameTranslationsFacts(name: string, municipality: string, find: (string, string) -> Option<Street>)
    ensures var names := StreetNameTranslations(name, municipality, find);
      && names.Keys == {"fi", "sv", "en"}
      && (match find(name, Lower(municipality))
          case Some(street) =>
            && names["fi"] == street.nameFi
            && names["sv"] == (if street.nameSv != "" then street.nameSv else street.nameFi)
            && names["en"] == (if street.nameEn != "" then street.nameEn else street.nameFi)
          case None => names["fi"] == name && names["sv"] == name && names["en"] == name)
  {
    LanguagePrefixes();
    var v := (lang: string) => StreetNameIn(name, municipality, find, lang);
    assert StreetNames(name, municipality, find, ["fi"]) == map["fi" := v("fi")];
    assert StreetNames(name, municipality, find, ["fi", "sv"]) == map["fi" := v("fi"), "sv" := v("sv")];
    assert StreetNameTranslations(name, municipality, find) == map["fi" := v("fi"), "sv" := v("sv"), "en" := v("en")];
  }

  /** `get_street_name_translations`: fills the map one language at a time. */
  method GetStreetNameTranslations(name: string, municipality: string, find: (string, string) -> Option<Street>)
    returns (names: map<string, string>)
    ensures names == StreetNameTranslations(name, municipality, find)
  {
    names := map[];
    var found := find(name, Lower(municipality));
    for i := 0 to |LANGUAGES|
      invariant names == StreetNames(name, municipality, find, LANGUAGES[..i])
    {
      var lang := LANGUAGES[i];
      assert LANGUAGES[..i + 1][..i] == LANGUAGES[..i];
      if found.Some? {
        var street := found.value;
        var translated := StreetName(street, lang);
        if translated != "" {
          names := names[lang := translated];
        } else {
          names := names[lang := street.nameFi];
        }
      } else {
        names := names[lang := name];
      }
    }
    assert LANGUAGES[..|LANGUAGES|] == LANGUAGES;
  }

  /**
   * An entry of `content_types.yml`: its `content_type_name`, its `name`
   * translations and its optional `description` translations (`None` for a
   * missing key).
   */
  datatype Config = Config(contentTypeName: Option<string>, name: Option<map<string, string>>,
                           description: Option<map<string, string>>)

  /** `configs[i]` is the first configuration named `typeName`. */
  predicate FirstMatch(typeName: string, configs: seq<Config>, i: int) {
    0 <= i < |configs| && configs[i].contentTypeName == Some(typeName)
    && forall j :: 0 <= j < i ==> configs[j].contentTypeName != Some(typeName)
  }

  /** `get_content_type_config`: the first configuration named `typeName`, if any. */
  method GetContentTypeConfig(typeName: string, configs: seq<Config>) returns (r: Option<Config>)
    ensures r.Some? <==> exists i :: 0 <= i < |configs| && configs[i].contentTypeName == Some(typeName)
    ensures r.Some? ==> exists i :: FirstMatch(typeName, configs, i) && configs[i] == r.value
  {
    for i := 0 to |configs|
      invariant forall j :: 0 <= j < i ==> configs[j].contentTypeName != Some(typeName)
    {
      if configs[i].contentTypeName == Some(typeName) {
        assert FirstMatch(typeName, configs, i);
        return Some(configs[i]);
      }
    }
    return None;
  }

  /** There is at most one first configuration of a name. */
  lemma FirstMatchUnique(typeName: string, configs: seq<Config>, i: int, k: int)
    requires FirstMatch(typeName, configs, i) && FirstMatch(typeName, configs, k)
    ensures i == k
  {
  }

  /** `d.get(k, None)`. */
  function Get(d: map<string, string>, k: string): Option<string> {
    if k in d then Some(d[k]) else None
  }

  /** One turn of the loop: `name_{lang}`, and `description_{lang}` when there is a description. */
  function ConfigureLanguage(attrs: map<string, Option<string>>, config: Config, lang: string)
    : map<string, Option<string>>
    requires config.name.Some?
  {
    var named := attrs[TranslatedKey("name", lang) := Get(config.name.value, lang)];
    if config.description.Some? then named[TranslatedKey("description", lang) := Get(config.description.value, lang)]
    else named
  }

  /** The attributes of a content type after the first `|langs|` languages are configured. */
  function ConfiguredAttrs(attrs: map<string, Option<string>>, config: Config, langs: seq<string>)
    : map<string, Option<string>>
    requires config.name.Some?
  {
    if langs == [] then attrs
    else ConfigureLanguage(ConfiguredAttrs(attrs, config, langs[..|langs| - 1]), config, langs[|langs| - 1])
  }

  /** The loop over fi, sv and en, unrolled. */
  lemma ConfiguredAttrsUnfold(attrs: map<string, Option<string>>, config: Config)
    requires config.name.Some?
    ensures ConfiguredAttrs(attrs, config, LANGUAGES)
      == ConfigureLanguage(ConfigureLanguage(ConfigureLanguage(attrs, config, "fi"), config, "sv"), config, "en")
  {
    LanguagePrefixes();
    assert ConfiguredAttrs(attrs, config, ["fi"]) == ConfigureLanguage(attrs, config, "fi");
  }

  /**
   * The configured attributes: `name_{lang}` for each of fi, sv and en is the
   * configured name (`None` where the language is missing),
   * `description_{lang}` likewise when the configuration has a description
   * and untouched otherwise, and every other attribute is unchanged.
   */
  lemma ConfiguredAttrsFacts(attrs: map<string, Option<string>>, config: Config)
    requires config.name.Some?
    ensures var r := ConfiguredAttrs(attrs, config, LANGUAGES);
      && (forall lang :: lang in LANGUAGES ==>
            TranslatedKey("name", lang) in r && r[TranslatedKey("name", lang)] == Get(config.name.value, lang))
      && (forall lang :: lang in LANGUAGES && config.description.Some? ==>
            TranslatedKey("description", lang) in r
            && r[TranslatedKey("description", lang)] == Get(config.description.value, lang))
  {
    ConfiguredAttrsUnfold(attrs, config);
    ConfigKeys();
  }

  /** Every attribute other than the configured names and descriptions is left as it was. */
  lemma ConfiguredAttrsFrame(attrs: map<string, Option<string>>, config: Config, k: string)
    requires config.name.Some?
    requires k !in {"name_fi", "name_sv", "name_en"}
    requires config.description.None? || k !in {"description_fi", "description_sv", "description_en"}
    ensures var r := ConfiguredAttrs(attrs, config, LANGUAGES);
      (k in r <==> k in attrs) && (k in attrs ==> r[k] == attrs[k])
  {
    ConfiguredAttrsUnfold(attrs, config);
    ConfigKeys();
  }

  /** The six keys the configuration writes. */
  lemma ConfigKeys()
    ensures TranslatedKey("name", "fi") == "name_fi" && TranslatedKey("name", "sv") == "name_sv"
    ensures TranslatedKey("name", "en") == "name_en" && TranslatedKey("description", "fi") == "description_fi"
    ensures TranslatedKey("description", "sv") == "description_sv" && TranslatedKey("description", "en") == "description_en"
  {
  }

  /**
   * `get_or_create_content_type_from_config`, for the content type row `ct`
   * that `get_or_create` returns and the entries `configs` of the
   * configuration file: an error when no configuration is named `typeName`,
   * otherwise the names and descriptions set from the first one so named,
   * or the `KeyError` of a first configuration without `name`.
   */
  method GetOrCreateContentTypeFromConfig(typeName: string, configs: seq<Config>, settings: Settings, ct: ModelObject)
    returns (r: Result<ModelObject>)
    modifies ct
    ensures (forall i :: 0 <= i < |configs| ==> configs[i].contentTypeName != Some(typeName)) ==>
      r == Err("Configuration not found for " + typeName + " in " + ContentTypesConfigFile(settings))
      && ct.attrs == old(ct.attrs)
    ensures forall i :: FirstMatch(typeName, configs, i) && configs[i].name.Some? ==>
      r == Ok(ct) && ct.attrs == ConfiguredAttrs(old(ct.attrs), configs[i], LANGUAGES)
    ensures forall i :: FirstMatch(typeName, configs, i) && configs[i].name.None? ==>
      r == Err("KeyError: 'name'") && ct.attrs == old(ct.attrs)
    ensures r.Err? ==> ct.attrs == old(ct.attrs)
  {
    var config := GetContentTypeConfig(typeName, configs);
    if config.None? {
      return Err("Configuration not found for " + typeName + " in " + ContentTypesConfigFile(settings));
    }
    var c := config.value;
    ghost var first :| FirstMatch(typeName, configs, first) && configs[first] == c;
    forall i | FirstMatch(typeName, configs, i)
      ensures configs[i] == c
    {
      FirstMatchUnique(typeName, configs, i, first);
    }
    if c.name.None? {
      return Err("KeyError: 'name'");
    }
    for i := 0 to |LANGUAGES|
      invariant ct.attrs == ConfiguredAttrs(old(ct.attrs), c, LANGUAGES[..i])
    {
      var lang := LANGUAGES[i];
      assert LANGUAGES[..i + 1][..i] == LANGUAGES[..i];
      ct.attrs := ct.attrs[TranslatedKey("name", lang) := Get(c.name.value, lang)];
      if c.description.Some? {
        ct.attrs := ct.attrs[TranslatedKey("description", lang) := Get(c.description.value, lang)];
      }
    }
    assert LANGUAGES[..|LANGUAGES|] == LANGUAGES;
    r := Ok(ct);
  }

  /** The Django settings `get_root_dir` reads. */
  datatype Settings = Settings(projectRoot: Option<string>, baseDir: string)

  /** `get_root_dir`: `PROJECT_ROOT` when the setting exists, else `BASE_DIR`. */
  function RootDir(settings: Settings): (dir: string)
    ensures settings.projectRoot.Some? ==> dir == settings.projectRoot.value
    ensures settings.projectRoot.None? ==> dir == settings.baseDir
  {
    match settings.projectRoot
    case Some(root) => root
    case None => settings.baseDir
  }

  /** `CONTENT_TYPES_CONFIG_FILE`: the content-type configuration under the project root. */
  function ContentTypesConfigFile(settings: Settings): string {
    RootDir(settings) + "/mobility_data/importers/data/content_types.yml"
  }
}
