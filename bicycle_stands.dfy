/**
 * The bicycle-stand importer: a `BicycleStand` object filled in from one
 * feature of the city's WFS layer (GML) or of the GeoJSON file of stands that
 * belong to units, and the collection of the stands inside Turku in which
 * the stands not maintained by the city are kept once per Finnish name.
 *
 * Geometry is not modelled. What the importer derives from a feature's
 * geometry through the database (whether it lies inside Turku, its
 * municipality, the full names of the closest address) is carried by the
 * feature itself; the unit and street registers are functions.
 */
module BicycleStands {
  import opened Wrappers
  import opened Text
  import opened ImporterUtils

  /** The three languages, the keys of a stand's names and street addresses. */
  datatype Lang = Fi | Sv | En

  /** The language's code, the key of a translation map. */
  function Code(lang: Lang): (code: string)
    ensures code in LANGUAGES
  {
    match lang
    case Fi => "fi"
    case Sv => "sv"
    case En => "en"
  }

  /** `NAME_PREFIX`: what a stand's name is prefixed with, per language. */
  function NamePrefix(lang: Lang): string {
    match lang
    case Fi => "Pyöräpysäköinti"
    case Sv => "Cykelparkering"
    case En => "Bicycle parking"
  }

  /** The quality text's marker of hull-lockable places, in the WFS layer. */
  const WFS_HULL_LOCKABLE_STR := "runkolukitusmahdollisuus"
  /** The quality text's marker of hull-lockable places, in the GeoJSON file. */
  const GEOJSON_HULL_LOCKABLE_STR := "runkolukittava"
  /** The quality text's marker of covered places. */
  const COVERED_IN_STR := "katettu"

  /** The directory of the data files, relative to the root directory. */
  const DATA_DIR := "mobility_data/data"
  /** `GEOJSON_FILENAME`. */
  const GEOJSON_FILENAME := "bicycle_stands_for_units.geojson"

  /** What `posixpath.join` puts between a directory and a relative name: nothing after "" or a trailing "/". */
  function Separator(dir: string): string {
    if dir == [] || dir[|dir| - 1] == '/' then "" else "/"
  }

  /** `os.path.join(a, b)` on POSIX: `b` when it is absolute, else `a` and `b` with one separator between. */
  function PathJoin(a: string, b: string): string {
    if |b| > 0 && b[0] == '/' then b
    else if a == [] || a[|a| - 1] == '/' then a + b
    else a + "/" + b
  }

  /** A relative name is joined after the directory and exactly the separator it lacks. */
  lemma PathJoinRelative(a: string, b: string)
    requires b == [] || b[0] != '/'
    ensures a <= PathJoin(a, b) && PathJoin(a, b)[|a|..] == Separator(a) + b
  {
  }

  /** Joining two relative names one after the other is joining them with "/" in one step. */
  lemma PathJoinTwice(a: string, b: string, c: string)
    requires |b| > 0 && b[0] != '/' && b[|b| - 1] != '/'
    requires c == [] || c[0] != '/'
    ensures PathJoin(PathJoin(a, b), c) == PathJoin(a, b + "/" + c)
  {
    var sep := Separator(a);
    var ab := a + sep + b;
    var bc := b + "/" + c;
    assert PathJoin(a, b) == ab;
    assert ab[|ab| - 1] == b[|b| - 1];
    assert PathJoin(ab, c) == ab + "/" + c;
    assert bc[0] == b[0];
    assert PathJoin(a, bc) == a + sep + bc;
    assert ab + "/" + c == a + sep + bc;
  }

  /**
   * The GeoJSON file read when no data source is given:
   * `os.path.join(os.path.join(root_dir, DATA_DIR), GEOJSON_FILENAME)`.
   * It is the root directory, the one separator it lacks, and then
   * `mobility_data/data/bicycle_stands_for_units.geojson`.
   */
  function GeojsonFile(settings: Settings): (path: string)
    ensures var root := RootDir(settings);
      root <= path && path[|root|..] == Separator(root) + (DATA_DIR + "/" + GEOJSON_FILENAME)
  {
    var root := RootDir(settings);
    var name := DATA_DIR + "/" + GEOJSON_FILENAME;
    assert DATA_DIR[0] != '/' && DATA_DIR[|DATA_DIR| - 1] != '/' && GEOJSON_FILENAME[0] != '/';
    assert name[0] == DATA_DIR[0];
    PathJoinTwice(root, DATA_DIR, GEOJSON_FILENAME);
    PathJoinRelative(root, name);
    PathJoin(PathJoin(root, DATA_DIR), GEOJSON_FILENAME)
  }

  /** No separator is doubled after a root ending in "/", and none is put before a relative path after an empty root. */
  lemma GeojsonFileRoots(baseDir: string)
    ensures GeojsonFile(Settings(Some("/srv/"), baseDir)) == "/srv/" + DATA_DIR + "/" + GEOJSON_FILENAME
    ensures GeojsonFile(Settings(Some("/srv"), baseDir)) == "/srv/" + DATA_DIR + "/" + GEOJSON_FILENAME
    ensures GeojsonFile(Settings(Some(""), baseDir)) == DATA_DIR + "/" + GEOJSON_FILENAME
  {
  }

  /** A unit of the service register, as far as the importer looks at it. */
  datatype Unit = Unit(id: int, nameSv: string, nameEn: string, isBicycleStand: bool)

  /** The full names of an address in the three languages. */
  datatype FullNames = FullNames(fi: string, sv: string, en: string)

  /**
   * A feature of the WFS layer: the fields `id`, `Malli` (absent is `None`),
   * `Lukumaara`, `Pyorapaikkojen_lukumaara` and `Pyorapaikkojen_laatutaso`,
   * and what its geometry gives: the municipality and the closest address.
   */
  datatype GmlFeature = GmlFeature(
    id: string, model: Option<string>, numberOfStands: Option<int>, places: string, quality: string,
    municipality: Option<string>, closest: FullNames)

  /**
   * A feature of the GeoJSON file: the fields `kohde`, `telineitä`,
   * `paikkoja`, `pys.malli`, `laatutaso` and `osoite`, and the municipality
   * its geometry lies in.
   */
  datatype GeojsonFeature = GeojsonFeature(
    target: string, stands: Option<int>, places: Option<int>, model: string, quality: string,
    address: string, municipality: Option<string>)

  /** A feature together with whether `locates_in_turku` holds for it. */
  datatype Feature =
    | Gml(gml: GmlFeature, inTurku: bool)
    | Geojson(geojson: GeojsonFeature, inTurku: bool)

  /** The values of a `BicycleStand`'s fields. */
  datatype Stand = Stand(
    model: Option<string>, numberOfStands: Option<int>, numberOfPlaces: Option<int>,
    hullLockable: Option<bool>, covered: Option<bool>, city: Option<string>,
    maintainedByTurku: Option<bool>, name: map<Lang, string>, prefixName: map<Lang, string>,
    streetAddress: map<Lang, string>, relatedUnit: Option<Unit>)

  /** The fields of a new `BicycleStand`. */
  const EMPTY := Stand(None, None, None, None, None, None, None, map[], map[], map[], None)

  /** `{k: f"{NAME_PREFIX[k]} {v}" for k, v in name.items()}`. */
  function PrefixNames(name: map<Lang, string>): (prefixed: map<Lang, string>)
    ensures prefixed.Keys == name.Keys
  {
    map k | k in name :: NamePrefix(k) + " " + name[k]
  }

  /** `name` with its three languages set. */
  function SetNames(name: map<Lang, string>, fi: string, sv: string, en: string): (r: map<Lang, string>)
    ensures Fi in r && Sv in r && En in r
    ensures r[Fi] == fi && r[Sv] == sv && r[En] == en
  {
    name[Fi := fi][Sv := sv][En := en]
  }

  /**
   * What a quality text sets a flag to: unchanged when the text is empty,
   * otherwise whether its lowercase form contains `marker`.
   */
  function QualityFlag(quality: string, marker: string, flag: Option<bool>): Option<bool> {
    if quality == "" then flag else Some(Contains(Lower(quality), marker))
  }

  /** Lowercasing twice is lowercasing once. */
  lemma LowerIdempotent(s: string)
    ensures Lower(Lower(s)) == Lower(s)
  {
    assert forall i :: 0 <= i < |s| ==> LowerChar(LowerChar(s[i])) == LowerChar(s[i]);
  }

  /** The sum of the tokens that are digit strings. */
  function DigitTokenSum(tokens: seq<string>): nat {
    if tokens == [] then 0
    else (if IsDigits(tokens[0]) then DecimalValue(tokens[0]) else 0) + DigitTokenSum(tokens[1..])
  }

  /** `sum(int(s) for s in text.split() if s.isdigit())`. */
  function PlacesCount(text: string): nat {
    DigitTokenSum(Words(text))
  }

  lemma {:induction false} DigitTokenSumAppend(xs: seq<string>, ys: seq<string>)
    ensures DigitTokenSum(xs + ys) == DigitTokenSum(xs) + DigitTokenSum(ys)
  {
    if xs != [] {
      assert (xs + ys)[0] == xs[0];
      assert (xs + ys)[1..] == xs[1..] + ys;
      DigitTokenSumAppend(xs[1..], ys);
      assert DigitTokenSum(xs + ys) == (if IsDigits(xs[0]) then DecimalValue(xs[0]) else 0) + DigitTokenSum(xs[1..] + ys);
    } else {
      assert xs + ys == ys;
    }
  }

  /** The count of a text joined from two by a space is the sum of their counts. */
  lemma PlacesCountJoin(a: string, b: string)
    ensures PlacesCount(a + " " + b) == PlacesCount(a) + PlacesCount(b)
  {
    assert " " == [' '];
    WordsConcat(a, ' ', b);
    DigitTokenSumAppend(Words(a), Words(b));
  }

  /** A number written out counts as itself. */
  lemma PlacesCountNumber(n: nat)
    ensures PlacesCount(NatToString(n)) == n
  {
    var s := NatToString(n);
    assert IsDigits(s);
    assert IsWord(s) by {
      assert forall i :: 0 <= i < |s| ==> IsDigit(s[i]);
    }
    WordsOfWord(s);
    NatToStringValue(n);
    assert Words(s) == [s];
    assert DigitTokenSum([s]) == DecimalValue(s) + DigitTokenSum([]);
  }

  /** A word with a character other than a digit counts as nothing. */
  lemma PlacesCountWord(w: string)
    requires IsWord(w) && !IsDigits(w)
    ensures PlacesCount(w) == 0
  {
    WordsOfWord(w);
    assert DigitTokenSum([w]) == 0 + DigitTokenSum([]);
  }

  /**
   * A text such as "8 runkolukittavaa ja 10 ei runkolukittavaa paikkaa"
   * counts the numbers it holds and nothing else.
   */
  lemma PlacesCountExample(a: nat, b: nat, w: string, rest: string)
    requires IsWord(w) && !IsDigits(w) && PlacesCount(rest) == 0
    ensures PlacesCount(NatToString(a) + " " + w + " " + NatToString(b) + " " + rest) == a + b
  {
    PlacesCountNumber(a);
    PlacesCountNumber(b);
    PlacesCountWord(w);
    PlacesCountJoin(NatToString(a), w);
    PlacesCountJoin(NatToString(a) + " " + w, NatToString(b));
    PlacesCountJoin(NatToString(a) + " " + w + " " + NatToString(b), rest);
  }

  /** The first of the units that is not a bicycle stand. */
  function FirstNonStand(units: seq<Unit>): (r: Option<Unit>)
    ensures r.Some? ==> r.value in units && !r.value.isBicycleStand
    ensures r.None? <==> forall i :: 0 <= i < |units| ==> units[i].isBicycleStand
  {
    if units == [] then None
    else if !units[0].isBicycleStand then Some(units[0])
    else FirstNonStand(units[1..])
  }

  /** Every unit before the one found is a bicycle stand. */
  lemma {:induction false} FirstNonStandIsFirst(units: seq<Unit>)
    requires FirstNonStand(units).Some?
    ensures exists i :: (0 <= i < |units| && units[i] == FirstNonStand(units).value
      && forall j :: 0 <= j < i ==> units[j].isBicycleStand)
  {
    if units[0].isBicycleStand {
      FirstNonStandIsFirst(units[1..]);
      var i :| 0 <= i < |units[1..]| && units[1..][i] == FirstNonStand(units[1..]).value
        && forall j :: 0 <= j < i ==> units[1..][j].isBicycleStand;
      assert units[i + 1] == FirstNonStand(units).value;
      assert forall j :: 0 <= j < i + 1 ==> units[j].isBicycleStand by {
        forall j | 0 <= j < i + 1 ensures units[j].isBicycleStand {
          if j > 0 {
            assert units[j] == units[1..][j - 1];
          }
        }
      }
    } else {
      assert units[0] == FirstNonStand(units).value;
    }
  }

  /**
   * The loop of `set_geojson_feature` over the units named like the stand:
   * the first one that does not offer the bicycle-stand service.
   */
  method FindRelatedUnit(units: seq<Unit>) returns (r: Option<Unit>)
    ensures r == FirstNonStand(units)
  {
    r := None;
    var i := 0;
    while i < |units|
      invariant 0 <= i <= |units|
      invariant FirstNonStand(units) == FirstNonStand(units[i..])
    {
      assert units[i..][1..] == units[i + 1..];
      if !units[i].isBicycleStand {
        r := Some(units[i]);
        return;
      }
      i := i + 1;
    }
  }

  /** The part of `osoite` the street is read from: the second comma-separated part when there are more than two, else the first. */
  function AddressSegment(address: string): string {
    var parts := Split(address, ',');
    if |parts| > 2 then parts[1] else parts[0]
  }

  /** The space-separated tokens of the stripped segment. */
  function AddressTokens(address: string): (tokens: seq<string>)
    ensures |tokens| > 0
  {
    Split(Strip(AddressSegment(address)), ' ')
  }

  /**
   * The street name and number of `osoite`: all tokens but the last, joined
   * by spaces, and the last token; a single token gives two empty strings.
   */
  function AddressParts(address: string): (parts: (string, string)) {
    var tokens := AddressTokens(address);
    (Join(tokens[..|tokens| - 1], " "), if |tokens| == 1 then "" else tokens[|tokens| - 1])
  }

  /**
   * With more than one token the street, a space and the number give back the
   * stripped segment, and the number holds no space; with one token both
   * parts are empty.
   */
  lemma AddressPartsRoundTrip(address: string)
    ensures var (street, number) := AddressParts(address);
      var segment := Strip(AddressSegment(address));
      && ' ' !in number
      && (' ' in segment ==> street + " " + number == segment)
      && (' ' !in segment ==> street == "" && number == "")
  {
    var segment := Strip(AddressSegment(address));
    var tokens := AddressTokens(address);
    JoinSplit(segment, ' ');
    if ' ' in segment {
      assert |tokens| >= 2;
      JoinSnoc(tokens, " ");
      assert [' '] == " ";
    } else {
      SplitWithoutSep(segment, ' ');
    }
  }

  /** An address with a prefix part, "Pyhän Henrikin aukio, Kupittaankatu 8, 20520 Turku", is read from its second part. */
  lemma AddressSkipsPrefix(prefix: string, street: string, rest: string)
    requires ',' !in prefix && ',' !in street
    ensures AddressSegment(prefix + "," + street + "," + rest) == street
  {
    SplitAtFirst(street, ',', rest);
    SplitAtFirst(prefix, ',', street + "," + rest);
    assert prefix + "," + street + "," + rest == prefix + [','] + (street + [','] + rest);
  }

  /** An address with one comma, "Kupittaankatu 8, 20520 Turku", is read from its first part. */
  lemma AddressWithoutPrefix(street: string, rest: string)
    requires ',' !in street && ',' !in rest
    ensures AddressSegment(street + "," + rest) == street
  {
    SplitWithoutSep(rest, ',');
    SplitAtFirst(street, ',', rest);
    assert street + "," + rest == street + [','] + rest;
  }

  /** `street_address[lang] = f"{translated[lang]} {number}"` for the three languages. */
  function StreetAddresses(addresses: map<Lang, string>, translated: map<string, string>, number: string)
    : (r: map<Lang, string>)
    requires "fi" in translated && "sv" in translated && "en" in translated
    ensures Fi in r && Sv in r && En in r
  {
    addresses[Fi := translated["fi"] + " " + number]
             [Sv := translated["sv"] + " " + number]
             [En := translated["en"] + " " + number]
  }

  /** The unit `set_geojson_feature` looks the stand up by: the stripped `kohde` up to its first comma. */
  function UnitName(f: GeojsonFeature): string {
    Split(Strip(f.target), ',')[0]
  }

  /** The related unit after the unit loop: the first unit that is not a bicycle stand, if any, else the one before. */
  function RelatedUnit(related: Option<Unit>, units: seq<Unit>): (r: Option<Unit>)
    ensures r.Some? && r != related ==> r.value in units && !r.value.isBicycleStand
  {
    if FirstNonStand(units).Some? then FirstNonStand(units) else related
  }

  /** The names `set_geojson_feature` gives: the related unit's translations, or the Finnish name throughout. */
  function GeojsonNames(name: map<Lang, string>, target: string, related: Option<Unit>): map<Lang, string> {
    if related.Some? then SetNames(name, target, related.value.nameSv, related.value.nameEn)
    else SetNames(name, target, target, target)
  }

  /** The street addresses `set_geojson_feature` records; none when the municipality is unknown. */
  function GeojsonStreetAddresses(addresses: map<Lang, string>, f: GeojsonFeature,
                                  findStreet: (string, string) -> Option<Street>): map<Lang, string>
  {
    var (street, number) := AddressParts(f.address);
    if f.municipality.None? then addresses
    else StreetAddresses(addresses, StreetNameTranslations(street, f.municipality.value, findStreet), number)
  }

  /** The stand's fields after `set_geojson_feature`. */
  function ApplyGeojson(s: Stand, f: GeojsonFeature, unitsNamed: string -> seq<Unit>,
                        findStreet: (string, string) -> Option<Street>): Stand
  {
    var related := RelatedUnit(s.relatedUnit, unitsNamed(UnitName(f)));
    var name := GeojsonNames(s.name, Strip(f.target), related);
    Stand(
      if f.model != "" then Some(f.model) else s.model,
      f.stands,
      f.places,
      QualityFlag(f.quality, GEOJSON_HULL_LOCKABLE_STR, s.hullLockable),
      QualityFlag(f.quality, COVERED_IN_STR, s.covered),
      f.municipality,
      s.maintainedByTurku,
      name,
      PrefixNames(name),
      GeojsonStreetAddresses(s.streetAddress, f, findStreet),
      related)
  }

  /** The count of stands: a count of 0 for a stand not maintained by Turku means there is no count. */
  function StandCount(count: Option<int>, field: Option<int>, maintained: bool): Option<int> {
    match field
    case None => count
    case Some(n) => if n == 0 && !maintained then None else Some(n)
  }

  /** The stand's fields after `set_gml_feature`. */
  function ApplyGml(s: Stand, f: GmlFeature): Stand {
    var name := SetNames(s.name, f.closest.fi, f.closest.sv, f.closest.en);
    Stand(
      if f.model.Some? then f.model else s.model,
      StandCount(s.numberOfStands, f.numberOfStands, f.id != "0"),
      if f.places != "" then Some(PlacesCount(f.places)) else s.numberOfPlaces,
      QualityFlag(f.quality, WFS_HULL_LOCKABLE_STR, s.hullLockable),
      QualityFlag(f.quality, COVERED_IN_STR, s.covered),
      f.municipality,
      Some(f.id != "0"),
      name,
      PrefixNames(name),
      s.streetAddress,
      s.relatedUnit)
  }

  /** The names of a stand named `target`: every language named, each name prefixed in its language. */
  lemma GeojsonNamesPrefixed(name: map<Lang, string>, target: string, related: Option<Unit>)
    ensures var names := GeojsonNames(name, target, related);
      var prefixed := PrefixNames(names);
      && names.Keys == prefixed.Keys == name.Keys + {Fi, Sv, En}
      && names[Fi] == target
      && names[Sv] == (if related.Some? then related.value.nameSv else target)
      && names[En] == (if related.Some? then related.value.nameEn else target)
      && prefixed[Fi] == NamePrefix(Fi) + " " + names[Fi]
      && prefixed[Sv] == NamePrefix(Sv) + " " + names[Sv]
      && prefixed[En] == NamePrefix(En) + " " + names[En]
  {
  }

  /**
   * A GeoJSON stand is named by `kohde`, stripped; its Swedish and English
   * names are the related unit's when one was found and its Finnish name
   * otherwise; every name is prefixed in its language.
   */
  lemma GeojsonNaming(f: GeojsonFeature, unitsNamed: string -> seq<Unit>,
                      findStreet: (string, string) -> Option<Street>)
    ensures var r := ApplyGeojson(EMPTY, f, unitsNamed, findStreet);
      var target := Strip(f.target);
      var units := unitsNamed(UnitName(f));
      && r.name.Keys == r.prefixName.Keys == {Fi, Sv, En}
      && r.name[Fi] == target
      && r.prefixName[Fi] == NamePrefix(Fi) + " " + target
      && r.prefixName[Sv] == NamePrefix(Sv) + " " + r.name[Sv]
      && r.prefixName[En] == NamePrefix(En) + " " + r.name[En]
      && (FirstNonStand(units).None? ==> r.name[Sv] == target && r.name[En] == target && r.relatedUnit.None?)
      && (FirstNonStand(units).Some? ==>
            && r.relatedUnit == FirstNonStand(units)
            && !r.relatedUnit.value.isBicycleStand
            && r.name[Sv] == r.relatedUnit.value.nameSv
            && r.name[En] == r.relatedUnit.value.nameEn)
      && r.maintainedByTurku.None?
  {
    var r := ApplyGeojson(EMPTY, f, unitsNamed, findStreet);
    GeojsonNamesPrefixed(EMPTY.name, Strip(f.target), r.relatedUnit);
    assert EMPTY.name.Keys + {Fi, Sv, En} == {Fi, Sv, En};
  }

  /**
   * A GeoJSON stand's street address, when the municipality is known: the
   * street's translation, a space and the number, in each language; when the
   * street register lacks the street and the address has a number, every
   * language gets the address segment exactly as written.
   */
  lemma GeojsonStreetAddress(f: GeojsonFeature, findStreet: (string, string) -> Option<Street>)
    requires f.municipality.Some?
    ensures var r := GeojsonStreetAddresses(map[], f, findStreet);
      var (street, number) := AddressParts(f.address);
      var translated := StreetNameTranslations(street, f.municipality.value, findStreet);
      var segment := Strip(AddressSegment(f.address));
      && Fi in r && Sv in r && En in r
      && r[Fi] == translated["fi"] + " " + number
      && r[Sv] == translated["sv"] + " " + number
      && r[En] == translated["en"] + " " + number
      && (findStreet(street, Lower(f.municipality.value)).None? && ' ' in segment ==>
            r[Fi] == segment && r[Sv] == segment && r[En] == segment)
  {
    var (street, number) := AddressParts(f.address);
    StreetNameTranslationsFacts(street, f.municipality.value, findStreet);
    AddressPartsRoundTrip(f.address);
  }

  /**
   * A WFS stand is maintained by Turku exactly when its id is not "0"; its
   * count of stands is dropped exactly when it is 0 for a stand not
   * maintained by Turku; its count of places is the sum of the numbers in
   * the text when there is one.
   */
  lemma GmlCounts(f: GmlFeature)
    ensures var r := ApplyGml(EMPTY, f);
      && r.maintainedByTurku == Some(f.id != "0")
      && (r.numberOfStands.None? <==> f.numberOfStands.None? || (f.numberOfStands == Some(0) && f.id == "0"))
      && (r.numberOfStands.Some? ==> r.numberOfStands == f.numberOfStands)
      && (r.numberOfPlaces.Some? <==> f.places != "")
      && (f.places != "" ==> r.numberOfPlaces == Some(PlacesCount(f.places)))
  {
  }

  /** A WFS stand's names are the closest address's, each prefixed in its language. */
  lemma GmlNames(f: GmlFeature)
    ensures var r := ApplyGml(EMPTY, f);
      && r.name == map[Fi := f.closest.fi, Sv := f.closest.sv, En := f.closest.en]
      && r.prefixName == map[Fi := NamePrefix(Fi) + " " + f.closest.fi, Sv := NamePrefix(Sv) + " " + f.closest.sv,
                            En := NamePrefix(En) + " " + f.closest.en]
  {
    var r := ApplyGml(EMPTY, f);
    var prefixed := map[Fi := NamePrefix(Fi) + " " + f.closest.fi, Sv := NamePrefix(Sv) + " " + f.closest.sv,
                        En := NamePrefix(En) + " " + f.closest.en];
    assert r.prefixName.Keys == prefixed.Keys;
    forall k | k in prefixed
      ensures r.prefixName[k] == prefixed[k]
    {
      assert NamePrefix(k) + " " + r.name[k] == prefixed[k];
    }
  }

  /**
   * The quality flags of either source: both stay unset without a quality
   * text; otherwise each says whether the lowercase text contains its marker.
   */
  lemma QualityFlags(g: GmlFeature, f: GeojsonFeature, unitsNamed: string -> seq<Unit>,
                     findStreet: (string, string) -> Option<Street>)
    ensures var r := ApplyGml(EMPTY, g);
      && (g.quality == "" <==> r.hullLockable.None?)
      && (g.quality == "" <==> r.covered.None?)
      && (r.hullLockable == Some(true) <==> g.quality != "" && Contains(Lower(g.quality), "runkolukitusmahdollisuus"))
      && (r.covered == Some(true) <==> g.quality != "" && Contains(Lower(g.quality), "katettu"))
    ensures var r := ApplyGeojson(EMPTY, f, unitsNamed, findStreet);
      && (f.quality == "" <==> r.hullLockable.None?)
      && (r.hullLockable == Some(true) <==> f.quality != "" && Contains(Lower(f.quality), "runkolukittava"))
      && (r.covered == Some(true) <==> f.quality != "" && Contains(Lower(f.quality), "katettu"))
  {
  }

  /**
   * The quality flags ignore case: a feature whose quality text is already
   * lowercase gives a stand with the same flags, from either source.
   */
  lemma QualityFlagsIgnoreCase(s: Stand, g: GmlFeature, f: GeojsonFeature, unitsNamed: string -> seq<Unit>,
                               findStreet: (string, string) -> Option<Street>)
    ensures var a, b := ApplyGml(s, g), ApplyGml(s, g.(quality := Lower(g.quality)));
      a.hullLockable == b.hullLockable && a.covered == b.covered
    ensures var a, b := ApplyGeojson(s, f, unitsNamed, findStreet),
                        ApplyGeojson(s, f.(quality := Lower(f.quality)), unitsNamed, findStreet);
      a.hullLockable == b.hullLockable && a.covered == b.covered
  {
    LowerIdempotent(g.quality);
    LowerIdempotent(f.quality);
  }

  /** A bicycle stand being imported. */
  class BicycleStand {
    var model: Option<string>
    var numberOfStands: Option<int>
    var numberOfPlaces: Option<int>
    var hullLockable: Option<bool>
    var covered: Option<bool>
    var city: Option<string>
    var maintainedByTurku: Option<bool>
    var name: map<Lang, string>
    var prefixName: map<Lang, string>
    var streetAddress: map<Lang, string>
    var relatedUnit: Option<Unit>

    /** The values of the fields. */
    function Snapshot(): Stand
      reads this
    {
      Stand(model, numberOfStands, numberOfPlaces, hullLockable, covered, city, maintainedByTurku,
            name, prefixName, streetAddress, relatedUnit)
    }

    constructor()
      ensures Snapshot() == EMPTY
    {
      model := None;
      numberOfStands := None;
      numberOfPlaces := None;
      hullLockable := None;
      covered := None;
      city := None;
      maintainedByTurku := None;
      name := map[];
      prefixName := map[];
      streetAddress := map[];
      relatedUnit := None;
    }

    /** The count of stands of the WFS layer; 0 for a stand Turku does not maintain means no count. */
    method SetStandCount(field: Option<int>)
      modifies this`numberOfStands
      ensures numberOfStands == StandCount(old(numberOfStands), field, maintainedByTurku == Some(true))
    {
      if field.Some? {
        var num := field.value;
        if num == 0 && maintainedByTurku != Some(true) {
          numberOfStands := None;
        } else {
          numberOfStands := Some(num);
        }
      }
    }

    /** The count of places of the WFS layer: the numbers in the text summed, when there is a text. */
    method SetPlaces(text: string)
      modifies this`numberOfPlaces
      ensures numberOfPlaces == if text != "" then Some(PlacesCount(text)) else old(numberOfPlaces)
    {
      if text != "" {
        numberOfPlaces := Some(PlacesCount(text));
      }
    }

    /** The quality block both setters share: each flag set when there is a quality text. */
    method SetQuality(quality: string, hullMarker: string)
      modifies this`hullLockable, this`covered
      ensures hullLockable == QualityFlag(quality, hullMarker, old(hullLockable))
      ensures covered == QualityFlag(quality, COVERED_IN_STR, old(covered))
    {
      if quality != "" {
        var qualityText := Lower(quality);
        hullLockable := Some(Contains(qualityText, hullMarker));
        covered := Some(Contains(qualityText, COVERED_IN_STR));
      }
    }

    /** Sets the three names and derives the prefixed names from them. */
    method SetName(fi: string, sv: string, en: string)
      modifies this`name, this`prefixName
      ensures name == SetNames(old(name), fi, sv, en)
      ensures prefixName == PrefixNames(name)
    {
      name := name[Fi := fi];
      name := name[Sv := sv];
      name := name[En := en];
      prefixName := PrefixNames(name);
    }

    /** The unit loop of `set_geojson_feature`. */
    method SetRelatedUnit(units: seq<Unit>)
      modifies this`relatedUnit
      ensures relatedUnit == RelatedUnit(old(relatedUnit), units)
    {
      var related := FindRelatedUnit(units);
      if related.Some? {
        relatedUnit := related;
      }
    }

    /**
     * The address block of `set_geojson_feature`; it fails (`ok` false)
     * where the source raises because the municipality is unknown.
     */
    method SetStreetAddress(f: GeojsonFeature, findStreet: (string, string) -> Option<Street>)
      returns (ok: bool)
      requires city == f.municipality
      modifies this`streetAddress
      ensures ok <==> f.municipality.Some?
      ensures streetAddress == GeojsonStreetAddresses(old(streetAddress), f, findStreet)
    {
      var (street, number) := AddressParts(f.address);
      if city.None? {
        return false;
      }
      var translated := GetStreetNameTranslations(street, city.value, findStreet);
      streetAddress := StreetAddresses(streetAddress, translated, number);
      return true;
    }

    /** The plain fields `set_geojson_feature` copies from the feature. */
    method SetGeojsonFields(f: GeojsonFeature)
      modifies this`numberOfStands, this`numberOfPlaces, this`model, this`hullLockable, this`covered, this`city
      ensures numberOfStands == f.stands && numberOfPlaces == f.places
      ensures model == if f.model != "" then Some(f.model) else old(model)
      ensures hullLockable == QualityFlag(f.quality, GEOJSON_HULL_LOCKABLE_STR, old(hullLockable))
      ensures covered == QualityFlag(f.quality, COVERED_IN_STR, old(covered))
      ensures city == f.municipality
    {
      numberOfStands := f.stands;
      numberOfPlaces := f.places;
      if f.model != "" {
        model := Some(f.model);
      }
      SetQuality(f.quality, GEOJSON_HULL_LOCKABLE_STR);
      city := f.municipality;
    }

    /** The naming block of `set_geojson_feature`: from the related unit if there is one, else from the target. */
    method SetGeojsonName(target: string)
      modifies this`name, this`prefixName
      ensures name == GeojsonNames(old(name), target, relatedUnit)
      ensures prefixName == PrefixNames(name)
    {
      if relatedUnit.Some? {
        SetName(target, relatedUnit.value.nameSv, relatedUnit.value.nameEn);
      } else {
        SetName(target, target, target);
      }
    }

    /**
     * `set_geojson_feature`. It fails (`ok` false) where the source raises
     * because the stand's municipality is unknown, after every field but the
     * street address has been set.
     */
    method SetGeojsonFeature(f: GeojsonFeature, unitsNamed: string -> seq<Unit>,
                             findStreet: (string, string) -> Option<Street>) returns (ok: bool)
      modifies this`relatedUnit, this`numberOfStands, this`numberOfPlaces, this`model, this`hullLockable,
        this`covered, this`city, this`name, this`prefixName, this`streetAddress
      ensures ok <==> f.municipality.Some?
      ensures relatedUnit == RelatedUnit(old(relatedUnit), unitsNamed(UnitName(f)))
      ensures numberOfStands == f.stands && numberOfPlaces == f.places
      ensures model == if f.model != "" then Some(f.model) else old(model)
      ensures hullLockable == QualityFlag(f.quality, GEOJSON_HULL_LOCKABLE_STR, old(hullLockable))
      ensures covered == QualityFlag(f.quality, COVERED_IN_STR, old(covered))
      ensures city == f.municipality
      ensures name == GeojsonNames(old(name), Strip(f.target), relatedUnit)
      ensures prefixName == PrefixNames(name)
      ensures streetAddress == GeojsonStreetAddresses(old(streetAddress), f, findStreet)
    {
      SetRelatedUnit(unitsNamed(UnitName(f)));
      SetGeojsonFields(f);
      SetGeojsonName(Strip(f.target));
      ok := SetStreetAddress(f, findStreet);
    }

    /** `set_gml_feature`. */
    method SetGmlFeature(f: GmlFeature)
      modifies this`maintainedByTurku, this`model, this`numberOfStands, this`numberOfPlaces,
        this`hullLockable, this`covered, this`city, this`name, this`prefixName
      ensures maintainedByTurku == Some(f.id != "0")
      ensures model == if f.model.Some? then f.model else old(model)
      ensures numberOfStands == StandCount(old(numberOfStands), f.numberOfStands, f.id != "0")
      ensures numberOfPlaces == if f.places != "" then Some(PlacesCount(f.places)) else old(numberOfPlaces)
      ensures hullLockable == QualityFlag(f.quality, WFS_HULL_LOCKABLE_STR, old(hullLockable))
      ensures covered == QualityFlag(f.quality, COVERED_IN_STR, old(covered))
      ensures city == f.municipality
      ensures name == SetNames(old(name), f.closest.fi, f.closest.sv, f.closest.en)
      ensures prefixName == PrefixNames(name)
    {
      maintainedByTurku := Some(f.id != "0");
      if f.model.Some? {
        model := f.model;
      }
      SetStandCount(f.numberOfStands);
      SetPlaces(f.places);
      SetQuality(f.quality, WFS_HULL_LOCKABLE_STR);
      city := f.municipality;
      SetName(f.closest.fi, f.closest.sv, f.closest.en);
    }
  }

  /** A stand maintained by Turku; a GeoJSON stand, whose flag stays unset, is not. */
  predicate Maintained(s: Stand) {
    s.maintainedByTurku == Some(true)
  }

  /** The stand's Finnish name (every imported stand has one). */
  function FiName(s: Stand): string {
    if Fi in s.name then s.name[Fi] else ""
  }

  /** The keys of `external_stands` once `kept` are the stands kept: the Finnish names of those not maintained. */
  function ExternalNames(kept: seq<Stand>): set<string> {
    if kept == [] then {}
    else
      var rest := ExternalNames(kept[..|kept| - 1]);
      var last := kept[|kept| - 1];
      if Maintained(last) then rest else rest + {FiName(last)}
  }

  /** A name is external exactly when a stand kept and not maintained bears it. */
  lemma {:induction false} ExternalNamesMembers(kept: seq<Stand>)
    ensures forall x :: x in ExternalNames(kept) <==> exists j :: 0 <= j < |kept| && !Maintained(kept[j]) && FiName(kept[j]) == x
  {
    if kept != [] {
      ExternalNamesMembers(kept[..|kept| - 1]);
      assert forall j :: 0 <= j < |kept| - 1 ==> kept[..|kept| - 1][j] == kept[j];
    }
  }

  /** Whether a new stand is appended to the stands kept so far. */
  predicate Admitted(kept: seq<Stand>, s: Stand) {
    Maintained(s) || FiName(s) !in ExternalNames(kept)
  }

  /** The de-duplication of `get_bicycle_stand_objects`, stand by stand. */
  function Dedup(stands: seq<Stand>): (kept: seq<Stand>)
    ensures |kept| <= |stands|
  {
    if stands == [] then []
    else
      var kept := Dedup(stands[..|stands| - 1]);
      var s := stands[|stands| - 1];
      if Admitted(kept, s) then kept + [s] else kept
  }

  /** Whether the `i`th stand survives: it is maintained, or no stand before it is an unmaintained one of the same Finnish name. */
  predicate KeptAt(stands: seq<Stand>, i: int)
    requires 0 <= i < |stands|
  {
    Maintained(stands[i])
    || forall j :: 0 <= j < i ==> Maintained(stands[j]) || FiName(stands[j]) != FiName(stands[i])
  }

  /** The stands for which `KeptAt` holds, in their order. */
  function Selected(stands: seq<Stand>): seq<Stand> {
    if stands == [] then []
    else
      Selected(stands[..|stands| - 1])
      + (if KeptAt(stands, |stands| - 1) then [stands[|stands| - 1]] else [])
  }

  /** De-duplicating records the same external names as the stands themselves carry. */
  lemma {:induction false} DedupExternalNames(stands: seq<Stand>)
    ensures ExternalNames(Dedup(stands)) == ExternalNames(stands)
  {
    if stands != [] {
      var n := |stands| - 1;
      var init := stands[..n];
      var s := stands[n];
      DedupExternalNames(init);
      assert stands == init + [s];
      ExternalNamesSnoc(init, s);
      var kept := Dedup(init);
      if Admitted(kept, s) {
        ExternalNamesSnoc(kept, s);
      }
    }
  }

  /** The de-duplication keeps exactly the stands `KeptAt` selects, in order. */
  lemma {:induction false} DedupIsSelection(stands: seq<Stand>)
    ensures Dedup(stands) == Selected(stands)
  {
    if stands != [] {
      var n := |stands| - 1;
      var init := stands[..n];
      DedupIsSelection(init);
      DedupExternalNames(init);
      AdmittedIsKept(stands);
    }
  }

  /** The last stand is admitted after the others exactly when `KeptAt` keeps it. */
  lemma AdmittedIsKept(stands: seq<Stand>)
    requires stands != []
    ensures var n := |stands| - 1;
      Admitted(Dedup(stands[..n]), stands[n]) <==> KeptAt(stands, n)
  {
    var n := |stands| - 1;
    var init := stands[..n];
    DedupExternalNames(init);
    ExternalNamesMembers(init);
    assert forall j :: 0 <= j < n ==> init[j] == stands[j];
  }

  /** The stands maintained by Turku, in order. */
  function MaintainedOnes(stands: seq<Stand>): seq<Stand> {
    if stands == [] then []
    else MaintainedOnes(stands[..|stands| - 1]) + (if Maintained(stands[|stands| - 1]) then [stands[|stands| - 1]] else [])
  }

  /**
   * Every stand maintained by Turku survives, and no two surviving stands
   * that are not maintained share a Finnish name.
   */
  lemma {:induction false} DedupKeepsMaintained(stands: seq<Stand>)
    ensures MaintainedOnes(Dedup(stands)) == MaintainedOnes(stands)
    ensures var kept := Dedup(stands);
      forall i, j :: 0 <= i < j < |kept| && !Maintained(kept[i]) && !Maintained(kept[j]) ==>
        FiName(kept[i]) != FiName(kept[j])
  {
    if stands != [] {
      var n := |stands| - 1;
      var init := stands[..n];
      DedupKeepsMaintained(init);
      var kept := Dedup(init);
      var s := stands[n];
      if Admitted(kept, s) {
        var kept' := kept + [s];
        assert kept'[..|kept'| - 1] == kept;
        if !Maintained(s) {
          forall i | 0 <= i < |kept| && !Maintained(kept[i])
            ensures FiName(kept[i]) != FiName(s)
          {
            ExternalNamesMembers(kept);
            assert FiName(kept[i]) in ExternalNames(kept);
          }
        }
      }
    }
  }

  /** The stand a feature in Turku yields. */
  function Normalize(f: Feature, unitsNamed: string -> seq<Unit>,
                     findStreet: (string, string) -> Option<Street>): (s: Stand)
    ensures Fi in s.name && Sv in s.name && En in s.name
  {
    match f
    case Gml(g, _) => ApplyGml(EMPTY, g)
    case Geojson(g, _) => ApplyGeojson(EMPTY, g, unitsNamed, findStreet)
  }

  /** The stands of the features inside Turku, in order. */
  function NormalizeAll(fs: seq<Feature>, unitsNamed: string -> seq<Unit>,
                        findStreet: (string, string) -> Option<Street>): (stands: seq<Stand>)
    ensures |stands| <= |fs|
  {
    if fs == [] then []
    else
      var f := fs[|fs| - 1];
      NormalizeAll(fs[..|fs| - 1], unitsNamed, findStreet)
      + (if f.inTurku then [Normalize(f, unitsNamed, findStreet)] else [])
  }

  /** A GeoJSON feature in Turku whose municipality is unknown makes the import raise. */
  predicate Fails(f: Feature) {
    f.inTurku && f.Geojson? && f.geojson.municipality.None?
  }

  /**
   * `get_bicycle_stand_objects` on the features of its data sources, in
   * order: the de-duplicated stands of the features inside Turku, or the
   * error the first failing feature raises.
   */
  function BicycleStandObjects(fs: seq<Feature>, unitsNamed: string -> seq<Unit>,
                               findStreet: (string, string) -> Option<Street>): Result<seq<Stand>>
  {
    if exists i :: 0 <= i < |fs| && Fails(fs[i]) then Err("'NoneType' object has no attribute 'lower'")
    else Ok(Dedup(NormalizeAll(fs, unitsNamed, findStreet)))
  }

  /** The fields of the stands, in order. */
  function Snapshots(bs: seq<BicycleStand>): (r: seq<Stand>)
    reads set b | b in bs
    ensures |r| == |bs|
  {
    if bs == [] then [] else Snapshots(bs[..|bs| - 1]) + [bs[|bs| - 1].Snapshot()]
  }

  /** Appending a stand appends its fields. */
  lemma SnapshotsSnoc(bs: seq<BicycleStand>, b: BicycleStand)
    ensures Snapshots(bs + [b]) == Snapshots(bs) + [b.Snapshot()]
  {
    assert (bs + [b])[..|bs|] == bs;
  }

  /** One more feature: its stand, when it lies in Turku, follows the others. */
  lemma NormalizeAllSnoc(fs: seq<Feature>, i: nat, unitsNamed: string -> seq<Unit>,
                         findStreet: (string, string) -> Option<Street>)
    requires i < |fs|
    ensures NormalizeAll(fs[..i + 1], unitsNamed, findStreet)
      == NormalizeAll(fs[..i], unitsNamed, findStreet)
         + (if fs[i].inTurku then [Normalize(fs[i], unitsNamed, findStreet)] else [])
  {
    assert fs[..i + 1][..i] == fs[..i];
  }

  /** One more stand: it is kept exactly when it is admitted. */
  lemma DedupSnoc(stands: seq<Stand>, s: Stand)
    ensures Dedup(stands + [s])
      == if Admitted(Dedup(stands), s) then Dedup(stands) + [s] else Dedup(stands)
  {
    assert (stands + [s])[..|stands|] == stands;
  }

  /** One more feature: its stand `s`, when it lies in Turku and is admitted, follows the stands kept so far. */
  lemma KeptSnoc(fs: seq<Feature>, i: nat, unitsNamed: string -> seq<Unit>,
                 findStreet: (string, string) -> Option<Street>, s: Stand)
    requires i < |fs| && s == Normalize(fs[i], unitsNamed, findStreet)
    ensures var kept := Dedup(NormalizeAll(fs[..i], unitsNamed, findStreet));
      Dedup(NormalizeAll(fs[..i + 1], unitsNamed, findStreet))
        == if fs[i].inTurku && Admitted(kept, s) then kept + [s] else kept
  {
    var before := NormalizeAll(fs[..i], unitsNamed, findStreet);
    NormalizeAllSnoc(fs, i, unitsNamed, findStreet);
    if fs[i].inTurku {
      assert NormalizeAll(fs[..i + 1], unitsNamed, findStreet) == before + [s];
      DedupSnoc(before, s);
    } else {
      assert NormalizeAll(fs[..i + 1], unitsNamed, findStreet) == before;
    }
  }

  /** One more stand kept: its Finnish name becomes external unless it is maintained. */
  lemma ExternalNamesSnoc(kept: seq<Stand>, s: Stand)
    ensures ExternalNames(kept + [s])
      == if Maintained(s) then ExternalNames(kept) else ExternalNames(kept) + {FiName(s)}
  {
    assert (kept + [s])[..|kept|] == kept;
  }

  /** A new stand filled in from a feature of the WFS layer. */
  method NewGmlStand(g: GmlFeature) returns (stand: BicycleStand)
    ensures fresh(stand)
    ensures stand.Snapshot() == ApplyGml(EMPTY, g)
  {
    stand := new BicycleStand();
    stand.SetGmlFeature(g);
  }

  /** A new stand filled in from a feature of the GeoJSON file; `ok` is false where `set_geojson_feature` raises. */
  method NewGeojsonStand(g: GeojsonFeature, unitsNamed: string -> seq<Unit>,
                         findStreet: (string, string) -> Option<Street>)
    returns (stand: BicycleStand, ok: bool)
    ensures fresh(stand)
    ensures ok <==> g.municipality.Some?
    ensures ok ==> stand.Snapshot() == ApplyGeojson(EMPTY, g, unitsNamed, findStreet)
  {
    stand := new BicycleStand();
    ok := stand.SetGeojsonFeature(g, unitsNamed, findStreet);
  }

  /**
   * A new stand filled in from one feature inside Turku; `ok` is false where
   * `set_geojson_feature` raises.
   */
  method NewStand(f: Feature, unitsNamed: string -> seq<Unit>, findStreet: (string, string) -> Option<Street>)
    returns (stand: BicycleStand, ok: bool)
    requires f.inTurku
    ensures fresh(stand)
    ensures ok <==> !Fails(f)
    ensures ok ==> stand.Snapshot() == Normalize(f, unitsNamed, findStreet)
  {
    if f.Gml? {
      stand := NewGmlStand(f.gml);
      ok := true;
    } else {
      stand, ok := NewGeojsonStand(f.geojson, unitsNamed, findStreet);
    }
  }

  /**
   * The de-duplication step for one new stand: appended when it is
   * maintained by Turku or its Finnish name is not yet recorded as external,
   * the name recorded when it is not maintained.
   */
  method AddStand(stands: seq<BicycleStand>, external: map<string, bool>, stand: BicycleStand)
    returns (stands': seq<BicycleStand>, external': map<string, bool>)
    requires Fi in stand.name
    requires external.Keys == ExternalNames(Snapshots(stands))
    ensures stands' == if Admitted(Snapshots(stands), stand.Snapshot()) then stands + [stand] else stands
    ensures Snapshots(stands') == if Admitted(Snapshots(stands), stand.Snapshot())
      then Snapshots(stands) + [stand.Snapshot()] else Snapshots(stands)
    ensures external'.Keys == ExternalNames(Snapshots(stands'))
  {
    ghost var kept := Snapshots(stands);
    SnapshotsSnoc(stands, stand);
    ExternalNamesSnoc(kept, stand.Snapshot());
    stands', external' := stands, external;
    var fi := stand.name[Fi];
    if fi !in external && stand.maintainedByTurku != Some(true) {
      external' := external[fi := true];
      stands' := stands + [stand];
    } else if stand.maintainedByTurku == Some(true) {
      stands' := stands + [stand];
    }
  }

  /**
   * One turn of the feature loop: a feature inside Turku becomes a new stand
   * that goes through the de-duplication step; `ok` is false where
   * `set_geojson_feature` raises.
   */
  method ImportFeature(stands: seq<BicycleStand>, external: map<string, bool>, f: Feature,
                       unitsNamed: string -> seq<Unit>, findStreet: (string, string) -> Option<Street>)
    returns (stands': seq<BicycleStand>, external': map<string, bool>, ok: bool)
    requires external.Keys == ExternalNames(Snapshots(stands))
    ensures ok <==> !Fails(f)
    ensures ok ==>
      Snapshots(stands') ==
      if f.inTurku && Admitted(Snapshots(stands), Normalize(f, unitsNamed, findStreet))
      then Snapshots(stands) + [Normalize(f, unitsNamed, findStreet)] else Snapshots(stands)
    ensures ok ==> external'.Keys == ExternalNames(Snapshots(stands'))
    ensures forall b | b in stands' :: b in stands || fresh(b)
  {
    stands', external', ok := stands, external, true;
    if f.inTurku {
      var stand;
      stand, ok := NewStand(f, unitsNamed, findStreet);
      if ok {
        stands', external' := AddStand(stands, external, stand);
      }
    }
  }

  /** One failing feature makes the whole import fail. */
  lemma BicycleStandObjectsFails(fs: seq<Feature>, i: nat, unitsNamed: string -> seq<Unit>,
                                 findStreet: (string, string) -> Option<Street>)
    requires i < |fs| && Fails(fs[i])
    ensures BicycleStandObjects(fs, unitsNamed, findStreet).Err?
  {
  }

  /**
   * What the feature loop has done after `i` turns: none of the first `i`
   * features failed, the stands kept are those `BicycleStandObjects` keeps
   * of them, and the recorded names are the Finnish names of the kept stands
   * not maintained by Turku.
   */
  ghost predicate Imported(fs: seq<Feature>, i: nat, stands: seq<BicycleStand>, external: map<string, bool>,
                           unitsNamed: string -> seq<Unit>, findStreet: (string, string) -> Option<Street>)
    reads set b | b in stands
  {
    && i <= |fs|
    && (forall k :: 0 <= k < i ==> !Fails(fs[k]))
    && Snapshots(stands) == Dedup(NormalizeAll(fs[..i], unitsNamed, findStreet))
    && external.Keys == ExternalNames(Snapshots(stands))
  }

  /** The turn of the feature loop for feature `i`, given what the previous turns kept. */
  method ImportNext(fs: seq<Feature>, i: nat, stands: seq<BicycleStand>, external: map<string, bool>,
                    unitsNamed: string -> seq<Unit>, findStreet: (string, string) -> Option<Street>)
    returns (stands': seq<BicycleStand>, external': map<string, bool>, ok: bool)
    requires i < |fs| && Imported(fs, i, stands, external, unitsNamed, findStreet)
    ensures ok <==> !Fails(fs[i])
    ensures ok ==> Imported(fs, i + 1, stands', external', unitsNamed, findStreet)
    ensures forall b | b in stands' :: b in stands || fresh(b)
  {
    KeptSnoc(fs, i, unitsNamed, findStreet, Normalize(fs[i], unitsNamed, findStreet));
    stands', external', ok := ImportFeature(stands, external, fs[i], unitsNamed, findStreet);
  }

  /** After the last turn the loop has computed `BicycleStandObjects`. */
  lemma ImportedAll(fs: seq<Feature>, stands: seq<BicycleStand>, external: map<string, bool>,
                    unitsNamed: string -> seq<Unit>, findStreet: (string, string) -> Option<Street>)
    requires Imported(fs, |fs|, stands, external, unitsNamed, findStreet)
    ensures BicycleStandObjects(fs, unitsNamed, findStreet) == Ok(Snapshots(stands))
  {
    assert fs[..|fs|] == fs;
  }

  /** Every stand the GML layer and the GeoJSON file yield, kept as `BicycleStandObjects` says. */
  method GetBicycleStandObjects(fs: seq<Feature>, unitsNamed: string -> seq<Unit>,
                                findStreet: (string, string) -> Option<Street>)
    returns (stands: seq<BicycleStand>, ok: bool)
    ensures ok <==> BicycleStandObjects(fs, unitsNamed, findStreet).Ok?
    ensures ok ==> Snapshots(stands) == BicycleStandObjects(fs, unitsNamed, findStreet).value
    ensures forall b | b in stands :: fresh(b)
  {
    stands := [];
    var external: map<string, bool> := map[];
    assert fs[..0] == [];
    for i := 0 to |fs|
      invariant forall b | b in stands :: fresh(b)
      invariant Imported(fs, i, stands, external, unitsNamed, findStreet)
    {
      var done;
      stands, external, done := ImportNext(fs, i, stands, external, unitsNamed, findStreet);
      if !done {
        BicycleStandObjectsFails(fs, i, unitsNamed, findStreet);
        return stands, false;
      }
    }
    ImportedAll(fs, stands, external, unitsNamed, findStreet);
    ok := true;
  }
}
