/**
 * The gas-filling-station importer: a `GasFillingStation` object built from
 * one feature of the ArcGIS layer, with its multilingual full address and
 * street address, and the stations kept because they lie inside the
 * boundary of Southwest Finland.
 *
 * Geometry is not modelled: a point is its coordinate pair, and whether it
 * intersects the boundary polygon is a predicate. The street register is a
 * function, as in `ImporterUtils`.
 */
module GasFillingStations {
  import opened Wrappers
  import opened Text
  import opened ImporterUtils

  /** A point of the layer, in its longitude and latitude; its SRID is not modelled. */
  datatype Point = Point(x: real, y: real)

  /**
   * The `attributes` of a feature; a field the feature lacks is `None`.
   */
  datatype Attributes = Attributes(
    lon: Option<real>, lat: Option<real>, stationName: Option<string>, address: Option<string>,
    zipCode: Option<string>, city: Option<string>, operator: Option<string>, lngCng: Option<string>)

  /** `attributes.get(key, "")` for a text field. */
  function TextField(field: Option<string>): string {
    field.GetOr("")
  }

  /** The address of `ADDRESS`, "" when the feature has none. */
  function AddressField(attrs: Attributes): string {
    TextField(attrs.address)
  }

  /** The full address of one language: street, number when there is one, then zip code and city. */
  function FullAddress(street: string, number: string, zipCode: string, city: string): string {
    if number != "" then street + " " + number + ", " + zipCode + " " + city
    else street + ", " + zipCode + " " + city
  }

  /** The street address of one language: street, and the number when there is one. */
  function StreetOnly(street: string, number: string): string {
    if number != "" then street + " " + number else street
  }

  /** The full address is the street address followed by the zip code and the city. */
  lemma FullAddressExtendsStreet(street: string, number: string, zipCode: string, city: string)
    ensures FullAddress(street, number, zipCode, city) == StreetOnly(street, number) + ", " + zipCode + " " + city
  {
  }

  /** The full addresses of the first `|langs|` languages. */
  function FullAddresses(translated: map<string, string>, number: string, zipCode: string, city: string,
                         langs: seq<string>): map<string, string>
    requires forall k :: 0 <= k < |langs| ==> langs[k] in translated
  {
    if langs == [] then map[]
    else
      var lang := langs[|langs| - 1];
      FullAddresses(translated, number, zipCode, city, langs[..|langs| - 1])
        [lang := FullAddress(translated[lang], number, zipCode, city)]
  }

  /** The street addresses of the first `|langs|` languages. */
  function StreetAddresses(translated: map<string, string>, number: string, langs: seq<string>)
    : map<string, string>
    requires forall k :: 0 <= k < |langs| ==> langs[k] in translated
  {
    if langs == [] then map[]
    else
      var lang := langs[|langs| - 1];
      StreetAddresses(translated, number, langs[..|langs| - 1])[lang := StreetOnly(translated[lang], number)]
  }

  /** Filling in one more language. */
  lemma AddressesSnoc(translated: map<string, string>, number: string, zipCode: string, city: string,
                      langs: seq<string>, lang: string)
    requires forall k :: 0 <= k < |langs| ==> langs[k] in translated
    requires lang in translated
    ensures FullAddresses(translated, number, zipCode, city, langs + [lang])
      == FullAddresses(translated, number, zipCode, city, langs)[lang := FullAddress(translated[lang], number, zipCode, city)]
    ensures StreetAddresses(translated, number, langs + [lang])
      == StreetAddresses(translated, number, langs)[lang := StreetOnly(translated[lang], number)]
  {
    assert (langs + [lang])[..|langs|] == langs;
  }

  /** The values of a `GasFillingStation`'s fields. */
  datatype Station = Station(
    address: map<string, string>, streetAddress: map<string, string>, isActive: bool, point: Point,
    name: string, zipCode: string, city: string, operator: string, lngCng: string)

  /** The station of a feature whose `ADDRESS` split into `street` and `number`. */
  function Build(attrs: Attributes, street: string, number: string, translated: map<string, string>): Station
    requires "fi" in translated && "sv" in translated && "en" in translated
  {
    Station(
      FullAddresses(translated, number, TextField(attrs.zipCode), TextField(attrs.city), LANGUAGES),
      StreetAddresses(translated, number, LANGUAGES),
      true,
      Point(attrs.lon.GetOr(0.0), attrs.lat.GetOr(0.0)),
      TextField(attrs.stationName),
      TextField(attrs.zipCode),
      TextField(attrs.city),
      TextField(attrs.operator),
      TextField(attrs.lngCng))
  }

  /**
   * `GasFillingStation(elem)`: the station built from a feature's
   * attributes, or the error `get_street_name_and_number` raises for its
   * `ADDRESS`.
   */
  function StationOf(attrs: Attributes, find: (string, string) -> Option<Street>): (r: Result<Station>)
    ensures r.Err? <==> StreetNameAndNumber(AddressField(attrs)).Err?
  {
    match StreetNameAndNumber(AddressField(attrs))
    case Err(e) => Err(e)
    case Ok((street, number)) =>
      Ok(Build(attrs, street, number, StreetNameTranslations(street, TextField(attrs.city), find)))
  }

  /** Both address maps over fi, sv and en, unrolled. */
  lemma AddressesUnfold(translated: map<string, string>, number: string, zipCode: string, city: string)
    requires "fi" in translated && "sv" in translated && "en" in translated
    ensures FullAddresses(translated, number, zipCode, city, LANGUAGES) == map[
      "fi" := FullAddress(translated["fi"], number, zipCode, city),
      "sv" := FullAddress(translated["sv"], number, zipCode, city),
      "en" := FullAddress(translated["en"], number, zipCode, city)]
    ensures StreetAddresses(translated, number, LANGUAGES) == map[
      "fi" := StreetOnly(translated["fi"], number),
      "sv" := StreetOnly(translated["sv"], number),
      "en" := StreetOnly(translated["en"], number)]
  {
    LanguagePrefixes();
    assert FullAddresses(translated, number, zipCode, city, ["fi"])
      == map["fi" := FullAddress(translated["fi"], number, zipCode, city)];
    assert StreetAddresses(translated, number, ["fi"]) == map["fi" := StreetOnly(translated["fi"], number)];
  }

  /**
   * A station's address maps have exactly the keys fi, sv and en. With a
   * street number, each full address is "street number, zip city" and each
   * street address "street number"; without one, "street, zip city" and
   * "street"; the street is the language's translation of the street name.
   */
  lemma StationAddresses(attrs: Attributes, find: (string, string) -> Option<Street>)
    requires StationOf(attrs, find).Ok?
    ensures var s := StationOf(attrs, find).value;
      var (street, number) := StreetNameAndNumber(AddressField(attrs)).value;
      var translated := StreetNameTranslations(street, TextField(attrs.city), find);
      && s.address.Keys == s.streetAddress.Keys == {"fi", "sv", "en"}
      && forall lang :: lang in LANGUAGES ==>
        && (number != "" ==>
              && s.address[lang] == translated[lang] + " " + number + ", " + s.zipCode + " " + s.city
              && s.streetAddress[lang] == translated[lang] + " " + number)
        && (number == "" ==>
              && s.address[lang] == translated[lang] + ", " + s.zipCode + " " + s.city
              && s.streetAddress[lang] == translated[lang])
        && s.address[lang] == s.streetAddress[lang] + ", " + s.zipCode + " " + s.city
  {
    var (street, number) := StreetNameAndNumber(AddressField(attrs)).value;
    var translated := StreetNameTranslations(street, TextField(attrs.city), find);
    AddressesUnfold(translated, number, TextField(attrs.zipCode), TextField(attrs.city));
  }

  /**
   * The fields other than the addresses: every station is active, a missing
   * coordinate is 0 and a missing text field is "".
   */
  lemma StationDefaults(attrs: Attributes, find: (string, string) -> Option<Street>)
    requires StationOf(attrs, find).Ok?
    ensures var s := StationOf(attrs, find).value;
      && s.isActive
      && (attrs.lon.None? ==> s.point.x == 0.0) && (attrs.lon.Some? ==> s.point.x == attrs.lon.value)
      && (attrs.lat.None? ==> s.point.y == 0.0) && (attrs.lat.Some? ==> s.point.y == attrs.lat.value)
      && (attrs.stationName.None? ==> s.name == "") && (attrs.stationName.Some? ==> s.name == attrs.stationName.value)
      && (attrs.zipCode.None? ==> s.zipCode == "") && (attrs.zipCode.Some? ==> s.zipCode == attrs.zipCode.value)
      && (attrs.city.None? ==> s.city == "") && (attrs.city.Some? ==> s.city == attrs.city.value)
      && (attrs.operator.None? ==> s.operator == "") && (attrs.operator.Some? ==> s.operator == attrs.operator.value)
      && (attrs.lngCng.None? ==> s.lngCng == "") && (attrs.lngCng.Some? ==> s.lngCng == attrs.lngCng.value)
  {
  }

  /** A feature without an `ADDRESS`, or with an empty one, cannot be built. */
  lemma StationWithoutAddress(attrs: Attributes, find: (string, string) -> Option<Street>)
    requires attrs.address.None? || attrs.address == Some("")
    ensures StationOf(attrs, find).Err?
  {
  }

  /**
   * An address "street number" of a street the register does not know is
   * every language's street address as written, and the start of every full
   * address.
   */
  lemma UnregisteredStreetAddress(attrs: Attributes, find: (string, string) -> Option<Street>,
                                  street: string, number: string)
    requires street != [] && !IsSpace(street[|street| - 1]) && forall i :: 0 <= i < |street| ==> !IsDigit(street[i])
    requires number != [] && IsDigit(number[0])
    requires attrs.address == Some(street + " " + number)
    requires find(street, Lower(TextField(attrs.city))).None?
    ensures StationOf(attrs, find).Ok?
    ensures var s := StationOf(attrs, find).value;
      s.address.Keys == s.streetAddress.Keys == {"fi", "sv", "en"} &&
      forall lang :: lang in LANGUAGES ==>
        s.streetAddress[lang] == street + " " + number
        && s.address[lang] == street + " " + number + ", " + s.zipCode + " " + s.city
  {
    assert IsSpace(" "[0]);
    StreetNameAndNumberCompose(street, " ", number);
    StreetNameTranslationsFacts(street, TextField(attrs.city), find);
    StationAddresses(attrs, find);
  }

  /** A station being imported. */
  class GasFillingStation {
    /** The complete address with zip code and city, per language. */
    var address: map<string, string>
    /** Only the street name and number, per language. */
    var streetAddress: map<string, string>
    var isActive: bool
    var point: Point
    var name: string
    var zipCode: string
    var city: string
    var operator: string
    var lngCng: string

    /** The values of the fields. */
    function Snapshot(): Station
      reads this
    {
      Station(address, streetAddress, isActive, point, name, zipCode, city, operator, lngCng)
    }

    /**
     * `__init__` once `ADDRESS` has been split into `street` and `number`:
     * the plain fields from the attributes, then the addresses filled in one
     * language at a time.
     */
    constructor(attrs: Attributes, find: (string, string) -> Option<Street>, street: string, number: string)
      ensures Snapshot() == Build(attrs, street, number, StreetNameTranslations(street, TextField(attrs.city), find))
    {
      address := map[];
      streetAddress := map[];
      isActive := true;
      point := Point(attrs.lon.GetOr(0.0), attrs.lat.GetOr(0.0));
      name := TextField(attrs.stationName);
      zipCode := TextField(attrs.zipCode);
      city := TextField(attrs.city);
      new;
      var translated := GetStreetNameTranslations(street, city, find);
      FillAddresses(translated, number, TextField(attrs.operator));
      lngCng := TextField(attrs.lngCng);
    }

    /** One turn of the language loop: the full and the street address of `lang`. */
    method FillLanguage(translated: map<string, string>, lang: string, number: string)
      requires lang in translated
      modifies this`address, this`streetAddress
      ensures address == old(address)[lang := FullAddress(translated[lang], number, zipCode, city)]
      ensures streetAddress == old(streetAddress)[lang := StreetOnly(translated[lang], number)]
    {
      var full := address;
      var street := streetAddress;
      if number != "" {
        full := full[lang := translated[lang] + " " + number + ", "];
        full := full[lang := full[lang] + zipCode + " " + city];
        street := street[lang := translated[lang] + " " + number];
      } else {
        full := full[lang := translated[lang] + ", "];
        full := full[lang := full[lang] + zipCode + " " + city];
        street := street[lang := translated[lang]];
      }
      address, streetAddress := full, street;
    }

    /**
     * The language loop of `__init__`: each language's full and street
     * address from its translated street name; the loop also sets the
     * operator, every turn to the same value.
     */
    method FillAddresses(translated: map<string, string>, number: string, operatorField: string)
      requires "fi" in translated && "sv" in translated && "en" in translated
      requires address == map[] && streetAddress == map[]
      modifies this`address, this`streetAddress, this`operator
      ensures address == FullAddresses(translated, number, zipCode, city, LANGUAGES)
      ensures streetAddress == StreetAddresses(translated, number, LANGUAGES)
      ensures operator == operatorField
    {
      operator := operatorField;
      for i := 0 to |LANGUAGES|
        invariant address == FullAddresses(translated, number, zipCode, city, LANGUAGES[..i])
        invariant streetAddress == StreetAddresses(translated, number, LANGUAGES[..i])
        invariant operator == operatorField
      {
        var lang := LANGUAGES[i];
        AddressesSnoc(translated, number, zipCode, city, LANGUAGES[..i], lang);
        assert LANGUAGES[..i + 1] == LANGUAGES[..i] + [lang];
        FillLanguage(translated, lang, number);
        operator := operatorField;
      }
      assert LANGUAGES[..|LANGUAGES|] == LANGUAGES;
    }
  }

  /** `GasFillingStation(elem)`: the new station, or the error its address raises. */
  method NewGasFillingStation(attrs: Attributes, find: (string, string) -> Option<Street>)
    returns (r: Result<GasFillingStation>)
    ensures r.Err? <==> StationOf(attrs, find).Err?
    ensures r.Ok? ==> fresh(r.value) && r.value.Snapshot() == StationOf(attrs, find).value
  {
    var split := StreetNameAndNumber(AddressField(attrs));
    if split.Err? {
      return Err(split.error);
    }
    var (street, number) := split.value;
    var station := new GasFillingStation(attrs, find, street, number);
    return Ok(station);
  }

  /** Every element's result in order, or the first error among them. */
  function Collect<A, T>(xs: seq<A>, f: A -> Result<T>): Result<seq<T>> {
    if xs == [] then Ok([])
    else
      var init := Collect(xs[..|xs| - 1], f);
      var last := f(xs[|xs| - 1]);
      if init.Err? then init
      else if last.Err? then Err(last.error)
      else Ok(init.value + [last.value])
  }

  lemma {:induction false} CollectFacts<A, T>(xs: seq<A>, f: A -> Result<T>)
    ensures var r := Collect(xs, f);
      && (r.Ok? <==> forall i :: 0 <= i < |xs| ==> f(xs[i]).Ok?)
      && (r.Ok? ==> (|r.value| == |xs| && forall i :: 0 <= i < |xs| ==> r.value[i] == f(xs[i]).value))
  {
    if xs != [] {
      var init := xs[..|xs| - 1];
      CollectFacts(init, f);
      assert forall i :: 0 <= i < |init| ==> init[i] == xs[i];
    }
  }

  /** The stations of all features, or the first feature's error. */
  function Stations(features: seq<Attributes>, find: (string, string) -> Option<Street>): Result<seq<Station>> {
    Collect(features, attrs => StationOf(attrs, find))
  }

  /** The stations are built exactly when every feature builds, and then they are the features' stations in order. */
  lemma StationsFacts(features: seq<Attributes>, find: (string, string) -> Option<Street>)
    ensures var r := Stations(features, find);
      && (r.Ok? <==> forall i :: 0 <= i < |features| ==> StationOf(features[i], find).Ok?)
      && (r.Ok? ==> (|r.value| == |features|
            && forall i :: 0 <= i < |features| ==> r.value[i] == StationOf(features[i], find).value))
  {
    CollectFacts(features, attrs => StationOf(attrs, find));
  }

  function Inside(stations: seq<Station>, intersects: Point -> bool): (r: seq<Station>)
    ensures |r| <= |stations|
  {
    if stations == [] then [] else
      Inside(stations[..|stations| - 1], intersects)
      + (if intersects(stations[|stations| - 1].point) then [stations[|stations| - 1]] else [])
  }

  /** The stations kept are exactly those of the input whose point intersects the boundary. */
  lemma {:induction false} InsideMembers(stations: seq<Station>, intersects: Point -> bool)
    ensures forall s :: s in Inside(stations, intersects) <==> s in stations && intersects(s.point)
  {
    if stations != [] {
      var init := stations[..|stations| - 1];
      InsideMembers(init, intersects);
      assert stations == init + [stations[|stations| - 1]];
    }
  }

  /** Filtering keeps the order: the stations kept from two runs are those of the first, then those of the second. */
  lemma {:induction false} InsideAppend(xs: seq<Station>, ys: seq<Station>, intersects: Point -> bool)
    ensures Inside(xs + ys, intersects) == Inside(xs, intersects) + Inside(ys, intersects)
    decreases |ys|
  {
    if ys == [] {
      assert xs + ys == xs;
    } else {
      var ys' := ys[..|ys| - 1];
      InsideAppend(xs, ys', intersects);
      assert (xs + ys)[..|xs + ys| - 1] == xs + ys';
    }
  }

  /** Filtering a filtered list changes nothing. */
  lemma {:induction false} InsideIdempotent(stations: seq<Station>, intersects: Point -> bool)
    ensures Inside(Inside(stations, intersects), intersects) == Inside(stations, intersects)
  {
    if stations != [] {
      var init := stations[..|stations| - 1];
      var last := stations[|stations| - 1];
      InsideIdempotent(init, intersects);
      var tail := if intersects(last.point) then [last] else [];
      InsideAppend(Inside(init, intersects), tail, intersects);
      if intersects(last.point) {
        assert Inside(tail, intersects) == Inside([], intersects) + [last];
      }
    }
  }

  /** The fields of the stations, in order. */
  function Snapshots(objects: seq<GasFillingStation>): (r: seq<Station>)
    reads set o | o in objects
    ensures |r| == |objects|
    ensures forall k :: 0 <= k < |objects| ==> r[k] == objects[k].Snapshot()
  {
    if objects == [] then [] else Snapshots(objects[..|objects| - 1]) + [objects[|objects| - 1].Snapshot()]
  }

  /** `[o for o in objects if polygon.intersects(o.point)]`. */
  function FilterByBoundary(objects: seq<GasFillingStation>, intersects: Point -> bool)
    : (r: seq<GasFillingStation>)
    reads set o | o in objects
    ensures forall k :: 0 <= k < |r| ==> r[k] in objects && intersects(r[k].point)
    ensures forall k :: 0 <= k < |objects| && intersects(objects[k].point) ==> objects[k] in r
  {
    if objects == [] then []
    else
      var last := objects[|objects| - 1];
      FilterByBoundary(objects[..|objects| - 1], intersects) + if intersects(last.point) then [last] else []
  }

  /** The stations the filter keeps have the fields of the stations `Inside` keeps. */
  lemma {:induction false} FilterByBoundaryInside(objects: seq<GasFillingStation>, intersects: Point -> bool)
    ensures Snapshots(FilterByBoundary(objects, intersects)) == Inside(Snapshots(objects), intersects)
  {
    if objects != [] {
      var init := objects[..|objects| - 1];
      var last := objects[|objects| - 1];
      var kept := FilterByBoundary(init, intersects);
      FilterByBoundaryInside(init, intersects);
      var snaps := Snapshots(objects);
      assert snaps[..|objects| - 1] == Snapshots(init);
      assert snaps[|objects| - 1] == last.Snapshot() && last.Snapshot().point == last.point;
      if intersects(last.point) {
        var r := kept + [last];
        assert r[..|r| - 1] == kept;
        assert Snapshots(r) == Snapshots(kept) + [last.Snapshot()];
      } else {
        assert FilterByBoundary(objects, intersects) == kept;
      }
    }
  }

  /**
   * `get_filtered_gas_filling_station_objects(json_data)`: a station for
   * every feature, then those inside the boundary, in order; the error of
   * the first feature that cannot be built.
   */
  method GetFilteredGasFillingStationObjects(features: seq<Attributes>, find: (string, string) -> Option<Street>,
                                             intersects: Point -> bool)
    returns (r: Result<seq<GasFillingStation>>)
    ensures r.Ok? <==> Stations(features, find).Ok?
    ensures r.Ok? ==> Snapshots(r.value) == Inside(Stations(features, find).value, intersects)
  {
    StationsFacts(features, find);
    var objects: seq<GasFillingStation> := [];
    for i := 0 to |features|
      invariant |objects| == i
      invariant forall k :: 0 <= k < i ==>
        fresh(objects[k]) && StationOf(features[k], find).Ok? && objects[k].Snapshot() == StationOf(features[k], find).value
    {
      var station := NewGasFillingStation(features[i], find);
      if station.Err? {
        return Err(station.error);
      }
      objects := objects + [station.value];
    }
    assert Snapshots(objects) == Stations(features, find).value;
    FilterByBoundaryInside(objects, intersects);
    return Ok(FilterByBoundary(objects, intersects));
  }
}
