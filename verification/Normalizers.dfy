/**
The normalization pipeline of a portal: field mapping, value parsing, vocabulary mapping, derivation
and assembly.

What Python computes on texts (`str`, folding, the order of an object's keys) is an input, and so are
the vocabularies.
*/
module Normalizers {
  import opened Wrappers
  import opened Decimals
  import opened JsonValues
  import opened Tables
  import CycleRefinement
  import Numerals
  import Rules

  datatype Issue = Issue(field: string, message: string, rawValue: Option<string>)

  /** `word` is `strip().casefold()`, `fold` the vocabularies' folding, `keysOf` an object's keys in order. */
  datatype Lexicon = Lexicon(
    str: Json -> string, word: string -> string, fold: string -> string,
    keysOf: map<string, Json> -> seq<string>,
    propertyTypes: map<string, string>, listingTypes: map<string, string>,
    landTypes: map<string, string>, provinces: map<string, string>)

  /** A portal's field map, in its order: raw key, canonical field. */
  type FieldMap = seq<(string, string)>

  datatype Normalization = Normalization(property: Option<Rules.Property>, issues: seq<Issue>) | TypeErrorRaised

  // ----- Step 1: field mapping

  datatype Mapped = Mapped(scalars: map<string, Json>, features: map<string, Json>, media: map<string, Json>)

  const FEATURES_PREFIX := "features."
  const MEDIA_PREFIX := "media."

  function FieldMapped(m: Mapped, field: string, value: Json): Mapped {
    if FEATURES_PREFIX <= field then m.(features := m.features[field[|FEATURES_PREFIX|..] := value])
    else if MEDIA_PREFIX <= field then m.(media := m.media[field[|MEDIA_PREFIX|..] := value])
    else m.(scalars := m.scalars[field := value])
  }

  function FieldsMapped(fieldMap: FieldMap, payload: Payload): Mapped {
    if fieldMap == [] then Mapped(map[], map[], map[])
    else
      var earlier, (key, field) := FieldsMapped(fieldMap[..|fieldMap| - 1], payload), fieldMap[|fieldMap| - 1];
      if key in payload then FieldMapped(earlier, field, payload[key]) else earlier
  }

  // ----- Step 2: value parsing

  /** `dict.get`: an absent key and a null are the same. */
  function Get(m: map<string, Json>, key: string): Option<Json> {
    if key in m && m[key] != JNull then Some(m[key]) else None
  }

  type Parser<!T> = Option<string> -> Option<T>

  function ReadField<T>(lex: Lexicon, parser: Parser<T>, raw: Option<Json>): Option<T> {
    if raw.None? then None else parser(Some(lex.str(raw.value)))
  }

  function ReadIssues<T>(lex: Lexicon, parser: Parser<T>, raw: Option<Json>, field: string): seq<Issue> {
    if raw.Some? && parser(Some(lex.str(raw.value))).None?
    then [Issue(field, "could not parse value", Some(lex.str(raw.value)))] else []
  }

  datatype Values = Values(
    price: Option<Decimal>, area: Option<Decimal>, plotArea: Option<Decimal>,
    rooms: Option<nat>, bathrooms: Option<nat>)

  const MONEY: Parser<Decimal> := text => Numerals.ParseMoney(text)
  const AREA: Parser<Decimal> := text => Numerals.ParseArea(text)
  const COUNT: Parser<nat> := text => Numerals.ParseInt(text)

  function ReadValues(lex: Lexicon, scalars: map<string, Json>): Values {
    Values(ReadField(lex, MONEY, Get(scalars, "price")),
           ReadField(lex, AREA, Get(scalars, "area")),
           ReadField(lex, AREA, Get(scalars, "plot_area")),
           ReadField(lex, COUNT, Get(scalars, "rooms")),
           ReadField(lex, COUNT, Get(scalars, "bathrooms")))
  }

  function ValueIssues(lex: Lexicon, scalars: map<string, Json>): seq<Issue> {
    ReadIssues(lex, MONEY, Get(scalars, "price"), "price")
    + ReadIssues(lex, AREA, Get(scalars, "area"), "area")
    + ReadIssues(lex, AREA, Get(scalars, "plot_area"), "plot_area")
    + ReadIssues(lex, COUNT, Get(scalars, "rooms"), "rooms")
    + ReadIssues(lex, COUNT, Get(scalars, "bathrooms"), "bathrooms")
  }

  // ----- Step 3: vocabulary mapping

  function Translated(lex: Lexicon, vocabulary: map<string, string>, fallback: string, raw: Option<Json>): string {
    if raw.None? then fallback
    else
      var word := lex.fold(lex.str(raw.value));
      if word in vocabulary then vocabulary[word] else fallback
  }

  function ResolveIssues(
    lex: Lexicon, vocabulary: map<string, string>, fallback: string, raw: Option<Json>, field: string): seq<Issue> {
    if raw.Some? && Translated(lex, vocabulary, fallback, raw) == fallback
    then [Issue(field, "unmapped vocabulary", Some(lex.str(raw.value)))] else []
  }

  datatype Kinds = Kinds(propertyType: string, listingType: string, province: string, landType: Option<string>)

  function KindsOf(lex: Lexicon, scalars: map<string, Json>): Kinds {
    var propertyType := Translated(lex, lex.propertyTypes, "OTHER", Get(scalars, "property_type"));
    Kinds(propertyType,
          Translated(lex, lex.listingTypes, "OTHER", Get(scalars, "listing_type")),
          Translated(lex, lex.provinces, "00", Get(scalars, "province")),
          if propertyType == "LAND"
          then Some(Translated(lex, lex.landTypes, "UNKNOWN", Get(scalars, "land_type"))) else None)
  }

  function KindIssues(lex: Lexicon, scalars: map<string, Json>): seq<Issue> {
    ResolveIssues(lex, lex.propertyTypes, "OTHER", Get(scalars, "property_type"), "property_type")
    + ResolveIssues(lex, lex.listingTypes, "OTHER", Get(scalars, "listing_type"), "listing_type")
    + ResolveIssues(lex, lex.provinces, "00", Get(scalars, "province"), "province")
  }

  // ----- Step 4: derivation and assembly

  const TRUE_WORDS: set<string> := {"si", "s\U{ED}", "true", "yes", "1"}
  const FALSE_WORDS: set<string> := {"no", "false", "0"}

  function ParseBool(lex: Lexicon, raw: Option<Json>): Option<bool> {
    match raw
    case None => None
    case Some(JBool(b)) => Some(b)
    case Some(value) =>
      var word := lex.word(lex.str(value));
      if word in TRUE_WORDS then Some(true) else if word in FALSE_WORDS then Some(false) else None
  }

  function Features(lex: Lexicon, raw: map<string, Json>): map<string, bool> {
    map flag | flag in Rules.FEATURE_FLAGS && ParseBool(lex, Get(raw, flag)).Some?
      :: ParseBool(lex, Get(raw, flag)).value
  }

  predicate Truthy(value: Json) {
    match value
    case JNull => false
    case JBool(b) => b
    case JInt(i) => i != 0
    case JStr(s) => s != []
    case JArray(items) => items != []
    case JObject(fields) => fields != map[]
  }

  /** A true value that a for-loop cannot run over. */
  predicate NotIterable(value: Option<Json>) {
    value.Some? && Truthy(value.value) && (value.value.JInt? || value.value.JBool?)
  }

  /** What a for-loop runs over: a text's characters, an array's items, an object's keys; nothing when false. */
  function Elements(lex: Lexicon, value: Option<Json>): seq<Json> {
    match value
    case Some(JStr(s)) => seq(|s|, i requires 0 <= i < |s| => JStr([s[i]]))
    case Some(JArray(items)) => items
    case Some(JObject(fields)) =>
      if fields == map[] then []
      else
        var keys := lex.keysOf(fields);
        seq(|keys|, i requires 0 <= i < |keys| => JStr(keys[i]))
    case _ => []
  }

  predicate IsUrl(value: Json) {
    value.JStr? && ("http://" <= value.s || "https://" <= value.s)
  }

  function Urls(items: seq<Json>): seq<string> {
    if items == [] then []
    else
      var last := items[|items| - 1];
      Urls(items[..|items| - 1]) + if IsUrl(last) then [last.s] else []
  }

  function UrlIssues(lex: Lexicon, items: seq<Json>, field: string): seq<Issue> {
    if items == [] then []
    else
      var last := items[|items| - 1];
      UrlIssues(lex, items[..|items| - 1], field)
      + if IsUrl(last) then [] else [Issue(field, "invalid media URL", Some(lex.str(last)))]
  }

  /** `str(value or "")`. */
  function TextOf(lex: Lexicon, raw: Option<Json>): string {
    if raw.Some? && Truthy(raw.value) then lex.str(raw.value) else ""
  }

  /** What the constructor of a property demands. */
  predicate IsConstructible(p: Rules.Property) {
    && (p.landType.Some? ==> p.propertyType == "LAND")
    && (p.rooms.Some? ==> 0 <= p.rooms.value)
    && (p.bathrooms.Some? ==> 0 <= p.bathrooms.value)
  }

  function Assembled(lex: Lexicon, id: PropertyId, m: Mapped, v: Values, k: Kinds): Rules.Property {
    Rules.Property(
      id, k.listingType, k.propertyType, k.province, None, k.landType, "ACTIVE",
      (if v.price.Some? then Some(Rules.Money(v.price.value, "EUR")) else None), v.area, v.plotArea,
      (if v.rooms.Some? then Some(v.rooms.value as int) else None),
      (if v.bathrooms.Some? then Some(v.bathrooms.value as int) else None), None, None,
      TextOf(lex, Get(m.scalars, "title")), TextOf(lex, Get(m.scalars, "description")), Features(lex, m.features),
      Urls(Elements(lex, Get(m.media, "images"))), Urls(Elements(lex, Get(m.media, "videos"))))
  }

  /** The last step, on top of the issues of the steps before. */
  function Finished(
    lex: Lexicon, id: PropertyId, m: Mapped, v: Values, k: Kinds, issues: seq<Issue>): Normalization
  {
    var images, videos := Get(m.media, "images"), Get(m.media, "videos");
    if NotIterable(images) || NotIterable(videos) then TypeErrorRaised
    else
      var p := Assembled(lex, id, m, v, k);
      var all := issues + UrlIssues(lex, Elements(lex, images), "images")
        + UrlIssues(lex, Elements(lex, videos), "videos");
      if IsConstructible(p) then Normalization(Some(p), all)
      else Normalization(None, all + [Issue("property", "could not construct Property", None)])
  }

  /** The listing that one portal's pipeline makes of a payload under an id. */
  function Normal(lex: Lexicon, fieldMap: FieldMap, id: PropertyId, payload: Payload): Normalization {
    var m := FieldsMapped(fieldMap, payload);
    Finished(lex, id, m, ReadValues(lex, m.scalars), KindsOf(lex, m.scalars),
             ValueIssues(lex, m.scalars) + KindIssues(lex, m.scalars))
  }

  /** The list that the steps share. */
  class IssueLog {
    var issues: seq<Issue>

    constructor ()
      ensures issues == []
    {
      issues := [];
    }
  }

  class BaseNormalizer {
    const lex: Lexicon
    const fieldMap: FieldMap
    const uuid5: string -> PropertyId

    constructor (lex: Lexicon, fieldMap: FieldMap, uuid5: string -> PropertyId)
      ensures this.lex == lex && this.fieldMap == fieldMap && this.uuid5 == uuid5
    {
      this.lex, this.fieldMap, this.uuid5 := lex, fieldMap, uuid5;
    }

    method MapFields(payload: Payload) returns (m: Mapped)
      ensures m == FieldsMapped(fieldMap, payload)
    {
      hide FieldMapped;
      m := Mapped(map[], map[], map[]);
      for i := 0 to |fieldMap|
        invariant m == FieldsMapped(fieldMap[..i], payload)
      {
        assert fieldMap[..i + 1][..i] == fieldMap[..i];
        var (portalKey, canonicalField) := fieldMap[i];
        if portalKey in payload {
          m := FieldMapped(m, canonicalField, payload[portalKey]);
        }
      }
      assert fieldMap[..|fieldMap|] == fieldMap;
    }

    method ParseField<T>(parser: Parser<T>, raw: Option<Json>, field: string, log: IssueLog) returns (value: Option<T>)
      modifies log
      ensures value == ReadField(lex, parser, raw)
      ensures log.issues == old(log.issues) + ReadIssues(lex, parser, raw, field)
    {
      if raw.None? {
        return None;
      }
      var text := lex.str(raw.value);
      value := parser(Some(text));
      if value.None? {
        log.issues := log.issues + [Issue(field, "could not parse value", Some(text))];
      }
    }

    method ParseValues(scalars: map<string, Json>, log: IssueLog) returns (v: Values)
      modifies log
      ensures v == ReadValues(lex, scalars)
      ensures log.issues == old(log.issues) + ValueIssues(lex, scalars)
    {
      hide ReadField, ReadIssues, Get;
      var price := ParseField(MONEY, Get(scalars, "price"), "price", log);
      var area := ParseField(AREA, Get(scalars, "area"), "area", log);
      var plotArea := ParseField(AREA, Get(scalars, "plot_area"), "plot_area", log);
      var rooms := ParseField(COUNT, Get(scalars, "rooms"), "rooms", log);
      var bathrooms := ParseField(COUNT, Get(scalars, "bathrooms"), "bathrooms", log);
      v := Values(price, area, plotArea, rooms, bathrooms);
    }

    method Resolve(
      vocabulary: map<string, string>, fallback: string, loud: bool, raw: Option<Json>, field: string, log: IssueLog)
      returns (value: string)
      modifies log
      ensures value == Translated(lex, vocabulary, fallback, raw)
      ensures log.issues == old(log.issues) + if loud then ResolveIssues(lex, vocabulary, fallback, raw, field) else []
    {
      var text := if raw.Some? then Some(lex.str(raw.value)) else None;
      value := fallback;
      if text.Some? && lex.fold(text.value) in vocabulary {
        value := vocabulary[lex.fold(text.value)];
      }
      if loud && value == fallback && text.Some? {
        log.issues := log.issues + [Issue(field, "unmapped vocabulary", text)];
      }
    }

    method MapVocabulary(scalars: map<string, Json>, log: IssueLog) returns (k: Kinds)
      modifies log
      ensures k == KindsOf(lex, scalars)
      ensures log.issues == old(log.issues) + KindIssues(lex, scalars)
    {
      hide Translated, ResolveIssues, Get;
      var given := Get(scalars, "property_type");
      var propertyType := Resolve(lex.propertyTypes, "OTHER", true, given, "property_type", log);
      var listingType := Resolve(lex.listingTypes, "OTHER", true, Get(scalars, "listing_type"), "listing_type", log);
      var province := Resolve(lex.provinces, "00", true, Get(scalars, "province"), "province", log);
      var landType := None;
      if propertyType == "LAND" {
        var resolved := Resolve(lex.landTypes, "UNKNOWN", false, Get(scalars, "land_type"), "land_type", log);
        landType := Some(resolved);
      }
      k := Kinds(propertyType, listingType, province, landType);
    }

    /** None when the value cannot be iterated. */
    method ValidUrls(value: Option<Json>, field: string, log: IssueLog) returns (urls: Option<seq<string>>)
      modifies log
      ensures urls == if NotIterable(value) then None else Some(Urls(Elements(lex, value)))
      ensures urls.Some? ==> log.issues == old(log.issues) + UrlIssues(lex, Elements(lex, value), field)
    {
      if value.None? || !Truthy(value.value) {
        return Some([]);
      }
      if NotIterable(value) {
        return None;
      }
      var found, items := [], Elements(lex, value);
      hide Elements, IsUrl;
      for i := 0 to |items|
        invariant found == Urls(items[..i])
        invariant log.issues == old(log.issues) + UrlIssues(lex, items[..i], field)
      {
        assert items[..i + 1][..i] == items[..i];
        if IsUrl(items[i]) {
          found := found + [UrlText(items[i])];
        } else {
          log.issues := log.issues + [Issue(field, "invalid media URL", Some(lex.str(items[i])))];
        }
      }
      assert items[..|items|] == items;
      urls := Some(found);
    }

    method Assemble(raw: RawListing, m: Mapped, v: Values, k: Kinds, log: IssueLog) returns (result: Normalization)
      modifies log
      ensures result == Finished(lex, uuid5(raw.portal + [':'] + raw.externalId), m, v, k, old(log.issues))
    {
      hide Urls, UrlIssues, Elements, NotIterable, Features, IsConstructible, TextOf, Get;
      var images := ValidUrls(Get(m.media, "images"), "images", log);
      if images.None? {
        return TypeErrorRaised;
      }
      var videos := ValidUrls(Get(m.media, "videos"), "videos", log);
      if videos.None? {
        return TypeErrorRaised;
      }
      var p := Assembled(lex, uuid5(raw.portal + [':'] + raw.externalId), m, v, k);
      if !IsConstructible(p) {
        log.issues := log.issues + [Issue("property", "could not construct Property", None)];
        return Normalization(None, log.issues);
      }
      result := Normalization(Some(p), log.issues);
    }

    method Normalize(raw: RawListing) returns (result: Normalization)
      ensures result == Normal(lex, fieldMap, uuid5(raw.portal + [':'] + raw.externalId), raw.payload)
    {
      hide FieldsMapped, ReadValues, ValueIssues, KindsOf, KindIssues, Finished;
      var log := new IssueLog();
      var m := MapFields(raw.payload);
      var v := ParseValues(m.scalars, log);
      var k := MapVocabulary(m.scalars, log);
      assert log.issues == ValueIssues(lex, m.scalars) + KindIssues(lex, m.scalars);
      result := Assemble(raw, m, v, k, log);
    }
  }

  function UrlText(value: Json): string
    requires IsUrl(value)
  {
    value.s
  }

  // ----- What the pipeline promises

  /**
  Normalization is total but for one family of payloads: it raises exactly when the images or videos
  are a true value that cannot be iterated, and otherwise never drops a listing.
  */
  lemma NormalizationIsTotal(lex: Lexicon, fieldMap: FieldMap, id: PropertyId, payload: Payload)
    ensures var media, r := FieldsMapped(fieldMap, payload).media, Normal(lex, fieldMap, id, payload);
            && (r.TypeErrorRaised? <==> NotIterable(Get(media, "images")) || NotIterable(Get(media, "videos")))
            && (r.Normalization? ==> r.property.Some? && r.property.value.id == id && IsConstructible(r.property.value))
  {
    hide FieldsMapped, ReadValues, ValueIssues, KindIssues, Urls, UrlIssues, Elements, NotIterable, Features, TextOf,
      Get, Translated;
  }

  /** The canonical fields that must be parsed or looked up, and silently so for the type of land. */
  const CHECKED: seq<string> :=
    ["price", "area", "plot_area", "rooms", "bathrooms", "property_type", "listing_type", "province"]

  /** The property has no value of its own for the field. */
  predicate IsMissing(p: Rules.Property, field: string) {
    match field
    case "price" => p.price.None?
    case "area" => p.area.None?
    case "plot_area" => p.plotArea.None?
    case "rooms" => p.rooms.None?
    case "bathrooms" => p.bathrooms.None?
    case "property_type" => p.propertyType == "OTHER"
    case "listing_type" => p.listingType == "OTHER"
    case _ => p.province == "00"
  }

  predicate Unread(v: Values, field: string) {
    || (field == "price" && v.price.None?)
    || (field == "area" && v.area.None?)
    || (field == "plot_area" && v.plotArea.None?)
    || (field == "rooms" && v.rooms.None?)
    || (field == "bathrooms" && v.bathrooms.None?)
  }

  predicate Unresolved(k: Kinds, field: string) {
    || (field == "property_type" && k.propertyType == "OTHER")
    || (field == "listing_type" && k.listingType == "OTHER")
    || (field == "province" && k.province == "00")
  }

  predicate Reports(issues: seq<Issue>, field: string) {
    exists issue :: issue in issues && issue.field == field
  }

  lemma ReportsConcat(a: seq<Issue>, b: seq<Issue>, field: string)
    ensures Reports(a + b, field) <==> Reports(a, field) || Reports(b, field)
  {
  }

  lemma {:induction false} UrlIssuesName(lex: Lexicon, items: seq<Json>, name: string, field: string)
    requires name != field
    ensures !Reports(UrlIssues(lex, items, name), field)
  {
    if items == [] {
    } else {
      UrlIssuesName(lex, items[..|items| - 1], name, field);
    }
  }

  /** The number fields' own issues. */
  lemma ValueIssuesReport(lex: Lexicon, scalars: map<string, Json>, field: string)
    ensures Reports(ValueIssues(lex, scalars), field) <==>
              || Reports(ReadIssues(lex, MONEY, Get(scalars, "price"), "price"), field)
              || Reports(ReadIssues(lex, AREA, Get(scalars, "area"), "area"), field)
              || Reports(ReadIssues(lex, AREA, Get(scalars, "plot_area"), "plot_area"), field)
              || Reports(ReadIssues(lex, COUNT, Get(scalars, "rooms"), "rooms"), field)
              || Reports(ReadIssues(lex, COUNT, Get(scalars, "bathrooms"), "bathrooms"), field)
  {
    hide Reports, ReadIssues, Get, MONEY, AREA, COUNT;
    var a, b :=
      ReadIssues(lex, MONEY, Get(scalars, "price"), "price"),
      ReadIssues(lex, AREA, Get(scalars, "area"), "area");
    var c, d :=
      ReadIssues(lex, AREA, Get(scalars, "plot_area"), "plot_area"),
      ReadIssues(lex, COUNT, Get(scalars, "rooms"), "rooms");
    var e := ReadIssues(lex, COUNT, Get(scalars, "bathrooms"), "bathrooms");
    ReportsConcat(a, b, field);
    ReportsConcat(a + b, c, field);
    ReportsConcat(a + b + c, d, field);
    ReportsConcat(a + b + c + d, e, field);
  }

  lemma KindIssuesReport(lex: Lexicon, scalars: map<string, Json>, field: string)
    ensures Reports(KindIssues(lex, scalars), field) <==>
              || Reports(ResolveIssues(lex, lex.propertyTypes, "OTHER", Get(scalars, "property_type"), "property_type"),
                         field)
              || Reports(ResolveIssues(lex, lex.listingTypes, "OTHER", Get(scalars, "listing_type"), "listing_type"),
                         field)
              || Reports(ResolveIssues(lex, lex.provinces, "00", Get(scalars, "province"), "province"), field)
  {
    hide Reports, ResolveIssues, Get;
    var a := ResolveIssues(lex, lex.propertyTypes, "OTHER", Get(scalars, "property_type"), "property_type");
    var b := ResolveIssues(lex, lex.listingTypes, "OTHER", Get(scalars, "listing_type"), "listing_type");
    var c := ResolveIssues(lex, lex.provinces, "00", Get(scalars, "province"), "province");
    ReportsConcat(a, b, field);
    ReportsConcat(a + b, c, field);
  }

  lemma ReadIssuesReport<T>(lex: Lexicon, parser: Parser<T>, raw: Option<Json>, name: string, field: string)
    ensures Reports(ReadIssues(lex, parser, raw, name), field)
            <==> name == field && raw.Some? && ReadField(lex, parser, raw).None?
  {
    var issues := ReadIssues(lex, parser, raw, name);
    if issues != [] {
      assert issues[0] in issues;
    }
  }

  lemma ResolveIssuesReport(
    lex: Lexicon, vocabulary: map<string, string>, fallback: string, raw: Option<Json>, name: string, field: string)
    ensures Reports(ResolveIssues(lex, vocabulary, fallback, raw, name), field)
            <==> name == field && raw.Some? && Translated(lex, vocabulary, fallback, raw) == fallback
  {
    hide Translated;
    var issues := ResolveIssues(lex, vocabulary, fallback, raw, name);
    if issues != [] {
      assert issues[0] in issues;
    }
  }

  /** A number field reports an issue exactly when it was given and could not be read. */
  lemma ValuesReport(lex: Lexicon, scalars: map<string, Json>, field: string)
    ensures var v := ReadValues(lex, scalars);
            Reports(ValueIssues(lex, scalars), field) <==> Get(scalars, field).Some? && Unread(v, field)
  {
    hide Reports, ReadIssues, ReadField, ValueIssues, Get, MONEY, AREA, COUNT;
    ValueIssuesReport(lex, scalars, field);
    ReadIssuesReport(lex, MONEY, Get(scalars, "price"), "price", field);
    ReadIssuesReport(lex, AREA, Get(scalars, "area"), "area", field);
    ReadIssuesReport(lex, AREA, Get(scalars, "plot_area"), "plot_area", field);
    ReadIssuesReport(lex, COUNT, Get(scalars, "rooms"), "rooms", field);
    ReadIssuesReport(lex, COUNT, Get(scalars, "bathrooms"), "bathrooms", field);
  }

  lemma KindsReport(lex: Lexicon, scalars: map<string, Json>, field: string)
    ensures var k := KindsOf(lex, scalars);
            Reports(KindIssues(lex, scalars), field) <==> Get(scalars, field).Some? && Unresolved(k, field)
  {
    hide Reports, ResolveIssues, Translated, KindIssues, Get;
    KindIssuesReport(lex, scalars, field);
    ResolveIssuesReport(lex, lex.propertyTypes, "OTHER", Get(scalars, "property_type"), "property_type", field);
    ResolveIssuesReport(lex, lex.listingTypes, "OTHER", Get(scalars, "listing_type"), "listing_type", field);
    ResolveIssuesReport(lex, lex.provinces, "00", Get(scalars, "province"), "province", field);
  }

  /**
  No field is lost silently, and none is reported without reason: a checked field has an issue exactly
  when the portal gave it and the property has no value of its own for it.
  */
  lemma IssuesAreExact(lex: Lexicon, fieldMap: FieldMap, id: PropertyId, payload: Payload, field: string)
    requires field in CHECKED && Normal(lex, fieldMap, id, payload).Normalization?
    ensures var r := Normal(lex, fieldMap, id, payload);
            r.property.Some? && (Reports(r.issues, field) <==>
              Get(FieldsMapped(fieldMap, payload).scalars, field).Some? && IsMissing(r.property.value, field))
  {
    hide FieldsMapped, ReadValues, ValueIssues, KindsOf, KindIssues, Urls, UrlIssues, Elements, NotIterable, Features,
      TextOf, Get, Reports;
    NormalizationIsTotal(lex, fieldMap, id, payload);
    var m := FieldsMapped(fieldMap, payload);
    var a, b := ValueIssues(lex, m.scalars), KindIssues(lex, m.scalars);
    var images, videos := Elements(lex, Get(m.media, "images")), Elements(lex, Get(m.media, "videos"));
    var c, d := UrlIssues(lex, images, "images"), UrlIssues(lex, videos, "videos");
    ReportsConcat(a, b, field);
    ReportsConcat(a + b, c, field);
    ReportsConcat(a + b + c, d, field);
    ValuesReport(lex, m.scalars, field);
    KindsReport(lex, m.scalars, field);
    UrlIssuesName(lex, images, "images", field);
    UrlIssuesName(lex, videos, "videos", field);
  }

  // ----- The type of land

  /** The type of land was given, and the property has the fallback for it. */
  predicate LandTypeIsLost(scalars: map<string, Json>, p: Rules.Property) {
    Get(scalars, "land_type").Some? && p.landType == Some("UNKNOWN")
  }

  /** No payload makes the pipeline report a type of land. */
  lemma LandTypeIsNeverReported(lex: Lexicon, fieldMap: FieldMap, id: PropertyId, payload: Payload)
    requires Normal(lex, fieldMap, id, payload).Normalization?
    ensures var r := Normal(lex, fieldMap, id, payload); r.property.Some? && !Reports(r.issues, "land_type")
  {
    hide FieldsMapped, ReadValues, ValueIssues, KindsOf, KindIssues, Urls, UrlIssues, Elements, NotIterable, Features,
      TextOf, Get, Reports;
    NormalizationIsTotal(lex, fieldMap, id, payload);
    var m := FieldsMapped(fieldMap, payload);
    var a, b := ValueIssues(lex, m.scalars), KindIssues(lex, m.scalars);
    var images, videos := Elements(lex, Get(m.media, "images")), Elements(lex, Get(m.media, "videos"));
    var c, d := UrlIssues(lex, images, "images"), UrlIssues(lex, videos, "videos");
    ReportsConcat(a, b, "land_type");
    ReportsConcat(a + b, c, "land_type");
    ReportsConcat(a + b + c, d, "land_type");
    ValuesReport(lex, m.scalars, "land_type");
    KindsReport(lex, m.scalars, "land_type");
    UrlIssuesName(lex, images, "images", "land_type");
    UrlIssuesName(lex, videos, "videos", "land_type");
  }

  /** What a payload has to look like for its type of land not to get lost. */
  predicate LandIsMapped(lex: Lexicon, scalars: map<string, Json>) {
    || Get(scalars, "land_type").None?
    || Translated(lex, lex.propertyTypes, "OTHER", Get(scalars, "property_type")) != "LAND"
    || Translated(lex, lex.landTypes, "UNKNOWN", Get(scalars, "land_type")) != "UNKNOWN"
  }

  /**
  The documented promise that what cannot be mapped leaves an issue holds for the type of land exactly
  when it is not given, the property is not land, or the text is in the vocabulary.
  */
  lemma LandPromiseIff(lex: Lexicon, fieldMap: FieldMap, id: PropertyId, payload: Payload)
    requires Normal(lex, fieldMap, id, payload).Normalization?
    ensures var r, scalars := Normal(lex, fieldMap, id, payload), FieldsMapped(fieldMap, payload).scalars;
            && r.property.Some?
            && ((LandTypeIsLost(scalars, r.property.value) ==> Reports(r.issues, "land_type"))
                <==> LandIsMapped(lex, scalars))
  {
    LandTypeIsNeverReported(lex, fieldMap, id, payload);
    LandTypeIsAssembled(lex, fieldMap, id, payload);
    hide FieldsMapped, Normal, Reports, Translated, Get;
  }

  lemma LandTypeIsAssembled(lex: Lexicon, fieldMap: FieldMap, id: PropertyId, payload: Payload)
    requires Normal(lex, fieldMap, id, payload).Normalization?
    ensures var p := Normal(lex, fieldMap, id, payload).property;
            p.Some? && p.value.landType == KindsOf(lex, FieldsMapped(fieldMap, payload).scalars).landType
  {
    hide FieldsMapped, ReadValues, ValueIssues, KindsOf, KindIssues, Urls, UrlIssues, Elements, NotIterable, Features,
      TextOf, Get;
    NormalizationIsTotal(lex, fieldMap, id, payload);
  }

  const LAND_FIELDS: FieldMap := [("tipo", "property_type"), ("tipo_suelo", "land_type")]

  /** A swamp on offer: the type of land is lost without an issue. */
  lemma SwampIsLost(lex: Lexicon, id: PropertyId)
    requires forall s :: lex.str(JStr(s)) == s && lex.fold(s) == s
    requires "terreno" in lex.propertyTypes && lex.propertyTypes["terreno"] == "LAND" && "pantano" !in lex.landTypes
    ensures var payload := map["tipo" := JStr("terreno"), "tipo_suelo" := JStr("pantano")];
            var r, scalars := Normal(lex, LAND_FIELDS, id, payload), FieldsMapped(LAND_FIELDS, payload).scalars;
            && r.Normalization? && r.property.Some?
            && LandTypeIsLost(scalars, r.property.value) && !Reports(r.issues, "land_type")
  {
    var payload := map["tipo" := JStr("terreno"), "tipo_suelo" := JStr("pantano")];
    SwampIsMapped(payload);
    NormalizationIsTotal(lex, LAND_FIELDS, id, payload);
    LandPromiseIff(lex, LAND_FIELDS, id, payload);
    hide FieldsMapped, Normal, Reports, LAND_FIELDS;
  }

  lemma SwampIsMapped(payload: Payload)
    requires payload == map["tipo" := JStr("terreno"), "tipo_suelo" := JStr("pantano")]
    ensures FieldsMapped(LAND_FIELDS, payload).media == map[]
    ensures Get(FieldsMapped(LAND_FIELDS, payload).scalars, "property_type") == Some(JStr("terreno"))
    ensures Get(FieldsMapped(LAND_FIELDS, payload).scalars, "land_type") == Some(JStr("pantano"))
  {
    var first := FieldMapped(Mapped(map[], map[], map[]), "property_type", JStr("terreno"));
    assert "property_type"[0] == 'p' && "land_type"[0] == 'l' && FEATURES_PREFIX[0] == 'f' && MEDIA_PREFIX[0] == 'm';
    assert LAND_FIELDS[..1] == [("tipo", "property_type")] && [("tipo", "property_type")][..0] == [];
    assert FieldsMapped([], payload) == Mapped(map[], map[], map[]);
    assert FieldsMapped([("tipo", "property_type")], payload) == first;
    assert FieldsMapped(LAND_FIELDS, payload) == FieldMapped(first, "land_type", JStr("pantano"));
  }

  // ----- Which raw value a field gets

  /** The raw key behind a canonical field: that of the last entry for the field whose key is present. */
  function KeyFor(fieldMap: FieldMap, payload: Payload, field: string): Option<string> {
    if fieldMap == [] then None
    else
      var (key, canonical) := fieldMap[|fieldMap| - 1];
      if key in payload && canonical == field then Some(key) else KeyFor(fieldMap[..|fieldMap| - 1], payload, field)
  }

  lemma {:induction false} LastEntryWins(fieldMap: FieldMap, payload: Payload, field: string)
    requires !(FEATURES_PREFIX <= field) && !(MEDIA_PREFIX <= field)
    ensures var m, key := FieldsMapped(fieldMap, payload), KeyFor(fieldMap, payload, field);
            && (field in m.scalars <==> key.Some?)
            && (key.Some? ==> key.value in payload && m.scalars[field] == payload[key.value])
  {
    if fieldMap == [] {
    } else {
      LastEntryWins(fieldMap[..|fieldMap| - 1], payload, field);
    }
  }

  /** The raw field that the map names for a canonical one holds a text, which `str` leaves alone. */
  predicate Gives(lex: Lexicon, fieldMap: FieldMap, payload: Payload, field: string, text: string) {
    && KeyFor(fieldMap, payload, field).Some?
    && KeyFor(fieldMap, payload, field).value in payload
    && payload[KeyFor(fieldMap, payload, field).value] == JStr(text)
    && lex.str(JStr(text)) == text
  }

  /** A price written the Spanish way, in whatever raw field the map names, is the price of the property. */
  lemma PriceSurvives(
    lex: Lexicon, fieldMap: FieldMap, id: PropertyId, payload: Payload, n: nat, decimals: string, k: nat)
    requires AllDigits(decimals) && k < |Numerals.SUFFIXES|
    requires Gives(lex, fieldMap, payload, "price", Numerals.Written(false, n, decimals, k))
    requires Normal(lex, fieldMap, id, payload).Normalization?
    ensures var p := Normal(lex, fieldMap, id, payload).property;
            p.Some? && p.value.price == Some(Rules.Money(Numerals.NumberOf(false, n, decimals), "EUR"))
  {
    hide *;
    Numerals.MoneyAndAreaRoundTrip(false, n, decimals, k);
    PriceFollowsText(lex, fieldMap, id, payload, Numerals.Written(false, n, decimals, k));
  }

  /** The price is whatever the parser makes of the text that the field map names. */
  lemma PriceFollowsText(lex: Lexicon, fieldMap: FieldMap, id: PropertyId, payload: Payload, text: string)
    requires Gives(lex, fieldMap, payload, "price", text) && Normal(lex, fieldMap, id, payload).Normalization?
    ensures var p, price := Normal(lex, fieldMap, id, payload).property, Numerals.ParseMoney(Some(text));
            p.Some? && p.value.price == if price.Some? then Some(Rules.Money(price.value, "EUR")) else None
  {
    hide FieldsMapped, Normal, ReadValues, Numerals.ParseMoney, Get;
    var scalars := FieldsMapped(fieldMap, payload).scalars;
    LastEntryWins(fieldMap, payload, "price");
    GivenText(scalars, "price", text);
    NumbersAreRead(lex, scalars, text);
    NumbersAreAssembled(lex, fieldMap, id, payload);
  }

  /** So is the area. */
  lemma AreaFollowsText(lex: Lexicon, fieldMap: FieldMap, id: PropertyId, payload: Payload, text: string)
    requires Gives(lex, fieldMap, payload, "area", text) && Normal(lex, fieldMap, id, payload).Normalization?
    ensures var p := Normal(lex, fieldMap, id, payload).property;
            p.Some? && p.value.area == Numerals.ParseArea(Some(text))
  {
    hide FieldsMapped, Normal, ReadValues, Numerals.ParseArea, Get;
    var scalars := FieldsMapped(fieldMap, payload).scalars;
    LastEntryWins(fieldMap, payload, "area");
    GivenText(scalars, "area", text);
    NumbersAreRead(lex, scalars, text);
    NumbersAreAssembled(lex, fieldMap, id, payload);
  }

  lemma GivenText(scalars: map<string, Json>, field: string, text: string)
    requires field in scalars && scalars[field] == JStr(text)
    ensures Get(scalars, field) == Some(JStr(text))
  {
  }

  lemma NumbersAreRead(lex: Lexicon, scalars: map<string, Json>, text: string)
    requires lex.str(JStr(text)) == text
    ensures Get(scalars, "price") == Some(JStr(text)) ==>
              ReadValues(lex, scalars).price == Numerals.ParseMoney(Some(text))
    ensures Get(scalars, "area") == Some(JStr(text)) ==> ReadValues(lex, scalars).area == Numerals.ParseArea(Some(text))
  {
    hide Numerals.ParseMoney, Numerals.ParseArea, Numerals.ParseInt, Get;
  }

  lemma NumbersAreAssembled(lex: Lexicon, fieldMap: FieldMap, id: PropertyId, payload: Payload)
    requires Normal(lex, fieldMap, id, payload).Normalization?
    ensures var p, v :=
              Normal(lex, fieldMap, id, payload).property,
              ReadValues(lex, FieldsMapped(fieldMap, payload).scalars);
            && p.Some?
            && p.value.price == (if v.price.Some? then Some(Rules.Money(v.price.value, "EUR")) else None)
            && p.value.area == v.area
  {
    NormalizationIsTotal(lex, fieldMap, id, payload);
    hide FieldsMapped, ReadValues, ValueIssues, KindsOf, KindIssues, Urls, UrlIssues, Elements, NotIterable, Features,
      TextOf, Get;
  }

  // ----- The normalizers are steady

  /** What the cycle sees of a normalization. */
  function Summary(n: Normalization): Normalized {
    match n
    case Normalization(property, issues) => Normalized(property, |issues|)
    case TypeErrorRaised => NormalizerError
  }

  /** The registry's normalizers are pipelines, each with the lexicon and the field map of its portal. */
  ghost predicate ArePipelines(env: Env, lexOf: string -> Lexicon, fieldMapOf: string -> FieldMap) {
    forall portal, raw {:trigger env.normalizerOf(portal)(raw)} :: env.normalizerOf(portal)(raw)
      == Summary(Normal(lexOf(portal), fieldMapOf(portal), env.uuid5(raw.portal + [':'] + raw.externalId), raw.payload))
  }

  /** What the hash skip asks of the normalizers holds of all that share the pipeline. */
  lemma PipelinesAreSteady(env: Env, lexOf: string -> Lexicon, fieldMapOf: string -> FieldMap)
    requires ArePipelines(env, lexOf, fieldMapOf)
    ensures CycleRefinement.Steady(env)
  {
    hide Normal, FieldsMapped;
    forall raw | CycleRefinement.PropertyFor(env, raw).Some?
      ensures CycleRefinement.PropertyFor(env, raw).value.id == CycleRefinement.IdFor(env, raw.portal, raw.externalId)
    {
      var id := env.uuid5(raw.portal + [':'] + raw.externalId);
      NormalizationIsTotal(lexOf(raw.portal), fieldMapOf(raw.portal), id, raw.payload);
    }
  }

  /** Prices are never negative and areas always positive. */
  lemma PipelinesAreValued(lex: Lexicon, fieldMap: FieldMap, id: PropertyId, payload: Payload)
    requires Normal(lex, fieldMap, id, payload).Normalization? && Normal(lex, fieldMap, id, payload).property.Some?
    ensures Rules.IsValued(Normal(lex, fieldMap, id, payload).property.value)
  {
    hide FieldsMapped, ValueIssues, KindsOf, KindIssues, Urls, UrlIssues, Elements, NotIterable, Features, TextOf,
      Get, Value;
    hide Numerals.Parsed;
    ReadValuesAreValued(lex, FieldsMapped(fieldMap, payload).scalars);
    hide ReadValues;
  }

  lemma ReadValuesAreValued(lex: Lexicon, scalars: map<string, Json>)
    ensures var v := ReadValues(lex, scalars);
            && (v.price.Some? ==> 0.0 <= Value(v.price.value))
            && (v.area.Some? ==> 0.0 < Value(v.area.value))
  {
    hide Value, Get, Numerals.Parsed, Numerals.ParseInt;
  }
}
