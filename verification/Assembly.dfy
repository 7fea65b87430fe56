/**
Which raw value becomes which part of a property: through the whole pipeline, for every field map and
every payload.
*/
module Assembly {
  import opened Wrappers
  import opened JsonValues
  import opened Tables
  import opened Normalizers
  import Numerals
  import Rules

  /** The raw value for a canonical field: that of the last entry for it whose key is present, if not null. */
  function RawOf(fieldMap: FieldMap, payload: Payload, field: string): Option<Json> {
    var key := KeyFor(fieldMap, payload, field);
    if key.Some? && key.value in payload && payload[key.value] != JNull then Some(payload[key.value]) else None
  }

  /** The field is neither a feature nor media. */
  predicate IsPlain(field: string) {
    !(FEATURES_PREFIX <= field) && !(MEDIA_PREFIX <= field)
  }

  lemma ScalarsAreRaw(fieldMap: FieldMap, payload: Payload, field: string)
    requires IsPlain(field)
    ensures Get(FieldsMapped(fieldMap, payload).scalars, field) == RawOf(fieldMap, payload, field)
  {
    hide FieldsMapped, KeyFor;
    LastEntryWins(fieldMap, payload, field);
  }

  lemma {:induction false} LastFeatureWins(fieldMap: FieldMap, payload: Payload, flag: string)
    ensures var m, key := FieldsMapped(fieldMap, payload), KeyFor(fieldMap, payload, FEATURES_PREFIX + flag);
            && (flag in m.features <==> key.Some?)
            && (key.Some? ==> key.value in payload && m.features[flag] == payload[key.value])
  {
    if fieldMap == [] {
    } else {
      LastFeatureWins(fieldMap[..|fieldMap| - 1], payload, flag);
      var canonical := fieldMap[|fieldMap| - 1].1;
      assert (FEATURES_PREFIX + flag)[|FEATURES_PREFIX|..] == flag;
      assert FEATURES_PREFIX <= canonical ==> canonical == FEATURES_PREFIX + canonical[|FEATURES_PREFIX|..];
    }
  }

  lemma {:induction false} LastMediaWins(fieldMap: FieldMap, payload: Payload, name: string)
    ensures var m, key := FieldsMapped(fieldMap, payload), KeyFor(fieldMap, payload, MEDIA_PREFIX + name);
            && (name in m.media <==> key.Some?)
            && (key.Some? ==> key.value in payload && m.media[name] == payload[key.value])
  {
    if fieldMap == [] {
    } else {
      LastMediaWins(fieldMap[..|fieldMap| - 1], payload, name);
      var canonical := fieldMap[|fieldMap| - 1].1;
      assert (MEDIA_PREFIX + name)[|MEDIA_PREFIX|..] == name;
      assert MEDIA_PREFIX <= canonical ==> canonical == MEDIA_PREFIX + canonical[|MEDIA_PREFIX|..];
      assert FEATURES_PREFIX[0] == 'f' && MEDIA_PREFIX[0] == 'm';
    }
  }

  lemma FeaturesAreRaw(fieldMap: FieldMap, payload: Payload, flag: string)
    ensures Get(FieldsMapped(fieldMap, payload).features, flag) == RawOf(fieldMap, payload, "features." + flag)
  {
    hide FieldsMapped, KeyFor;
    LastFeatureWins(fieldMap, payload, flag);
  }

  lemma MediaAreRaw(fieldMap: FieldMap, payload: Payload, name: string)
    ensures Get(FieldsMapped(fieldMap, payload).media, name) == RawOf(fieldMap, payload, "media." + name)
  {
    hide FieldsMapped, KeyFor;
    LastMediaWins(fieldMap, payload, name);
  }

  // ----- The parts of a property

  lemma MadeOf(lex: Lexicon, fieldMap: FieldMap, id: PropertyId, payload: Payload)
    requires Normal(lex, fieldMap, id, payload).Normalization?
    ensures var m, made := FieldsMapped(fieldMap, payload), Normal(lex, fieldMap, id, payload).property;
            made == Some(Assembled(lex, id, m, ReadValues(lex, m.scalars), KindsOf(lex, m.scalars)))
  {
    hide FieldsMapped, ReadValues, ValueIssues, KindIssues, Urls, UrlIssues, Elements, NotIterable, Features, TextOf,
      Get, Translated;
  }

  /** A text, unless it is empty, absent or otherwise false. */
  ghost predicate IsTextOf(lex: Lexicon, text: string, raw: Option<Json>) {
    match raw
    case Some(JStr(s)) => text == if s == "" then "" else lex.str(JStr(s))
    case Some(JInt(0)) => text == ""
    case Some(JBool(b)) => text == if b then lex.str(JBool(true)) else ""
    case Some(JArray(items)) => text == if |items| == 0 then "" else lex.str(JArray(items))
    case Some(JObject(fields)) => text == if |fields| == 0 then "" else lex.str(JObject(fields))
    case Some(JInt(i)) => text == lex.str(JInt(i))
    case _ => text == ""
  }

  lemma TextsAreTexts(lex: Lexicon, raw: Option<Json>)
    ensures IsTextOf(lex, TextOf(lex, raw), raw)
  {
  }

  /** Title and description. */
  lemma TextsFollowPayload(lex: Lexicon, fieldMap: FieldMap, id: PropertyId, payload: Payload)
    requires Normal(lex, fieldMap, id, payload).Normalization?
    ensures var made := Normal(lex, fieldMap, id, payload).property;
            && made.Some? && made.value.id == id
            && IsTextOf(lex, made.value.title, RawOf(fieldMap, payload, "title"))
            && IsTextOf(lex, made.value.description, RawOf(fieldMap, payload, "description"))
  {
    MadeOf(lex, fieldMap, id, payload);
    PlainNames();
    ScalarsAreRaw(fieldMap, payload, "title");
    ScalarsAreRaw(fieldMap, payload, "description");
    hide Normal, FieldsMapped, RawOf, ReadValues, KindsOf, Features, Urls, Elements, Get, TextOf, IsTextOf, IsPlain;
    TextsAreTexts(lex, RawOf(fieldMap, payload, "title"));
    TextsAreTexts(lex, RawOf(fieldMap, payload, "description"));
  }

  lemma PlainNames()
    ensures IsPlain("title") && IsPlain("description") && IsPlain("price") && IsPlain("area") && IsPlain("plot_area")
    ensures IsPlain("rooms") && IsPlain("bathrooms")
    ensures IsPlain("property_type") && IsPlain("listing_type") && IsPlain("land_type") && IsPlain("province")
  {
    assert FEATURES_PREFIX[0] == 'f' && MEDIA_PREFIX[0] == 'm';
  }

  /** The number that a parser reads in the text of a raw value. */
  function NumberIn<T>(lex: Lexicon, parser: Option<string> -> Option<T>, raw: Option<Json>): Option<T> {
    match raw case None => None case Some(value) => parser(Some(lex.str(value)))
  }

  /** Price, in euros, and areas. */
  lemma NumbersFollowPayload(lex: Lexicon, fieldMap: FieldMap, id: PropertyId, payload: Payload)
    requires Normal(lex, fieldMap, id, payload).Normalization?
    ensures var made := Normal(lex, fieldMap, id, payload).property;
            && made.Some?
            && made.value.price
               == (var amount := NumberIn(lex, t => Numerals.ParseMoney(t), RawOf(fieldMap, payload, "price"));
                   if amount.Some? then Some(Rules.Money(amount.value, "EUR")) else None)
            && made.value.area == NumberIn(lex, t => Numerals.ParseArea(t), RawOf(fieldMap, payload, "area"))
            && made.value.plotArea == NumberIn(lex, t => Numerals.ParseArea(t), RawOf(fieldMap, payload, "plot_area"))
  {
    MadeOf(lex, fieldMap, id, payload);
    PlainNames();
    ScalarsAreRaw(fieldMap, payload, "price");
    ScalarsAreRaw(fieldMap, payload, "area");
    ScalarsAreRaw(fieldMap, payload, "plot_area");
    hide Normal, FieldsMapped, RawOf, KindsOf, Features, Urls, Elements, Get, TextOf, IsPlain, Numerals.ParseMoney,
      Numerals.ParseArea, Numerals.ParseInt;
  }

  /** Rooms and bathrooms. */
  lemma CountsFollowPayload(lex: Lexicon, fieldMap: FieldMap, id: PropertyId, payload: Payload)
    requires Normal(lex, fieldMap, id, payload).Normalization?
    ensures var made := Normal(lex, fieldMap, id, payload).property;
            && made.Some?
            && IsCount(made.value.rooms, NumberIn(lex, t => Numerals.ParseInt(t), RawOf(fieldMap, payload, "rooms")))
            && IsCount(made.value.bathrooms,
                       NumberIn(lex, t => Numerals.ParseInt(t), RawOf(fieldMap, payload, "bathrooms")))
  {
    MadeOf(lex, fieldMap, id, payload);
    PlainNames();
    ScalarsAreRaw(fieldMap, payload, "rooms");
    ScalarsAreRaw(fieldMap, payload, "bathrooms");
    hide Normal, FieldsMapped, RawOf, KindsOf, Features, Urls, Elements, Get, TextOf, IsPlain, Numerals.ParseMoney,
      Numerals.ParseArea, Numerals.ParseInt;
  }

  predicate IsCount(count: Option<int>, read: Option<nat>) {
    (count.None? && read.None?) || (count.Some? && read.Some? && count.value == read.value)
  }

  /** What a vocabulary has for the folded text of a raw value, or the fallback. */
  ghost predicate IsWordFor(
    lex: Lexicon, word: string, vocabulary: map<string, string>, fallback: string, raw: Option<Json>) {
    if raw.Some? && lex.fold(lex.str(raw.value)) in vocabulary
    then word == vocabulary[lex.fold(lex.str(raw.value))] else word == fallback
  }

  lemma WordsAreTranslated(lex: Lexicon, vocabulary: map<string, string>, fallback: string, raw: Option<Json>)
    ensures IsWordFor(lex, Translated(lex, vocabulary, fallback, raw), vocabulary, fallback, raw)
  {
  }

  /** The kinds of property, offer and land, and the place. */
  lemma KindsFollowPayload(lex: Lexicon, fieldMap: FieldMap, id: PropertyId, payload: Payload)
    requires Normal(lex, fieldMap, id, payload).Normalization?
    ensures var made := Normal(lex, fieldMap, id, payload).property;
            && made.Some?
            && IsWordFor(lex, made.value.propertyType, lex.propertyTypes, "OTHER",
                         RawOf(fieldMap, payload, "property_type"))
            && IsWordFor(lex, made.value.listingType, lex.listingTypes, "OTHER",
                         RawOf(fieldMap, payload, "listing_type"))
            && IsWordFor(lex, made.value.province, lex.provinces, "00", RawOf(fieldMap, payload, "province"))
            && (made.value.landType.Some? <==> made.value.propertyType == "LAND")
            && (made.value.landType.Some? ==>
                  IsWordFor(lex, made.value.landType.value, lex.landTypes, "UNKNOWN",
                            RawOf(fieldMap, payload, "land_type")))
            && made.value.status == "ACTIVE"
            && made.value.municipality.None? && made.value.postalCode.None? && made.value.district.None?
  {
    MadeOf(lex, fieldMap, id, payload);
    PlainNames();
    ScalarsAreRaw(fieldMap, payload, "property_type");
    ScalarsAreRaw(fieldMap, payload, "listing_type");
    ScalarsAreRaw(fieldMap, payload, "province");
    ScalarsAreRaw(fieldMap, payload, "land_type");
    hide Normal, FieldsMapped, RawOf, ReadValues, Features, Urls, Elements, Get, TextOf, Translated, IsWordFor, IsPlain;
    WordsAreTranslated(lex, lex.propertyTypes, "OTHER", RawOf(fieldMap, payload, "property_type"));
    WordsAreTranslated(lex, lex.listingTypes, "OTHER", RawOf(fieldMap, payload, "listing_type"));
    WordsAreTranslated(lex, lex.provinces, "00", RawOf(fieldMap, payload, "province"));
    WordsAreTranslated(lex, lex.landTypes, "UNKNOWN", RawOf(fieldMap, payload, "land_type"));
  }

  // ----- Flags

  /** A portal's yes: the value true, or a word for it. */
  ghost predicate SaysYes(lex: Lexicon, raw: Option<Json>) {
    raw.Some? && if raw.value.JBool? then raw.value.b
                 else lex.word(lex.str(raw.value)) in ["si", "s\U{ED}", "true", "yes", "1"]
  }

  ghost predicate SaysNo(lex: Lexicon, raw: Option<Json>) {
    raw.Some? && if raw.value.JBool? then !raw.value.b else lex.word(lex.str(raw.value)) in ["no", "false", "0"]
  }

  lemma YesAndNo(lex: Lexicon, raw: Option<Json>)
    ensures ParseBool(lex, raw) == Some(true) <==> SaysYes(lex, raw)
    ensures ParseBool(lex, raw) == Some(false) <==> SaysNo(lex, raw)
  {
    if raw.Some? && !raw.value.JBool? {
      var word := lex.word(lex.str(raw.value));
      assert word in TRUE_WORDS <==> word in ["si", "s\U{ED}", "true", "yes", "1"];
      assert word in FALSE_WORDS <==> word in ["no", "false", "0"];
    }
  }

  /** A flag is what the portal says about it, and absent when it says neither. */
  lemma FlagsFollowPayload(lex: Lexicon, fieldMap: FieldMap, id: PropertyId, payload: Payload, flag: string)
    requires Normal(lex, fieldMap, id, payload).Normalization?
    ensures var made, raw := Normal(lex, fieldMap, id, payload).property, RawOf(fieldMap, payload, "features." + flag);
            && made.Some?
            && (flag in made.value.features <==>
                  flag in Rules.FEATURE_FLAGS && (SaysYes(lex, raw) || SaysNo(lex, raw)))
            && (flag in made.value.features ==> (made.value.features[flag] <==> SaysYes(lex, raw)))
  {
    MadeOf(lex, fieldMap, id, payload);
    FeaturesAreRaw(fieldMap, payload, flag);
    hide Normal, FieldsMapped, RawOf, ReadValues, KindsOf, Urls, Elements, Get, TextOf, Rules.FEATURE_FLAGS, ParseBool,
      SaysYes, SaysNo;
    YesAndNo(lex, RawOf(fieldMap, payload, "features." + flag));
  }

  // ----- Media

  predicate IsWebAddress(item: Json) {
    item.JStr? && ((|item.s| >= 7 && item.s[..7] == "http://") || (|item.s| >= 8 && item.s[..8] == "https://"))
  }

  /** The web addresses among some items, in order. */
  lemma {:induction false} UrlsAreTheWebAddresses(items: seq<Json>, more: seq<Json>)
    ensures Urls(items + more) == Urls(items) + Urls(more)
    ensures forall item :: Urls([item]) == if IsWebAddress(item) then [item.s] else []
  {
    forall item
      ensures Urls([item]) == if IsWebAddress(item) then [item.s] else []
    {
      assert [item][..0] == [];
    }
    if more == [] {
      assert items + more == items;
    } else {
      hide IsUrl;
      var n := |more| - 1;
      assert (items + more)[..|items + more| - 1] == items + more[..n];
      UrlsAreTheWebAddresses(items, more[..n]);
    }
  }

  lemma MediaNames()
    ensures "media." + "images" == "media.images" && "media." + "videos" == "media.videos"
  {
  }

  /** A true number or the value true cannot be iterated; everything else can, or counts as nothing. */
  lemma WhatCannotBeIterated(value: Option<Json>)
    ensures NotIterable(value) <==> value == Some(JBool(true)) || exists i :: i != 0 && value == Some(JInt(i))
  {
  }

  /** What is iterated: the items of an array, the characters of a text, the keys of an object. */
  lemma WhatIsIterated(lex: Lexicon, value: Option<Json>)
    ensures match value
            case Some(JArray(items)) => Elements(lex, value) == items
            case Some(JStr(s)) =>
              |Elements(lex, value)| == |s| && forall i :: 0 <= i < |s| ==> Elements(lex, value)[i] == JStr(s[i..i + 1])
            case Some(JObject(fields)) =>
              if fields == map[] then Elements(lex, value) == []
              else && |Elements(lex, value)| == |lex.keysOf(fields)|
                   && forall i :: 0 <= i < |lex.keysOf(fields)| ==>
                        Elements(lex, value)[i] == JStr(lex.keysOf(fields)[i])
            case _ => Elements(lex, value) == []
  {
  }

  /** Every other item leaves an issue with its text, in order. */
  lemma {:induction false} OtherItemsAreIssues(lex: Lexicon, items: seq<Json>, more: seq<Json>, field: string)
    ensures UrlIssues(lex, items + more, field) == UrlIssues(lex, items, field) + UrlIssues(lex, more, field)
    ensures forall item :: UrlIssues(lex, [item], field)
              == if IsWebAddress(item) then [] else [Issue(field, "invalid media URL", Some(lex.str(item)))]
  {
    forall item
      ensures UrlIssues(lex, [item], field)
              == if IsWebAddress(item) then [] else [Issue(field, "invalid media URL", Some(lex.str(item)))]
    {
      assert [item][..0] == [];
    }
    if more == [] {
      assert items + more == items;
    } else {
      hide IsUrl;
      var n := |more| - 1;
      assert (items + more)[..|items + more| - 1] == items + more[..n];
      OtherItemsAreIssues(lex, items, more[..n], field);
    }
  }

  /** The issues of a normalization are those of the numbers, of the kinds, and of the media. */
  lemma IssuesFollowPayload(lex: Lexicon, fieldMap: FieldMap, id: PropertyId, payload: Payload)
    requires Normal(lex, fieldMap, id, payload).Normalization?
    ensures var scalars := FieldsMapped(fieldMap, payload).scalars;
            Normal(lex, fieldMap, id, payload).issues
            == ValueIssues(lex, scalars) + KindIssues(lex, scalars)
               + UrlIssues(lex, Elements(lex, RawOf(fieldMap, payload, "media.images")), "images")
               + UrlIssues(lex, Elements(lex, RawOf(fieldMap, payload, "media.videos")), "videos")
  {
    MediaNames();
    NormalizationIsTotal(lex, fieldMap, id, payload);
    MediaAreRaw(fieldMap, payload, "images");
    MediaAreRaw(fieldMap, payload, "videos");
    hide FieldsMapped, RawOf, ReadValues, KindsOf, ValueIssues, KindIssues, Urls, UrlIssues, Elements, Get, TextOf,
      Features, NotIterable;
  }

  /** An issue about a number or a kind tells the text that the portal gave. */
  lemma IssuesTellTheText(lex: Lexicon, scalars: map<string, Json>, issue: Issue)
    requires issue in ValueIssues(lex, scalars) + KindIssues(lex, scalars)
    ensures Get(scalars, issue.field).Some? && issue.rawValue == Some(lex.str(Get(scalars, issue.field).value))
  {
    hide Get, ValueIssues, KindIssues;
    if issue in ValueIssues(lex, scalars) {
      ValueIssuesTell(lex, scalars, issue);
    } else {
      KindIssuesTell(lex, scalars, issue);
    }
  }

  lemma ValueIssuesTell(lex: Lexicon, scalars: map<string, Json>, issue: Issue)
    requires issue in ValueIssues(lex, scalars)
    ensures Get(scalars, issue.field).Some? && issue.rawValue == Some(lex.str(Get(scalars, issue.field).value))
  {
    hide Get, MONEY, AREA, COUNT;
  }

  lemma KindIssuesTell(lex: Lexicon, scalars: map<string, Json>, issue: Issue)
    requires issue in KindIssues(lex, scalars)
    ensures Get(scalars, issue.field).Some? && issue.rawValue == Some(lex.str(Get(scalars, issue.field).value))
  {
    hide Get, Translated;
  }

  /** Images and videos. */
  lemma MediaFollowPayload(lex: Lexicon, fieldMap: FieldMap, id: PropertyId, payload: Payload)
    requires Normal(lex, fieldMap, id, payload).Normalization?
    ensures var made := Normal(lex, fieldMap, id, payload).property;
            && made.Some?
            && made.value.images == Urls(Elements(lex, RawOf(fieldMap, payload, "media.images")))
            && made.value.videos == Urls(Elements(lex, RawOf(fieldMap, payload, "media.videos")))
  {
    MediaNames();
    MadeOf(lex, fieldMap, id, payload);
    MediaAreRaw(fieldMap, payload, "images");
    MediaAreRaw(fieldMap, payload, "videos");
    hide Normal, FieldsMapped, RawOf, ReadValues, KindsOf, Urls, Elements, Get, TextOf, Features;
  }
}
