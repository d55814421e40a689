/** `GDACSXmlDtaCrawler`: from the `<item>` elements of the GDACS RSS feed to
    a GeoJSON FeatureCollection of Point features (sections 3.1.2, 3.2 and 3.3
    of RFC 7946). Fetching and parsing the XML document are not modelled: the
    crawl starts from the sequence of parsed items, in document order. */
module XmlCrawler {
  import opened Wrappers
  import opened GeoJson
  import opened GeoRssPoint
  import opened EventExtraction

  /** The exceptions that escape `get_data`. */
  datatype CrawlError =
    | Extraction(cause: ExtractError)  // raised by `extract_event_information`
    | PointNotText                     // AttributeError: the point value has no `split`
    | NotAFloat(token: string)         // ValueError from `float(token)`
    | NotEnoughValues(count: nat)      // ValueError: fewer than two tokens to unpack
    | TooManyValues                    // ValueError: more than two tokens to unpack
    | NoTitle                          // KeyError: the warning reads `event_dict["Title"]`

  const PointKey := "GeoRSS Point"

  /** `bool(event_dict.get("GeoRSS Point"))`: a missing key, `None` and the
      empty string are false; a non-empty string or a tuple is true. */
  predicate HasPointText(props: Properties) {
    PointKey in props &&
    match props[PointKey]
    case Str(s) => s != []
    case Null => false
    case Tuple1(_) => true
  }

  /** The point string of a property map, or "" when there is none. */
  function PointString(props: Properties): string {
    if PointKey in props && props[PointKey].Str? then props[PointKey].s else ""
  }

  /** `latitude, longitude = map(float, tokens)`. Unpacking draws values from
      the lazy `map` one at a time, converting each as it is drawn, and draws
      a third one to check there is no excess: a bad token among the first
      three is reported before a wrong count. */
  function UnpackCoordinates(tokens: seq<string>): (r: Result<(string, string), CrawlError>)
    ensures r.Ok? <==> |tokens| == 2 && IsFloatText(tokens[0]) && IsFloatText(tokens[1])
    ensures r.Ok? ==> r.value == (tokens[0], tokens[1])
    ensures |tokens| != 2 && (forall i :: 0 <= i < |tokens| && i < 3 ==> IsFloatText(tokens[i])) ==>
              r == (if |tokens| < 2 then Err(NotEnoughValues(|tokens|)) else Err(TooManyValues))
  {
    if |tokens| > 0 && !IsFloatText(tokens[0]) then Err(NotAFloat(tokens[0]))
    else if |tokens| < 2 then Err(NotEnoughValues(|tokens|))
    else if !IsFloatText(tokens[1]) then Err(NotAFloat(tokens[1]))
    else if |tokens| == 2 then Ok((tokens[0], tokens[1]))
    else if !IsFloatText(tokens[2]) then Err(NotAFloat(tokens[2]))
    else Err(TooManyValues)
  }

  /** `create_geojson_feature`: a Point feature when the point text is truthy,
      `None` (after a warning naming the item's title) otherwise. */
  function CreateGeoJsonFeature(props: Properties, featureId: int): (r: Result<Option<Feature>, CrawlError>)
    // no point text: no feature, provided the warning can read the title
    ensures !HasPointText(props) ==> r == (if "Title" in props then Ok(None) else Err(NoTitle))
    // point text present: a feature or an exception, never None
    ensures HasPointText(props) ==> r.Err? || r.value.Some?
    ensures HasPointText(props) ==>
              (r.Ok? <==> props[PointKey].Str? && |Split(PointString(props))| == 2 &&
                          IsFloatText(Split(PointString(props))[0]) && IsFloatText(Split(PointString(props))[1]))
    // an emitted feature: the given id, the properties unchanged, the two tokens swapped
    ensures r.Ok? && r.value.Some? ==>
              && r.value.value.id == featureId
              && r.value.value.properties == props
              && Split(PointString(props)) == [r.value.value.geometry.latitude, r.value.value.geometry.longitude]
  {
    if HasPointText(props) then
      match props[PointKey]
      case Str(s) =>
        var coordinates :- UnpackCoordinates(Split(s));
        var (latitude, longitude) := coordinates;
        Ok(Some(Feature(featureId, props, Point(longitude, latitude))))
      case _ => Err(PointNotText)
    else if "Title" in props then Ok(None)
    else Err(NoTitle)
  }

  /** The feed writes "lat lon"; the feature holds (lon, lat). */
  lemma PointSwap(props: Properties, featureId: int, latitude: string, longitude: string)
    requires IsWord(latitude) && IsWord(longitude)
    requires IsFloatText(latitude) && IsFloatText(longitude)
    requires PointKey in props && props[PointKey] == Str(latitude + " " + longitude)
    ensures CreateGeoJsonFeature(props, featureId) ==
            Ok(Some(Feature(featureId, props, Point(longitude, latitude))))
  {
    SplitPair(latitude, longitude);
  }

  /** Point text made only of whitespace is truthy but has no tokens: it raises. */
  lemma BlankPointRaises(props: Properties, featureId: int)
    requires PointKey in props && props[PointKey].Str? && props[PointKey].s != []
    requires forall i :: 0 <= i < |props[PointKey].s| ==> IsSpace(props[PointKey].s[i])
    ensures CreateGeoJsonFeature(props, featureId) == Err(NotEnoughValues(0))
  {
    SplitBlank(props[PointKey].s);
  }

  /** One `<item>`: extraction, then feature construction with the given id. */
  function FeatureOf(item: Item, featureId: int): (r: Result<Option<Feature>, CrawlError>)
    ensures r.Ok? && r.value.Some? ==>
              ExtractEventInformation(item).Ok? && r.value.value.id == featureId &&
              r.value.value.properties == ExtractEventInformation(item).value
  {
    match ExtractEventInformation(item)
    case Err(e) => Err(Extraction(e))
    case Ok(props) => CreateGeoJsonFeature(props, featureId)
  }

  /** The loop of `get_data` after the given items: the features so far and
      the value of `feature_id_counter`, or the exception that ended it. */
  function CrawlPrefix(items: seq<Item>): (r: Result<(seq<Feature>, int), CrawlError>)
    ensures r.Ok? ==> r.value.1 == |r.value.0| + 1
    ensures r.Ok? ==> forall k :: 0 <= k < |r.value.0| ==> r.value.0[k].id == k + 1
    decreases |items|
  {
    if items == [] then Ok(([], 1))
    else
      var state :- CrawlPrefix(items[..|items| - 1]);
      var feature :- FeatureOf(items[|items| - 1], state.1);
      if feature.Some? then Ok((state.0 + [feature.value], state.1 + 1)) else Ok(state)
  }

  function Crawl(items: seq<Item>): (r: Result<FeatureCollection, CrawlError>)
    ensures r.Ok? <==> CrawlPrefix(items).Ok?
    ensures r.Ok? ==> forall k :: 0 <= k < |r.value.features| ==> r.value.features[k].id == k + 1
  {
    var state :- CrawlPrefix(items);
    Ok(FeatureCollection(state.0))
  }

  /** `get_data`, from the parsed items on. */
  method GetData(items: seq<Item>) returns (r: Result<FeatureCollection, CrawlError>)
    ensures r == Crawl(items)
  {
    var features: seq<Feature> := [];
    var featureIdCounter := 1;
    for i := 0 to |items|
      invariant CrawlPrefix(items[..i]) == Ok((features, featureIdCounter))
    {
      assert items[..i + 1][..i] == items[..i];
      var eventDict := ExtractEventInformation(items[i]);
      if eventDict.Err? {
        CrawlErrorPersists(items, i + 1);
        return Err(Extraction(eventDict.error));
      }
      var feature := CreateGeoJsonFeature(eventDict.value, featureIdCounter);
      if feature.Err? {
        CrawlErrorPersists(items, i + 1);
        return Err(feature.error);
      }
      // a geojson.Feature is a non-empty dict, so `if feature:` means "not None"
      if feature.value.Some? {
        featureIdCounter := featureIdCounter + 1;
        features := features + [feature.value.value];
      }
    }
    assert items[..|items|] == items;
    r := Ok(FeatureCollection(features));
  }

  /** An exception raised by one item ends the crawl: later items change nothing. */
  lemma {:induction false} CrawlErrorPersists(items: seq<Item>, n: nat)
    requires n <= |items| && CrawlPrefix(items[..n]).Err?
    ensures CrawlPrefix(items) == CrawlPrefix(items[..n])
    decreases |items|
  {
    if n < |items| {
      var init := items[..|items| - 1];
      assert init[..n] == items[..n];
      CrawlErrorPersists(init, n);
    } else {
      assert items[..n] == items;
    }
  }

  // ---- what a crawl produces ----

  /** The item yields a feature: it is accepted and its point text is truthy. */
  predicate Emits(item: Item) {
    ExtractEventInformation(item).Ok? && HasPointText(ExtractEventInformation(item).value)
  }

  /** The item raises, whichever id it would be given. */
  predicate Raises(item: Item) {
    FeatureOf(item, 1).Err?
  }

  /** The items that yield a feature, in document order. */
  function PointItems(items: seq<Item>): seq<Item>
    decreases |items|
  {
    if items == [] then []
    else PointItems(items[..|items| - 1]) + (if Emits(items[|items| - 1]) then [items[|items| - 1]] else [])
  }

  /** The id offered to an item does not decide whether it raises, what it
      raises, or whether it yields a feature. */
  lemma FeatureOfIdIndependent(item: Item, a: int, b: int)
    ensures FeatureOf(item, a).Err? <==> FeatureOf(item, b).Err?
    ensures FeatureOf(item, a).Err? ==> FeatureOf(item, a).error == FeatureOf(item, b).error
    ensures FeatureOf(item, a).Ok? ==> (FeatureOf(item, a).value.Some? <==> Emits(item))
  {
  }

  /** A successful crawl: one feature per emitting item, in document order;
      the k-th carries id k + 1, that item's extracted properties, and the
      item's two point tokens swapped; the counter ends one past the last id. */
  lemma {:induction false} CrawlFeatures(items: seq<Item>)
    requires CrawlPrefix(items).Ok?
    ensures var (features, counter) := CrawlPrefix(items).value;
            && counter == |features| + 1
            && |features| == |PointItems(items)|
            && forall k :: 0 <= k < |features| ==>
                 && features[k].id == k + 1
                 && Emits(PointItems(items)[k])
                 && features[k].properties == ExtractEventInformation(PointItems(items)[k]).value
                 && Split(PointString(features[k].properties)) ==
                    [features[k].geometry.latitude, features[k].geometry.longitude]
    decreases |items|
  {
    if items != [] {
      var init, last := items[..|items| - 1], items[|items| - 1];
      CrawlFeatures(init);
      var (features, counter) := CrawlPrefix(init).value;
      FeatureOfIdIndependent(last, counter, counter);
      var f := FeatureOf(last, counter);
      if f.value.Some? {
        assert PointItems(items) == PointItems(init) + [last];
      } else {
        assert PointItems(items) == PointItems(init);
      }
    }
  }

  /** Ids are dense and 1-based: the ids of a crawl's features are 1, 2, ..., n. */
  lemma CrawlIdsDense(items: seq<Item>)
    requires Crawl(items).Ok?
    ensures forall k :: 0 <= k < |Crawl(items).value.features| ==> Crawl(items).value.features[k].id == k + 1
  {
    CrawlFeatures(items);
  }

  /** A crawl raises exactly when one of the items raises. */
  lemma {:induction false} CrawlRaisesIff(items: seq<Item>)
    ensures CrawlPrefix(items).Err? <==> exists i :: 0 <= i < |items| && Raises(items[i])
    decreases |items|
  {
    if items != [] {
      var init, last := items[..|items| - 1], items[|items| - 1];
      CrawlRaisesIff(init);
      assert forall i :: 0 <= i < |init| ==> items[i] == init[i];
      assert items == init + [last];
      if CrawlPrefix(init).Ok? {
        FeatureOfIdIndependent(last, CrawlPrefix(init).value.1, 1);
        assert CrawlPrefix(items).Err? <==> Raises(last);
      } else {
        var i :| 0 <= i < |init| && Raises(init[i]);
        assert Raises(items[i]);
      }
    }
  }

  /** The exception a crawl raises is that of the first item that raises. */
  lemma CrawlFirstError(items: seq<Item>, i: nat)
    requires i < |items| && Raises(items[i])
    requires forall j :: 0 <= j < i ==> !Raises(items[j])
    ensures Crawl(items) == Err(FeatureOf(items[i], 1).error)
  {
    var before := items[..i];
    CrawlRaisesIff(before);
    assert forall j :: 0 <= j < |before| ==> before[j] == items[j];
    assert items[..i + 1][..i] == before;
    FeatureOfIdIndependent(items[i], CrawlPrefix(before).value.1, 1);
    CrawlErrorPersists(items, i + 1);
  }

  /** One item missing a required element aborts the whole crawl; it is not skipped. */
  lemma MissingElementAbortsCrawl(items: seq<Item>, i: nat, path: string)
    requires i < |items| && path in RequiredPaths && path !in items[i]
    ensures Crawl(items).Err?
  {
    MissingRequiredElementRaises(items[i], path);
    CrawlRaisesIff(items);
  }

  /** One accepted item whose point text does not split into exactly two
      tokens aborts the whole crawl. */
  lemma BadPointAbortsCrawl(items: seq<Item>, i: nat)
    requires i < |items| && ExtractEventInformation(items[i]).Ok?
    requires HasPointText(ExtractEventInformation(items[i]).value)
    requires |Split(PointString(ExtractEventInformation(items[i]).value))| != 2
    ensures Crawl(items).Err?
  {
    CrawlRaisesIff(items);
  }

  /** An accepted item without point text adds no feature and consumes no id. */
  lemma SkippedItemConsumesNoId(items: seq<Item>, item: Item)
    requires ExtractEventInformation(item).Ok? && !HasPointText(ExtractEventInformation(item).value)
    ensures CrawlPrefix(items + [item]) == CrawlPrefix(items)
  {
    assert (items + [item])[..|items|] == items;
    ExtractedKeys(item);
    assert EventSteps[0].key == "Title";
  }
}
