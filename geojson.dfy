/** The GeoJSON values the crawler emits (sections 3.1.1, 3.1.2, 3.2 and 3.3
    of RFC 7946), with the property values the GDACS mapping produces. */
module GeoJson {

  /** A property value: a string, Python's `None` (an element without text),
      or a one-element tuple `(s,)` (the severity and population attributes). */
  datatype PropValue = Str(s: string) | Null | Tuple1(item: string)

  type Properties = map<string, PropValue>

  /** A Point geometry. The position is stored longitude first, as section
      3.1.1 of RFC 7946 orders it; each coordinate is the feed's token text.
      The source stores `round(float(token), 6)`: `geojson.Point` rounds each
      coordinate to six decimal places by default. */
  datatype Point = Point(longitude: string, latitude: string)

  datatype Feature = Feature(id: int, properties: Properties, geometry: Point)

  datatype FeatureCollection = FeatureCollection(features: seq<Feature>)
}
