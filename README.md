# GDACS crawler — a Dafny model

This project models the core of a scheduled crawler that harvests disaster
records from GDACS (Global Disaster Alert and Coordination System) and
appends them to PostGIS tables:

- the **XML feed mapping** of `GDACSXmlDtaCrawler`: each RSS `<item>` is
  turned into a flat property map by a fixed list of 33 assignments; the
  GeoRSS `"lat lon"` point text is split into two tokens and swapped into
  the (longitude, latitude) order of section 3.1.1 of RFC 7946; and a loop
  emits one Point Feature (sections 3.1.2 and 3.2 of RFC 7946) per item
  that has point text. Feature ids are dense and 1-based;
- the pure parts of `GDACSGeoJsonDtaCrawler`: the scroll offset, and the
  choice of the newest downloaded `.geojson` file;
- the **configuration loader** `YamlConfigParser` and the view
  `ConfigData` with its `common` and `db_config` lookups;
- the **database writer**: the `postgresql://` URL built by
  `DBDataWriter.engine`, and the policy of `GeoJsonDBDataWriter.write`
  (stamp the CRS only when one is given, append, swallow SQLAlchemy
  errors).

Modules, one per file: `Wrappers` (Option/Result), `OsPath`
(`os.path.join`), `ConfigParser`, `GeoJson` (feature values), `GeoRssPoint`
(`str.split()` and the `float()` literal syntax), `EventExtraction`
(`extract_event_information`), `XmlCrawler` (`create_geojson_feature`,
`get_data`), `GeoJsonCrawler` and `Db`.

How the model represents the source:

- A parsed `<item>` is a map from the XPath each assignment queries to the
  element `find` returns (its text and attributes). A path with no entry is
  one for which `find` returns `None`. The document is the sequence of its
  items in document order.
- Extraction is a fold over the table `EventExtraction.EventSteps`. The
  table has one entry per `event_dict[key] = ...` line, in source order.
  Steps inside the `if severity_elem is not None:` and
  `if population_elem is not None:` blocks are marked as guarded.
- Python exceptions are `Err` values of a `Result`. Each error type names
  the exception the source raises (`AttributeError` on `None.text`,
  `KeyError` on a missing attribute, the `ValueError`s of tuple unpacking
  and of `float()`, and so on).
- `get_data` is a method whose loop mirrors the source. It is proved equal
  to the left fold `XmlCrawler.CrawlPrefix`. The lemmas about the crawl are
  stated on that fold.
- `write` is a method of the class `GeoJsonDbDataWriter`. It creates a
  `GeoDataFrame` object, conditionally updates its `crs` field, and appends
  to a `PostgisDatabase` object. The outcome of the foreign `to_postgis`
  call is a parameter.

Behaviour of the code that the model keeps as written:

- Severity and population are stored as one-element tuples, `(unit,)` and
  `(value,)`, not as strings (src/data_crawler.py:181-190).
- Only an item whose point text is falsy is skipped. A truthy point that
  does not split into two float tokens raises, and that aborts the whole
  crawl (src/data_crawler.py:267-268, 297-301).
- The loader's docstring promises an empty dictionary in case of errors
  (src/configs/config_parser.py:48-49). The code catches only
  `FileNotFoundError` and `yaml.YAMLError` (lines 55-60). Any other error
  while reading the file escapes: another `OSError`, or a
  `UnicodeDecodeError` from the text-mode stream. An empty document loads
  as `None`, and then both views raise.
- `download_geojson`'s docstring says it returns `False` on failure
  (src/data_crawler.py:86-87). The code returns `True` or raises, so the
  branch of `get_data` that returns nothing never runs (lines 89-110,
  118-127).
- `to_postgis` with `if_exists="append"` creates a table that does not
  exist yet (src/db/db.py:90-92). The model treats a missing table as
  empty.

## Model

| member | source | states |
|---|---|---|
| `OsPath.Join` | src/configs/config_parser.py:25 | an absolute file name replaces the folder; otherwise the result is the folder, at most one inserted '/', then the file name |
| `ConfigParser.NewYamlConfigParser` | src/configs/config_parser.py:17-25 | the config path is the folder, then one '/' unless the folder is empty or already ends with '/', then the file name; an absolute file name is the whole path |
| `ConfigParser.YamlConfigParser.GetData` | src/configs/config_parser.py:44-60 | a missing file or a YAML error gives `{}`; a parsed document is returned exactly, `None` included; any other error while reading the file (an `OSError`, or a `UnicodeDecodeError`) raises, and only that |
| `ConfigParser.Get` | src/configs/config_parser.py:87 | `d.get(key, default)`: the stored value when present, the default when absent, `AttributeError` when `d` is not a dict |
| `ConfigParser.ConfigData.Common` | src/configs/config_parser.py:89-97 | the value under "COMMON" when present, `{}` when absent; raises only when the document is not a dict |
| `ConfigParser.ConfigData.DbConfig` | src/configs/config_parser.py:79-87 | `config["DB_CONNECTION"][env]` when both keys are present, `{}` when either is absent; raises exactly when the document or its "DB_CONNECTION" value is not a dict |
| `ConfigParser.FailedLoadGivesEmptyViews` | src/configs/config_parser.py:55-60 | after a missing or malformed file, both views are `{}` |
| `ConfigParser.EmptyDocumentBreaksViews` | src/configs/config_parser.py:52-54 | an empty document loads as `None`, and then both views raise |
| `ConfigParser.ViewsExample` | src/configs/config_parser.py:79-97 | on `{"COMMON": {"x": 1}, "DB_CONNECTION": {"localhost": {"user": "a"}}}`, the views are `{"x": 1}` and `{"user": "a"}` for "localhost", and `{}` for "prod" |
| `GeoRssPoint.Split` | src/data_crawler.py:268 | every token of `str.split()` is non-empty and free of whitespace |
| `GeoRssPoint.SplitKeepsNonSpace` | src/data_crawler.py:268 | the tokens, concatenated, are the text with its whitespace removed |
| `GeoRssPoint.SplitJoinWords` | src/data_crawler.py:268 | splitting words joined by single blanks gives the words back |
| `GeoRssPoint.SplitPair` | src/data_crawler.py:268 | `"lat lon"` splits into exactly `[lat, lon]` |
| `GeoRssPoint.SplitBlank` | src/data_crawler.py:268 | whitespace-only text has no tokens |
| `GeoRssPoint.SplitSpaced` | src/data_crawler.py:268 | the tokens are exactly the maximal runs of non-whitespace: words with any whitespace before them, any non-empty whitespace between them and any whitespace after them split back into exactly those words |
| `GeoRssPoint.SplitDoubleBlank` | src/data_crawler.py:268 | "1  2" splits into the two tokens "1" and "2" |
| `GeoRssPoint.IsFloatText` | src/data_crawler.py:268 | the literal syntax `float()` accepts over ASCII digits: optional sign, then digits with single underscores and an optional fraction and exponent, or "inf", "infinity" or "nan" in any case; `XmlCrawler.UnpackCoordinates` uses it |
| `GeoRssPoint.FloatTextExample` | src/data_crawler.py:268 | "12.5" is a float literal |
| `GeoRssPoint.DecimalCommaRejected` | src/data_crawler.py:268 | the decimal-comma form "12,5" is not a float literal, so such a point raises |
| `EventExtraction.RunStep` | src/data_crawler.py:172-259 | one `event_dict[key] = ...` line: a value is stored only from a present element, a missing element is skipped only inside a guarded block, and anything else raises; `RunStepSpec` gives the exact conditions |
| `EventExtraction.RunStepSpec` | src/data_crawler.py:172-259 | one assignment raises exactly when its element is missing and it is unguarded, or its attribute is missing; otherwise it stores the value it reads |
| `EventExtraction.ExtractSucceedsIff` | src/data_crawler.py:170-261 | a sequence of assignments succeeds exactly when none of them raises |
| `EventExtraction.ExtractFirstError` | src/data_crawler.py:170-261 | a failing extraction raises the exception of the first assignment that raises |
| `EventExtraction.ExtractKeys` | src/data_crawler.py:170-261 | the result's keys are the key of every assignment whose element is present; a skipped guarded block adds none |
| `EventExtraction.ExtractUntouched` | src/data_crawler.py:170-261 | a key that no assignment writes keeps its earlier value |
| `EventExtraction.ExtractLastWrite` | src/data_crawler.py:170-261 | a key that no later assignment rewrites holds the value its assignment read |
| `EventExtraction.EventKeysDistinct` | src/data_crawler.py:172-259 | no two assignments write the same key |
| `EventExtraction.ExtractEventInformation` | src/data_crawler.py:168-261 | `extract_event_information`: every key it writes is one of the mapping's keys; `ExtractEventInformationOkIff`, `ExtractedKeys` and `ExtractedValue` characterise it fully |
| `EventExtraction.ExtractEventInformationOkIff` | src/data_crawler.py:172-259 | an item is accepted exactly when it is well formed: every required element is present (title, description, link, pubDate, guid, every gdacs/dc field, the point, and also severity and population), guid has `isPermaLink`, and severity and population have `unit` and `value` |
| `EventExtraction.MissingRequiredElementRaises` | src/data_crawler.py:172-259 | a missing required element raises; the field is not skipped |
| `EventExtraction.ExtractedKeys` | src/data_crawler.py:170-261 | an accepted item's map has exactly the 33 keys of the mapping |
| `EventExtraction.ExtractedValue` | src/data_crawler.py:172-259 | in an accepted item's map, each key holds the value its own assignment read from the item |
| `EventExtraction.TupleValuedAttributes` | src/data_crawler.py:177-191 | "Severity unit/value" and "Population unit/value" hold one-element tuples of the element's `unit` and `value` attributes |
| `XmlCrawler.UnpackCoordinates` | src/data_crawler.py:268 | unpacking succeeds exactly on two float tokens, kept in order; with valid tokens, a wrong count raises "not enough values" or "too many values" |
| `XmlCrawler.CreateGeoJsonFeature` | src/data_crawler.py:263-280 | falsy point text gives no feature, or `KeyError` when "Title" is missing; truthy point text gives a feature or raises, never `None`; a feature has the given id, the properties unchanged (the point entry included), and the point tokens in swapped order |
| `XmlCrawler.PointSwap` | src/data_crawler.py:267-274 | point text `lat + " " + lon` yields the Point `(lon, lat)` |
| `XmlCrawler.BlankPointRaises` | src/data_crawler.py:267-268 | whitespace-only point text is truthy and raises "not enough values" |
| `XmlCrawler.FeatureOf` | src/data_crawler.py:298-301 | one loop iteration's item: an emitted feature carries the offered id and the item's extracted properties; `FeatureOfIdIndependent` adds that the id decides nothing else |
| `XmlCrawler.CrawlPrefix` | src/data_crawler.py:291-307 | the loop's state after a prefix of the items: the counter is one past the number of features, and the k-th feature has id k + 1 |
| `XmlCrawler.Crawl` | src/data_crawler.py:282-309 | the crawl's result: it succeeds exactly when the loop does, with ids 1..n; `CrawlFeatures` and `CrawlRaisesIff` characterise it fully |
| `XmlCrawler.GetData` | src/data_crawler.py:282-309 | the loop computes exactly the crawl `Crawl(items)`: the same features, or the same exception |
| `XmlCrawler.CrawlErrorPersists` | src/data_crawler.py:297-301 | once an item raises, the later items change nothing: the crawl ends with that exception |
| `XmlCrawler.FeatureOfIdIndependent` | src/data_crawler.py:298-301 | the id offered to an item does not affect whether it raises, what it raises, or whether it yields a feature |
| `XmlCrawler.CrawlFeatures` | src/data_crawler.py:291-307 | a crawl's k-th feature comes from the k-th item with point text, in document order; it has id k + 1 and that item's properties and swapped point; the number of features is the number of such items |
| `XmlCrawler.CrawlIdsDense` | src/data_crawler.py:294-304 | the feature ids are 1, 2, ..., n |
| `XmlCrawler.CrawlRaisesIff` | src/data_crawler.py:297-301 | a crawl raises exactly when some item raises |
| `XmlCrawler.CrawlFirstError` | src/data_crawler.py:297-301 | the exception a crawl raises is that of the first item that raises |
| `XmlCrawler.MissingElementAbortsCrawl` | src/data_crawler.py:297-298 | an item missing a required element aborts the whole crawl |
| `XmlCrawler.BadPointAbortsCrawl` | src/data_crawler.py:297-301 | an item whose point text does not split into two tokens aborts the whole crawl |
| `XmlCrawler.SkippedItemConsumesNoId` | src/data_crawler.py:301-307 | an item without point text adds no feature and leaves the id counter unchanged |
| `GeoJsonCrawler.ScrolledTo` | src/data_crawler.py:80 | `window.scrollTo` clamps the target into the page's scrollable range: an in-range target is kept, below 0 gives 0, past the end gives the maximum |
| `GeoJsonCrawler.ElementOffset` | src/data_crawler.py:75-80 | the element's distance below the top of the viewport after the scroll: never more than its page position, and not negative for an element on the page; `ScrollLeavesElementBelowTop` gives when it is 50 |
| `GeoJsonCrawler.ScrollLeavesElementBelowTop` | src/data_crawler.py:75-80 | after the shifted scroll, the button's container sits 50 pixels below the top of the viewport exactly when the scroll is not clamped (50 <= y <= maxScroll + 50); nearer the top it stays at its own y, nearer the bottom it sits lower than 50 |
| `GeoJsonCrawler.GlobDir` | src/data_crawler.py:121-122 | the directory `glob` joins its matches to is the download directory without trailing '/'s (kept as is when made of '/'s only), and is the download directory itself when that does not end in '/' |
| `GeoJsonCrawler.GlobDirDropsTrailingSlashes` | src/data_crawler.py:121-122 | a directory written "d//" yields the match "d/x.geojson", with one separator |
| `GeoJsonCrawler.MatchesDownloadPattern` | src/data_crawler.py:121-122 | `fnmatch` of "*.geojson" as `glob` applies it: the name ends in ".geojson" and does not start with '.' |
| `GeoJsonCrawler.DownloadPatternExamples` | src/data_crawler.py:121-122 | "events.geojson" and "a.b.geojson" match; ".geojson", a hidden file, "events.GEOJSON" and "events.geojson.part" do not |
| `GeoJsonCrawler.MatchingFrom` | src/data_crawler.py:121-122 | the indices of the matching entries, strictly increasing, and every matching entry among them |
| `GeoJsonCrawler.GeoJsonFiles` | src/data_crawler.py:121-122 | the glob's k-th file is the k-th matching entry in listing order, joined to that directory |
| `GeoJsonCrawler.GeoJsonFilesMembers` | src/data_crawler.py:121-122 | every file comes from a matching entry, and every matching entry yields its file |
| `GeoJsonCrawler.LatestIndex` | src/data_crawler.py:121-124 | `max` by `getctime`: nothing for no files; otherwise a file whose time no file exceeds, and the first such file |
| `GeoJsonCrawler.LatestDownload` | src/data_crawler.py:112-124 | fails exactly when no ".geojson" file exists; otherwise it opens the path of the first matching entry, in listing order, whose ctime no matching entry exceeds |
| `Db.EngineUrl` | src/db/db.py:30-42 | the URL exists exactly when all five settings are present and then starts with "postgresql://"; a missing setting raises `KeyError` for the first one read (user, password, host, port, database) |
| `Db.UrlRoundTrip` | src/db/db.py:38-41 | when no setting contains the delimiter that ends it, the model's first-occurrence reader `ParseUrl` reads the URL back as the five settings (SQLAlchemy's own `make_url`, which percent-decodes and cuts a query, is not modelled) |
| `Db.ParsedUrlRebuilds` | src/db/db.py:38-41 | any URL `ParseUrl` accepts is exactly `user:password@host:port/database` of the settings read back |
| `Db.EngineUrlOfSettings` | src/db/db.py:38-41 | the URL of the five settings is their plain concatenation around ":", "@", ":" and "/" |
| `Db.UrlIsAmbiguous` | src/db/db.py:38-41 | without escaping, two different settings (a password containing '@') give the same URL |
| `Db.Appended` | src/db/db.py:90-92 | `if_exists="append"`: the named table exists afterwards, no other table appears, and it ends with the new rows; `AppendKeepsRows` adds that the old rows come first |
| `Db.AppendKeepsRows` | src/db/db.py:90-92 | an append keeps the old rows, in order, ahead of the new ones, and leaves other tables alone |
| `Db.RepeatedAppendDuplicates` | src/db/db.py:90-92 | appending the same rows twice to a table, existing or not, leaves its old rows followed by the rows twice: nothing is deduplicated |
| `Db.GeoDataFrame.FromFeatures` | src/db/db.py:84 | one row per feature (its properties and geometry), with no CRS |
| `Db.PostgisDatabase.ToPostgis` | src/db/db.py:90-92 | a successful insert appends the frame's rows, stamped with its CRS; a failed one changes nothing |
| `Db.GeoJsonDbDataWriter.constructor` | src/db/db.py:55-74 | keeps the connection settings, collection, table name and optional CRS |
| `Db.GeoJsonDbDataWriter.Write` | src/db/db.py:76-98 | the CRS is stamped only when one is given; the rows are appended; an SQLAlchemy error is logged and `write` returns normally; a missing setting's `KeyError` or any other error escapes; the error logged or escaping is the insert's own; the tables change only on success |

## Left out

- Fetching the feed (`requests.get`) and parsing XML (`ET.fromstring`,
  `findall`, `find` with namespaces) are left out. An item is given as the
  elements `find` returns for each queried path, and the document as its
  items in order.
- The value of `float()` is left out. Coordinates are kept as the token
  text. Only whether `float()` accepts the token is modelled, by its
  literal grammar over ASCII digits. `float()` also accepts non-ASCII
  Unicode digits, and the model does not. The stored geometry is
  `round(float(token), 6)`, since `geojson.Point` rounds each coordinate
  to six decimal places by default; the rounding is not modelled.
- The browser flow of `download_geojson` is left out: navigation, window
  maximising, `time.sleep`, `WebDriverWait`, the click and `driver.quit`.
  These are foreign calls with timing-based synchronisation. So is
  `json.load` of the chosen file. Only the scroll offset and the file
  choice are modelled. The element's y position on the page, the page's
  maximum scroll, the directory listing order and each file's
  `getctime` (on POSIX, the time of its last status change) are inputs.
- `GeoDataFrame.from_features`, `to_postgis`, `create_engine` and
  `dispose` are foreign library calls, and their internals are left out.
  The insert's outcome is a parameter. `dispose()` is called on a second
  engine that the `engine` property builds afresh. It has no effect on the
  model.
- `Db.PostgisDatabase.ToPostgis`: does not model a partial insert before
  a failure. The model assumes a failed insert leaves the table unchanged.
- `OsPath.Join`, `GeoJsonCrawler.GeoJsonFiles`: the model follows POSIX
  path rules (`posixpath`). On Windows, where the Edge and Internet
  Explorer drivers run, `ntpath.join` uses backslashes and drive letters,
  and `glob` matches "*.geojson" case-insensitively, so a file named
  "X.GEOJSON" would also be chosen. A download directory containing `*`,
  `?` or `[` is itself expanded by `glob` as a pattern; the model takes it
  literally.
- `Db.GeoJsonDbDataWriter.Write`: does not model the `crs` setter
  rejecting an invalid CRS label. That error is not an SQLAlchemy error,
  so in the source it escapes `write`. The model accepts any label. Nor
  does it model an empty feature collection: `from_features([])` builds
  a frame without a geometry column, so the CRS assignment or
  `to_postgis` fails with an error that is not an SQLAlchemy error and
  escapes `write`, while the model lets the insert succeed.
- `Db.EngineUrl`: the settings are taken as the text the f-string renders
  them to. `str()` of non-string YAML values (an integer port, say) is not
  modelled.
- YAML documents are modelled with string keys only, and without floats.
  `yaml.safe_load` and file opening are an input: a file system mapping
  each path to its parse outcome.
- Python dicts keep insertion order, which decides the column order of a
  written table. The model's maps are unordered.
- `ConfigData` never modifies the stored document or the environment
  label. This holds by construction, since the model's `ConfigData` is an
  immutable value.
- Logging is left out. This includes the warning in
  `create_geojson_feature` that formats the title with `%d`. The logging
  module handles that formatting error internally, and it does not raise.
- The abstract declarations `DataCrawler.get_data`,
  `ConfigParser.get_data` and `DBDataWriter.write` are left out: their
  bodies are only a docstring. What the base classes do implement is modelled:
  `ConfigParser.__init__` by `ConfigParser.NewYamlConfigParser`, and
  `DBDataWriter.engine` by `Db.EngineUrl`. Each concrete crawler,
  `GDACSGeoJsonDtaCrawler` and `GDACSXmlDtaCrawler`, is its own module.
- src/main.py is not part of this model. It is orchestration: an endless
  loop with `time.sleep(86400)`, webdriver construction by browser name,
  and log-and-continue wrappers.
