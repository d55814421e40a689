/** `DBDataWriter` / `GeoJsonDBDataWriter`: the PostGIS connection URL and the
    decision policy of `write`. The bulk insert itself (`to_postgis`) is a
    foreign call whose outcome is a parameter. */
module Db {
  import opened Wrappers
  import opened GeoJson

  /** Connection settings: `user`, `password`, `host`, `port`, `database`,
      each as the text the f-string renders it to. */
  type ConnectionParams = map<string, string>

  const Scheme := "postgresql://"

  datatype DbError =
    | KeyError(key: string)          // a connection setting is missing
    | SqlAlchemyError(message: string)
    | OtherError(message: string)    // any other exception from the insert

  /** All five settings the URL reads are present. */
  predicate HasUrlSettings(conn: ConnectionParams) {
    "user" in conn && "password" in conn && "host" in conn && "port" in conn && "database" in conn
  }

  function Lookup(conn: ConnectionParams, key: string): Result<string, DbError> {
    if key in conn then Ok(conn[key]) else Err(KeyError(key))
  }

  /** The URL the `engine` property hands to `create_engine`: the five
      settings concatenated as they are, without any escaping. */
  function EngineUrl(conn: ConnectionParams): (r: Result<string, DbError>)
    ensures r.Ok? <==> HasUrlSettings(conn)
    ensures r.Ok? ==> |r.value| >= |Scheme| && r.value[..|Scheme|] == Scheme
    // a missing setting raises KeyError for the first one the f-string reads
    ensures "user" !in conn ==> r == Err(KeyError("user"))
    ensures "user" in conn && "password" !in conn ==> r == Err(KeyError("password"))
    ensures "user" in conn && "password" in conn && "host" !in conn ==> r == Err(KeyError("host"))
    ensures "user" in conn && "password" in conn && "host" in conn && "port" !in conn ==> r == Err(KeyError("port"))
    ensures "user" in conn && "password" in conn && "host" in conn && "port" in conn && "database" !in conn
            ==> r == Err(KeyError("database"))
  {
    var user :- Lookup(conn, "user");
    var password :- Lookup(conn, "password");
    var host :- Lookup(conn, "host");
    var port :- Lookup(conn, "port");
    var database :- Lookup(conn, "database");
    Ok(Scheme + user + ":" + password + "@" + host + ":" + port + "/" + database)
  }

  // ---- a reader for the URL, to state what the concatenation preserves ----

  /** `s` cut at the first `c`: the text before it and the text after it. */
  function SplitAtFirst(s: string, c: char): (r: Option<(string, string)>)
    ensures r.None? <==> c !in s
    ensures r.Some? ==> s == r.value.0 + [c] + r.value.1 && c !in r.value.0
    decreases |s|
  {
    if s == [] then None
    else if s[0] == c then Some(([], s[1..]))
    else
      var rest :- SplitAtFirst(s[1..], c);
      assert s == [s[0]] + s[1..];
      Some(([s[0]] + rest.0, rest.1))
  }

  /** Reads the five settings back from a URL, taking each delimiter at its
      first occurrence. */
  function ParseUrl(url: string): Option<ConnectionParams> {
    if !(|url| >= |Scheme| && url[..|Scheme|] == Scheme) then None
    else
      var u :- SplitAtFirst(url[|Scheme|..], ':');
      var p :- SplitAtFirst(u.1, '@');
      var h :- SplitAtFirst(p.1, ':');
      var q :- SplitAtFirst(h.1, '/');
      Some(map["user" := u.0, "password" := p.0, "host" := h.0, "port" := q.0, "database" := q.1])
  }

  lemma {:induction false} SplitAtFirstConcat(a: string, c: char, b: string)
    requires c !in a
    ensures SplitAtFirst(a + [c] + b, c) == Some((a, b))
    decreases |a|
  {
    if a == [] {
      assert a + [c] + b == [c] + b;
    } else {
      assert (a + [c] + b)[1..] == a[1..] + [c] + b;
      SplitAtFirstConcat(a[1..], c, b);
      assert [a[0]] + a[1..] == a;
    }
  }

  /** The five settings the URL is built from. */
  function UrlSettings(conn: ConnectionParams): ConnectionParams
    requires HasUrlSettings(conn)
  {
    map["user" := conn["user"], "password" := conn["password"], "host" := conn["host"],
        "port" := conn["port"], "database" := conn["database"]]
  }

  /** When no setting contains the delimiter that ends it, the URL determines
      the settings: reading it back gives them unchanged. */
  lemma UrlRoundTrip(conn: ConnectionParams)
    requires HasUrlSettings(conn)
    requires ':' !in conn["user"] && '@' !in conn["password"]
    requires ':' !in conn["host"] && '/' !in conn["port"]
    ensures EngineUrl(conn).Ok? && ParseUrl(EngineUrl(conn).value) == Some(UrlSettings(conn))
  {
    var user, password, host, port, database :=
      conn["user"], conn["password"], conn["host"], conn["port"], conn["database"];
    var url := EngineUrl(conn).value;
    var afterPort := database;
    var afterHost := port + "/" + afterPort;
    var afterPassword := host + ":" + afterHost;
    var afterUser := password + "@" + afterPassword;
    assert url == Scheme + (user + ":" + afterUser);
    assert url[|Scheme|..] == user + [':'] + afterUser;
    SplitAtFirstConcat(user, ':', afterUser);
    SplitAtFirstConcat(password, '@', afterPassword);
    SplitAtFirstConcat(host, ':', afterHost);
    SplitAtFirstConcat(port, '/', afterPort);
  }

  /** Every URL the reader accepts is the URL of the settings it reads. */
  lemma ParsedUrlRebuilds(url: string)
    requires ParseUrl(url).Some?
    ensures EngineUrl(ParseUrl(url).value) == Ok(url)
  {
    var rest := url[|Scheme|..];
    var u := SplitAtFirst(rest, ':').value;
    var p := SplitAtFirst(u.1, '@').value;
    var h := SplitAtFirst(p.1, ':').value;
    var q := SplitAtFirst(h.1, '/').value;
    assert ParseUrl(url).value == map["user" := u.0, "password" := p.0, "host" := h.0, "port" := q.0, "database" := q.1];
    EngineUrlOfSettings(u.0, p.0, h.0, q.0, q.1);
    JoinUrl(url, u.0, u.1, p.0, p.1, h.0, h.1, q.0, q.1);
  }

  lemma EngineUrlOfSettings(user: string, password: string, host: string, port: string, database: string)
    ensures EngineUrl(map["user" := user, "password" := password, "host" := host, "port" := port, "database" := database])
            == Ok(Scheme + user + ":" + password + "@" + host + ":" + port + "/" + database)
  {
    var m := map["user" := user, "password" := password, "host" := host, "port" := port, "database" := database];
    assert m["user"] == user && m["password"] == password && m["host"] == host;
    assert m["port"] == port && m["database"] == database;
  }

  lemma JoinUrl(url: string, user: string, afterUser: string, password: string, afterPassword: string,
                host: string, afterHost: string, port: string, database: string)
    requires |url| >= |Scheme| && url[..|Scheme|] == Scheme
    requires url[|Scheme|..] == user + [':'] + afterUser
    requires afterUser == password + ['@'] + afterPassword
    requires afterPassword == host + [':'] + afterHost
    requires afterHost == port + ['/'] + database
    ensures Scheme + user + ":" + password + "@" + host + ":" + port + "/" + database == url
  {
    assert url == Scheme + url[|Scheme|..];
  }

  /** Without escaping, a password containing '@' makes two different
      settings produce the same URL, so no reader can tell them apart. */
  lemma UrlIsAmbiguous()
    ensures exists a: ConnectionParams, b: ConnectionParams ::
              a != b && EngineUrl(a).Ok? && EngineUrl(a) == EngineUrl(b)
  {
    var a := map["user" := "u", "password" := "p@h", "host" := "x", "port" := "1", "database" := "d"];
    var b := map["user" := "u", "password" := "p", "host" := "h@x", "port" := "1", "database" := "d"];
    assert a["password"] != b["password"];
    assert EngineUrl(a) == Ok(Scheme + "u" + ":" + "p@h" + "@" + "x" + ":" + "1" + "/" + "d");
    assert EngineUrl(b) == Ok(Scheme + "u" + ":" + "p" + "@" + "h@x" + ":" + "1" + "/" + "d");
    assert Scheme + "u" + ":" + "p@h" + "@" + "x" + ":" + "1" + "/" + "d" ==
           Scheme + "u" + ":" + "p" + "@" + "h@x" + ":" + "1" + "/" + "d";
  }

  // ---- write ----

  /** One row of the frame `from_features` builds: a feature's properties
      plus its geometry (the feature id is not a column). */
  datatype Row = Row(properties: Properties, geometry: Point)

  /** A stored row, with the CRS label of the frame it was written from. */
  datatype Record = Record(row: Row, crs: Option<string>)

  function FeatureRows(fc: FeatureCollection): seq<Row> {
    seq(|fc.features|, i requires 0 <= i < |fc.features| => Row(fc.features[i].properties, fc.features[i].geometry))
  }

  function Stamped(rows: seq<Row>, crs: Option<string>): seq<Record> {
    seq(|rows|, i requires 0 <= i < |rows| => Record(rows[i], crs))
  }

  /** `if_exists="append"`: the new records go after the table's existing ones;
      a table that does not exist yet starts empty. */
  function Appended(tables: map<string, seq<Record>>, name: string, records: seq<Record>): (r: map<string, seq<Record>>)
    ensures r.Keys == tables.Keys + {name}
    ensures |r[name]| >= |records| && r[name][|r[name]| - |records|..] == records
  {
    tables[name := (if name in tables then tables[name] else []) + records]
  }

  /** Appending never replaces: the old rows stay, in order, ahead of the new
      ones, and every other table is untouched. */
  lemma AppendKeepsRows(tables: map<string, seq<Record>>, name: string, records: seq<Record>)
    ensures var old_ := if name in tables then tables[name] else [];
            var new_ := Appended(tables, name, records);
            && name in new_ && |new_[name]| == |old_| + |records|
            && new_[name][..|old_|] == old_ && new_[name][|old_|..] == records
            && forall t :: t in tables && t != name ==> t in new_ && new_[t] == tables[t]
  {
    var old_ := if name in tables then tables[name] else [];
    var new_ := Appended(tables, name, records);
    assert new_[name] == old_ + records;
  }

  /** Writing the same collection twice stores every record twice: nothing is
      deduplicated. */
  lemma RepeatedAppendDuplicates(tables: map<string, seq<Record>>, name: string, records: seq<Record>)
    ensures var old_ := if name in tables then tables[name] else [];
            var twice := Appended(Appended(tables, name, records), name, records);
            name in twice && twice[name] == old_ + records + records &&
            |twice[name]| == |old_| + 2 * |records|
  {
  }

  /** What the foreign `to_postgis` call does. */
  datatype InsertOutcome = Inserted | Failed(error: DbError)

  /** The frame built from a feature collection; only its CRS is ever updated. */
  class GeoDataFrame {
    const rows: seq<Row>
    var crs: Option<string>

    /** `GeoDataFrame.from_features`: no CRS until one is assigned. */
    constructor FromFeatures(fc: FeatureCollection)
      ensures rows == FeatureRows(fc) && crs == None
    {
      rows := FeatureRows(fc);
      crs := None;
    }
  }

  /** The tables of the PostGIS store, by name. */
  class PostgisDatabase {
    var tables: map<string, seq<Record>>

    constructor (initial: map<string, seq<Record>>)
      ensures tables == initial
    {
      tables := initial;
    }

    /** `to_postgis(name, con, if_exists="append", index=False)`. */
    method ToPostgis(name: string, frame: GeoDataFrame, outcome: InsertOutcome) returns (r: Result<(), DbError>)
      modifies this
      ensures outcome.Inserted? ==> r.Ok? && tables == Appended(old(tables), name, Stamped(frame.rows, frame.crs))
      ensures outcome.Failed? ==> r == Err(outcome.error) && tables == old(tables)
    {
      if outcome.Inserted? {
        tables := Appended(tables, name, Stamped(frame.rows, frame.crs));
        r := Ok(());
      } else {
        r := Err(outcome.error);
      }
    }
  }

  /** How `write` ends: rows written, an SQLAlchemy error logged and
      swallowed, or an exception raised to the caller. */
  datatype WriteResult = Written | Logged(error: DbError) | Raised(error: DbError)

  class GeoJsonDbDataWriter {
    const dbConnection: ConnectionParams
    const featureCollection: FeatureCollection
    const tableName: string
    const crs: Option<string>

    constructor (dbConnection: ConnectionParams, featureCollection: FeatureCollection,
                 tableName: string, crs: Option<string>)
      ensures this.dbConnection == dbConnection && this.featureCollection == featureCollection
      ensures this.tableName == tableName && this.crs == crs
    {
      this.dbConnection := dbConnection;
      this.featureCollection := featureCollection;
      this.tableName := tableName;
      this.crs := crs;
    }

    /** `write`: stamp the CRS only when one is given, append the rows, and
        swallow an SQLAlchemy error; any other exception escapes. */
    method Write(db: PostgisDatabase, outcome: InsertOutcome) returns (r: WriteResult)
      modifies db
      ensures r.Raised? <==> EngineUrl(dbConnection).Err? || (outcome.Failed? && !outcome.error.SqlAlchemyError?)
      ensures r.Logged? <==> EngineUrl(dbConnection).Ok? && outcome.Failed? && outcome.error.SqlAlchemyError?
      ensures r.Raised? && EngineUrl(dbConnection).Err? ==> r.error == EngineUrl(dbConnection).error
      ensures EngineUrl(dbConnection).Ok? && outcome.Failed? ==> r.error == outcome.error
      ensures r.Written? ==> db.tables == Appended(old(db.tables), tableName, Stamped(FeatureRows(featureCollection), crs))
      ensures !r.Written? ==> db.tables == old(db.tables)
    {
      var gdf := new GeoDataFrame.FromFeatures(featureCollection);
      if crs.Some? {
        gdf.crs := crs;
      }
      // the `engine` property is evaluated for the `con` argument before the insert runs
      var url := EngineUrl(dbConnection);
      if url.Err? {
        return Raised(url.error);
      }
      var inserted := db.ToPostgis(tableName, gdf, outcome);
      if inserted.Err? {
        if inserted.error.SqlAlchemyError? {
          return Logged(inserted.error);
        }
        return Raised(inserted.error);
      }
      // `self.engine.dispose()` builds a second engine from the same settings and disposes that one
      r := Written;
    }
  }
}
