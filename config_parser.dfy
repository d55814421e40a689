/** The configuration loader (`YamlConfigParser`) and the two read-only views
    over the loaded document (`ConfigData.common`, `ConfigData.db_config`). */
module ConfigParser {
  import opened Wrappers
  import OsPath

  /** A YAML document as `yaml.safe_load` returns it, restricted to string keys. */
  datatype Value =
    | Null
    | Bool(b: bool)
    | Int(i: int)
    | Str(s: string)
    | List(items: seq<Value>)
    | Dict(entries: map<string, Value>)

  const EmptyDict: Value := Dict(map[])

  /** What opening and parsing a path yields. A path absent from the file
      system raises `FileNotFoundError`. */
  datatype FileState =
    | Yaml(document: Value)     // `safe_load` succeeded (an empty file gives `Null`)
    | Malformed                 // `safe_load` raised a `yaml.YAMLError`
    | Unreadable(reason: string) // opening or reading raised something else: an `OSError` other
                                 // than `FileNotFoundError` (permissions, a directory, ...), or a
                                 // `UnicodeDecodeError` from decoding the text-mode stream

  type FileSystem = map<string, FileState>

  /** Exceptions that escape the loader or the views. */
  datatype ConfigError =
    | ReadError(path: string, reason: string) // the `OSError` or `UnicodeDecodeError` `get_data` does not catch
    | AttributeError(key: string)              // `.get` called on something that is not a dict

  datatype YamlConfigParser = YamlConfigParser(configPath: string) {

    /** `get_data`: the parsed document, or `{}` when the file is missing or
        does not parse; any other error while reading the file propagates. */
    function GetData(files: FileSystem): (r: Result<Value, ConfigError>)
      ensures configPath !in files ==> r == Ok(EmptyDict)
      ensures configPath in files && files[configPath].Malformed? ==> r == Ok(EmptyDict)
      ensures configPath in files && files[configPath].Yaml? ==> r == Ok(files[configPath].document)
      ensures r.Err? <==> configPath in files && files[configPath].Unreadable?
      ensures r.Err? ==> r.error == ReadError(configPath, files[configPath].reason)
    {
      if configPath !in files then Ok(EmptyDict)
      else match files[configPath]
        case Yaml(document) => Ok(document)
        case Malformed => Ok(EmptyDict)
        case Unreadable(reason) => Err(ReadError(configPath, reason))
    }
  }

  /** `ConfigParser.__init__`: the configuration path is the folder joined with the file name. */
  function NewYamlConfigParser(folder: string, fileName: string): (p: YamlConfigParser)
    ensures !(|fileName| > 0 && fileName[0] == '/') ==>
              |p.configPath| >= |folder| + |fileName| &&
              p.configPath[..|folder|] == folder &&
              p.configPath[|p.configPath| - |fileName|..] == fileName &&
              |p.configPath| - |folder| - |fileName| == (if folder == [] || folder[|folder| - 1] == '/' then 0 else 1)
    ensures !(|fileName| > 0 && fileName[0] == '/') && folder != [] && folder[|folder| - 1] != '/' ==>
              p.configPath[|folder|] == '/'
    ensures |fileName| > 0 && fileName[0] == '/' ==> p.configPath == fileName
  {
    YamlConfigParser(OsPath.Join(folder, fileName))
  }

  /** Python's `d.get(key, default)` where `d` may not be a dict at all. */
  function Get(d: Value, key: string, default: Value): (r: Result<Value, ConfigError>)
    ensures r.Err? <==> !d.Dict?
    ensures d.Dict? && key in d.entries ==> r == Ok(d.entries[key])
    ensures d.Dict? && key !in d.entries ==> r == Ok(default)
  {
    if !d.Dict? then Err(AttributeError(key))
    else if key in d.entries then Ok(d.entries[key])
    else Ok(default)
  }

  /** `ConfigData`: the loaded document and the environment label, both fixed at construction. */
  datatype ConfigData = ConfigData(configData: Value, envVar: string) {

    /** `common`: the mapping under "COMMON", or `{}` when that key is absent. */
    function Common(): (r: Result<Value, ConfigError>)
      ensures configData.Dict? && "COMMON" in configData.entries ==> r == Ok(configData.entries["COMMON"])
      ensures configData.Dict? && "COMMON" !in configData.entries ==> r == Ok(EmptyDict)
      ensures r.Err? <==> !configData.Dict?
    {
      Get(configData, "COMMON", EmptyDict)
    }

    /** `db_config`: `config["DB_CONNECTION"][env]`, or `{}` when either key is absent. */
    function DbConfig(): (r: Result<Value, ConfigError>)
      ensures configData.Dict? && "DB_CONNECTION" in configData.entries &&
              configData.entries["DB_CONNECTION"].Dict? &&
              envVar in configData.entries["DB_CONNECTION"].entries
              ==> r == Ok(configData.entries["DB_CONNECTION"].entries[envVar])
      ensures configData.Dict? && "DB_CONNECTION" !in configData.entries ==> r == Ok(EmptyDict)
      ensures configData.Dict? && "DB_CONNECTION" in configData.entries &&
              configData.entries["DB_CONNECTION"].Dict? &&
              envVar !in configData.entries["DB_CONNECTION"].entries
              ==> r == Ok(EmptyDict)
      ensures r.Err? <==> !configData.Dict? ||
                          ("DB_CONNECTION" in configData.entries && !configData.entries["DB_CONNECTION"].Dict?)
    {
      var connections :- Get(configData, "DB_CONNECTION", EmptyDict);
      Get(connections, envVar, EmptyDict)
    }
  }

  /** Whatever went wrong with the file, a caller that tolerated the error
      sees both views as `{}`. */
  lemma FailedLoadGivesEmptyViews(parser: YamlConfigParser, files: FileSystem, env: string)
    requires parser.configPath !in files || files[parser.configPath].Malformed?
    ensures parser.GetData(files).Ok?
    ensures ConfigData(parser.GetData(files).value, env).Common() == Ok(EmptyDict)
    ensures ConfigData(parser.GetData(files).value, env).DbConfig() == Ok(EmptyDict)
  {
  }

  /** An empty configuration file loads as `None` (not `{}`), and then both
      views raise, since `None` has no `.get`. */
  lemma EmptyDocumentBreaksViews(parser: YamlConfigParser, files: FileSystem, env: string)
    requires parser.configPath in files && files[parser.configPath] == Yaml(Null)
    ensures parser.GetData(files) == Ok(Null)
    ensures ConfigData(parser.GetData(files).value, env).Common().Err?
    ensures ConfigData(parser.GetData(files).value, env).DbConfig().Err?
  {
  }

  /** An example document: COMMON and the "localhost" connection are found,
      an unknown environment yields `{}`. */
  lemma ViewsExample()
    ensures var doc := Dict(map["COMMON" := Dict(map["x" := Int(1)]),
                                "DB_CONNECTION" := Dict(map["localhost" := Dict(map["user" := Str("a")])])]);
            && ConfigData(doc, "localhost").Common() == Ok(Dict(map["x" := Int(1)]))
            && ConfigData(doc, "localhost").DbConfig() == Ok(Dict(map["user" := Str("a")]))
            && ConfigData(doc, "prod").DbConfig() == Ok(EmptyDict)
  {
  }
}
