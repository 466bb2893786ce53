/**
 * The contest-local configuration of the packaged client
 * (tsweb_py/config/local_config.py): only the default compiler index, in the
 * same `.tsweb_py.local` file the older client writes.
 */
module PackageLocalConfig {
  import opened Wrappers
  import opened Json
  import opened Paths
  import Root = RootLocalConfig

  datatype LocalConfig = LocalConfig(defaultLang: int)

  /** `LocalConfig()`. */
  function Fresh(): LocalConfig {
    LocalConfig(0)
  }

  /** The dictionary `save` dumps: `default_lang` and nothing else. */
  function Encode(c: LocalConfig): Json {
    JObject(map["default_lang" := JInt(c.defaultLang)])
  }

  /**
   * The body of `load` once a file is found: a decode or I/O error gives
   * `None`; an object gives its `default_lang`, `0` when absent, other keys
   * ignored; any other document makes `data.get` raise `AttributeError`,
   * and a file that is not UTF-8 raises `UnicodeDecodeError`, neither of
   * which `load` catches.
   */
  function Decode(body: FileBody): (r: LoadOutcome<LocalConfig>)
    ensures r.Raises? <==> body.BadEncoding? || (body.Parsed? && !body.json.JObject?)
    ensures r.NoConfig? <==> body.Unreadable?
  {
    match body
    case Unreadable => NoConfig
    case BadEncoding => Raises
    case Parsed(JObject(f)) =>
      if "default_lang" !in f then Loaded(LocalConfig(0))
      else if f["default_lang"].JInt? then Loaded(LocalConfig(f["default_lang"].i))
      else Unmodelled
    case Parsed(_) => Raises
  }

  /** `LocalConfig.load()` from the working directory `cwd`. */
  function LoadAt(fs: FileSystem, cwd: Path): LoadOutcome<LocalConfig> {
    match FoundBody(fs, cwd)
    case None => NoConfig
    case Some(body) => Decode(body)
  }

  method Load(fs: FileSystem, cwd: Path) returns (outcome: LoadOutcome<LocalConfig>)
    ensures outcome == LoadAt(fs, cwd)
  {
    var path := FindConfig(cwd, fs.Keys);
    if path.None? {
      return NoConfig;
    }
    outcome := Decode(fs[path.value]);
  }

  /** `save()` from the working directory `cwd`: the file system afterwards. */
  function Save(c: LocalConfig, fs: FileSystem, cwd: Path): (written: FileSystem)
    ensures SavePath(cwd) in written && written[SavePath(cwd)] == Parsed(Encode(c))
    ensures forall p :: p in fs && p != SavePath(cwd) ==> p in written && written[p] == fs[p]
  {
    fs[ConfigIn(cwd) := Parsed(Encode(c))]
  }

  /** `load` reads back what `save` wrote. */
  lemma {:induction false} EncodeDecode(c: LocalConfig)
    ensures Decode(Parsed(Encode(c))) == Loaded(c)
  {
    assert "default_lang" in Encode(c).fields;
  }

  lemma {:induction false} SaveThenLoad(c: LocalConfig, fs: FileSystem, cwd: Path)
    ensures LoadAt(Save(c, fs, cwd), cwd) == Loaded(c)
  {
    var written := Save(c, fs, cwd);
    assert ClosestConfig(cwd, written.Keys) == Some(ConfigIn(cwd)) by {
      assert cwd[..|cwd|] == cwd;
    }
    EncodeDecode(c);
  }

  /** A file without `default_lang` loads as index 0, whatever other keys it holds. */
  lemma {:induction false} MissingKeyDefaultsToZero(f: map<string, Json>)
    requires "default_lang" !in f
    ensures Decode(Parsed(JObject(f))) == Loaded(Fresh())
  {
  }

  /** No config file anywhere up to the root gives `None`. */
  lemma {:induction false} NoFileGivesNone(fs: FileSystem, cwd: Path)
    requires forall m :: 0 <= m <= |cwd| ==> ConfigIn(cwd[..m]) !in fs
    ensures LoadAt(fs, cwd) == NoConfig
  {
    if ClosestConfig(cwd, fs.Keys).Some? {
      ClosestConfigFound(cwd, fs.Keys);
    }
  }

  /** The packaged client reads the index out of a file the older client saved. */
  lemma {:induction false} ReadsOlderFile(d: Root.ConfigData)
    ensures Decode(Parsed(Root.Encode(d))) == Loaded(LocalConfig(d.defaultLang))
  {
    assert "default_lang" in Root.Encode(d).fields;
  }

  /**
   * Saving from the packaged client replaces such a file with one that the
   * older client reads back with no problems and no compilers.
   */
  lemma {:induction false} SaveDropsOlderLists(c: LocalConfig)
    ensures Root.Decode(Parsed(Encode(c))) == Loaded(Root.ConfigData(c.defaultLang, [], []))
  {
    Root.MissingKeysDefault(Encode(c).fields);
  }
}
