/**
 * The contest-local configuration of the older client (config/local_config.py):
 * the default compiler index and the problem and compiler lists, stored as a
 * JSON object in `.tsweb_py.local`.
 */
module RootLocalConfig {
  import opened Wrappers
  import opened Json
  import opened Models
  import opened Paths

  /** The three dataclass fields, as values. */
  datatype ConfigData = ConfigData(defaultLang: int, problems: seq<Problem>, compilers: seq<Compiler>)

  /** `LocalConfig()`. */
  function Fresh(): ConfigData {
    ConfigData(0, [], [])
  }

  const ConfigKeys: set<string> := {"default_lang", "problems", "compilers"}
  const ProblemKeys: set<string> := {"problem_id", "problem_name"}
  const CompilerKeys: set<string> := {"compiler_id", "compiler_name", "compiler_lang"}

  // ---------------------------------------------------------------------------
  // save: the document written

  /** `asdict(problem)`. */
  function ProblemJson(p: Problem): Json {
    JObject(map["problem_id" := JStr(p.problemId), "problem_name" := JStr(p.problemName)])
  }

  /** `asdict(compiler)`. */
  function CompilerJson(c: Compiler): Json {
    JObject(map["compiler_id" := JStr(c.compilerId), "compiler_name" := JStr(c.compilerName),
                "compiler_lang" := JStr(c.compilerLang)])
  }

  /** The dictionary `save` dumps. */
  function Encode(d: ConfigData): Json {
    JObject(map[
      "default_lang" := JInt(d.defaultLang),
      "problems" := JArray(seq(|d.problems|, i requires 0 <= i < |d.problems| => ProblemJson(d.problems[i]))),
      "compilers" := JArray(seq(|d.compilers|, i requires 0 <= i < |d.compilers| => CompilerJson(d.compilers[i])))
    ])
  }

  // ---------------------------------------------------------------------------
  // load: the document read

  /**
   * What converting a JSON value into a record gives: the record; a
   * `TypeError`, which `load` catches; or values of a type the field does not
   * declare, which the dataclass would keep.
   */
  datatype Decoded<T> = Ok(value: T) | TypeError | IllTyped

  /** `Problem(**p)`: exactly the two field names, or a `TypeError`. */
  function ProblemFrom(item: Json): Decoded<Problem> {
    match item
    case JObject(f) =>
      if f.Keys != ProblemKeys then TypeError
      else if f["problem_id"].JStr? && f["problem_name"].JStr? then
        Ok(Problem(f["problem_id"].s, f["problem_name"].s))
      else IllTyped
    case _ => TypeError
  }

  /** `Compiler(**c)`: exactly the three field names, or a `TypeError`. */
  function CompilerFrom(item: Json): Decoded<Compiler> {
    match item
    case JObject(f) =>
      if f.Keys != CompilerKeys then TypeError
      else if f["compiler_id"].JStr? && f["compiler_name"].JStr? && f["compiler_lang"].JStr? then
        Ok(Compiler(f["compiler_id"].s, f["compiler_name"].s, f["compiler_lang"].s))
      else IllTyped
    case _ => TypeError
  }

  /**
   * Converting every item in order: a `TypeError` raised by any item wins;
   * otherwise any ill-typed item makes the list ill-typed.
   */
  function ConvertAll<T>(items: seq<Json>, convert: Json -> Decoded<T>): (r: Decoded<seq<T>>)
    ensures r.Ok? ==> |r.value| == |items|
  {
    if |items| == 0 then Ok([])
    else
      var head := convert(items[0]);
      var tail := ConvertAll(items[1..], convert);
      if head.TypeError? || tail.TypeError? then TypeError
      else if head.IllTyped? || tail.IllTyped? then IllTyped
      else Ok([head.value] + tail.value)
  }

  /**
   * The list raises a `TypeError` exactly when some item does; it converts
   * exactly when every item does, into the converted items in order.
   */
  lemma {:induction false} ConvertAllMeaning<T>(items: seq<Json>, convert: Json -> Decoded<T>)
    ensures var r := ConvertAll(items, convert);
            (r.TypeError? <==> exists i :: 0 <= i < |items| && convert(items[i]).TypeError?)
            && (r.Ok? <==> forall i :: 0 <= i < |items| ==> convert(items[i]).Ok?)
            && (r.Ok? ==> forall i :: 0 <= i < |items| ==> r.value[i] == convert(items[i]).value)
  {
    if |items| > 0 {
      ConvertAllMeaning(items[1..], convert);
      assert forall i :: 1 <= i < |items| ==> items[1..][i - 1] == items[i];
      var r := ConvertAll(items, convert);
      if r.TypeError? && !convert(items[0]).TypeError? {
        var j :| 0 <= j < |items[1..]| && convert(items[1..][j]).TypeError?;
        assert convert(items[j + 1]).TypeError?;
      }
    }
  }

  /**
   * `[convert(x) for x in value]`: a list converts its items; iterating a
   * string or an object yields strings, which `**` rejects, so only an empty
   * one gives `[]`; any other value is not iterable.
   */
  function ConvertList<T>(value: Json, convert: Json -> Decoded<T>): Decoded<seq<T>> {
    match value
    case JArray(items) => ConvertAll(items, convert)
    case JStr(s) => if s == "" then Ok([]) else TypeError
    case JObject(f) => if f == map[] then Ok([]) else TypeError
    case _ => TypeError
  }

  /** The `default_lang` argument: absent means the default `0`. */
  function LangFrom(f: map<string, Json>): Decoded<int> {
    if "default_lang" !in f then Ok(0)
    else if f["default_lang"].JInt? then Ok(f["default_lang"].i)
    else IllTyped
  }

  /**
   * The body of `load` once a file is found: a decode or I/O error and every
   * `TypeError` give `None`. A top-level value that is not an object always
   * raises a `TypeError` (on `in`, on subscripting, or on `**`), and so does
   * an object with a key that is not a field; so the only exception `load`
   * lets through is the `UnicodeDecodeError` of a file that is not UTF-8.
   */
  function Decode(body: FileBody): (r: LoadOutcome<ConfigData>)
    ensures r.Raises? <==> body.BadEncoding?
  {
    match body
    case Unreadable => NoConfig
    case BadEncoding => Raises
    case Parsed(JObject(f)) =>
      var problems := if "problems" in f then ConvertList(f["problems"], ProblemFrom) else Ok([]);
      var compilers := if "compilers" in f then ConvertList(f["compilers"], CompilerFrom) else Ok([]);
      var lang := LangFrom(f);
      if problems.TypeError? || compilers.TypeError? || !(f.Keys <= ConfigKeys) then NoConfig
      else if problems.IllTyped? || compilers.IllTyped? || lang.IllTyped? then Unmodelled
      else Loaded(ConfigData(lang.value, problems.value, compilers.value))
    case Parsed(_) => NoConfig
  }

  /** `LocalConfig.load()` from the working directory `cwd`. */
  function LoadAt(fs: FileSystem, cwd: Path): LoadOutcome<ConfigData> {
    match FoundBody(fs, cwd)
    case None => NoConfig
    case Some(body) => Decode(body)
  }

  method Load(fs: FileSystem, cwd: Path) returns (outcome: LoadOutcome<ConfigData>)
    ensures outcome == LoadAt(fs, cwd)
  {
    var path := FindConfig(cwd, fs.Keys);
    if path.None? {
      return NoConfig;
    }
    outcome := Decode(fs[path.value]);
  }

  // ---------------------------------------------------------------------------
  // round trip and defaults

  lemma {:induction false} ConvertEncoded<T>(xs: seq<T>, items: seq<Json>, convert: Json -> Decoded<T>, encode: T -> Json)
    requires |items| == |xs| && forall i :: 0 <= i < |xs| ==> items[i] == encode(xs[i])
    requires forall x :: convert(encode(x)) == Ok(x)
    ensures ConvertAll(items, convert) == Ok(xs)
  {
    var r := ConvertAll(items, convert);
    ConvertAllMeaning(items, convert);
    assert forall i :: 0 <= i < |items| ==> convert(items[i]) == Ok(xs[i]);
    assert r.value == xs;
  }

  lemma {:induction false} ProblemRoundTrip(p: Problem)
    ensures ProblemFrom(ProblemJson(p)) == Ok(p)
  {
    var f := map["problem_id" := JStr(p.problemId), "problem_name" := JStr(p.problemName)];
    assert f.Keys == ProblemKeys;
  }

  lemma {:induction false} CompilerRoundTrip(c: Compiler)
    ensures CompilerFrom(CompilerJson(c)) == Ok(c)
  {
    var f := map["compiler_id" := JStr(c.compilerId), "compiler_name" := JStr(c.compilerName),
                 "compiler_lang" := JStr(c.compilerLang)];
    assert f.Keys == CompilerKeys;
  }

  /** What `save` writes, `load` reads back as equal records, in the same order. */
  lemma {:induction false} EncodeDecode(d: ConfigData)
    ensures Decode(Parsed(Encode(d))) == Loaded(d)
  {
    var f := Encode(d).fields;
    assert f.Keys == ConfigKeys;
    forall p ensures ProblemFrom(ProblemJson(p)) == Ok(p) {
      ProblemRoundTrip(p);
    }
    forall c ensures CompilerFrom(CompilerJson(c)) == Ok(c) {
      CompilerRoundTrip(c);
    }
    ConvertEncoded(d.problems, f["problems"].items, ProblemFrom, ProblemJson);
    ConvertEncoded(d.compilers, f["compilers"].items, CompilerFrom, CompilerJson);
  }

  /** Every key left out of the file takes its dataclass default. */
  lemma {:induction false} MissingKeysDefault(f: map<string, Json>)
    requires f.Keys <= {"default_lang"} && ("default_lang" in f ==> f["default_lang"].JInt?)
    ensures Decode(Parsed(JObject(f))) ==
              Loaded(ConfigData(if "default_lang" in f then f["default_lang"].i else 0, [], []))
    ensures f == map[] ==> Decode(Parsed(JObject(f))) == Loaded(Fresh())
  {
  }

  /** A key that is not a field of the dataclass makes `load` give `None`. */
  lemma {:induction false} UnknownKeyGivesNone(f: map<string, Json>, key: string)
    requires key in f && key !in ConfigKeys
    ensures Decode(Parsed(JObject(f))) == NoConfig
  {
  }

  /** A record with a missing or extra field makes `load` give `None`, whatever the other items. */
  lemma {:induction false} BadRecordGivesNone(f: map<string, Json>, items: seq<Json>, i: nat)
    requires "problems" in f && f["problems"] == JArray(items)
    requires i < |items| && items[i].JObject? && items[i].fields.Keys != ProblemKeys
    ensures Decode(Parsed(JObject(f))) == NoConfig
  {
    assert ProblemFrom(items[i]).TypeError?;
    ConvertAllMeaning(items, ProblemFrom);
  }

  /** `save()` then `load()` from the same directory gives back the saved fields, whatever else exists. */
  lemma {:induction false} SaveThenLoad(fs: FileSystem, cwd: Path, d: ConfigData)
    ensures LoadAt(fs[SavePath(cwd) := Parsed(Encode(d))], cwd) == Loaded(d)
  {
    var fs' := fs[SavePath(cwd) := Parsed(Encode(d))];
    assert ConfigIn(cwd) in fs'.Keys;
    assert ClosestConfig(cwd, fs'.Keys) == Some(ConfigIn(cwd)) by {
      assert cwd[..|cwd|] == cwd;
    }
    EncodeDecode(d);
  }

  // ---------------------------------------------------------------------------
  // the dataclass object

  /** A `LocalConfig` object; the commands assign its fields before saving it. */
  class LocalConfig {
    var defaultLang: int
    var problems: seq<Problem>
    var compilers: seq<Compiler>

    /** `LocalConfig()`: index 0 and no problems or compilers. */
    constructor ()
      ensures Data() == Fresh()
    {
      defaultLang := 0;
      problems := [];
      compilers := [];
    }

    /** The object `load` builds from the fields it read. */
    constructor FromData(d: ConfigData)
      ensures Data() == d
    {
      defaultLang := d.defaultLang;
      problems := d.problems;
      compilers := d.compilers;
    }

    function Data(): ConfigData
      reads this
    {
      ConfigData(defaultLang, problems, compilers)
    }

    /** `get_compiler`: the compiler at the default index when it is in range, `None` otherwise. */
    function GetCompiler(): (c: Option<Compiler>)
      reads this
      ensures c.Some? <==> 0 <= defaultLang < |compilers|
      ensures c.Some? ==> c.value in compilers && c.value == compilers[defaultLang]
    {
      if 0 <= defaultLang < |compilers| then Some(compilers[defaultLang]) else None
    }

    /** `save()` from the working directory `cwd`: the file system afterwards. */
    method Save(fs: FileSystem, cwd: Path) returns (written: FileSystem)
      ensures written == fs[SavePath(cwd) := Parsed(Encode(Data()))]
      ensures LoadAt(written, cwd) == Loaded(Data())
    {
      var data := Encode(Data());
      written := fs[ConfigIn(cwd) := Parsed(data)];
      SaveThenLoad(fs, cwd, Data());
    }
  }
}
