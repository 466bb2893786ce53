/**
 * The global configuration (config/global_config.py): the saved credentials,
 * read from and written to `~/.tsweb_py.global` as a JSON object.
 */
module Global {
  import opened Wrappers
  import opened Json

  datatype GlobalConfig = GlobalConfig(user: string, password: string)

  /** `GlobalConfig()`: both fields empty. */
  function Default(): GlobalConfig {
    GlobalConfig("", "")
  }

  /** Python truthiness of a string. */
  predicate Truthy(s: string) {
    s != ""
  }

  /** `bool(self.user and self.password)`: `and` yields its first falsy operand, else its second. */
  predicate HasCredentials(c: GlobalConfig) {
    Truthy(if Truthy(c.user) then c.password else c.user)
  }

  /**
   * `data.get(key, "")`: the default when the key is absent, the text when it
   * holds a string, `None` when it holds another type (kept as is by Python).
   */
  function TextField(fields: map<string, Json>, key: string): (r: Option<string>)
    ensures key !in fields ==> r == Some("")
    ensures key in fields && fields[key].JStr? ==> r == Some(fields[key].s)
  {
    if key !in fields then Some("")
    else if fields[key].JStr? then Some(fields[key].s)
    else None
  }

  /**
   * `GlobalConfig.load`: a missing file and a decode or I/O error both give
   * the empty config; a document that is not an object makes `data.get`
   * raise `AttributeError`, and a file that is not UTF-8 raises
   * `UnicodeDecodeError`, neither of which `load` catches.
   */
  function Load(body: Option<FileBody>): (r: LoadOutcome<GlobalConfig>)
    ensures r.Raises? <==> body == Some(BadEncoding) || (body.Some? && body.value.Parsed? && !body.value.json.JObject?)
  {
    match body
    case None => Loaded(Default())
    case Some(Unreadable) => Loaded(Default())
    case Some(BadEncoding) => Raises
    case Some(Parsed(JObject(fields))) =>
      var user := TextField(fields, "user");
      var password := TextField(fields, "password");
      if user.Some? && password.Some? then Loaded(GlobalConfig(user.value, password.value))
      else Unmodelled
    case Some(Parsed(_)) => Raises
  }

  /** `GlobalConfig.save`: the object the file receives. */
  function Save(c: GlobalConfig): Json {
    JObject(map["user" := JStr(c.user), "password" := JStr(c.password)])
  }

  /** Loading what `save` wrote gives back the same credentials. */
  lemma {:induction false} SaveLoad(c: GlobalConfig)
    ensures Load(Some(Parsed(Save(c)))) == Loaded(c)
  {
    var fields := map["user" := JStr(c.user), "password" := JStr(c.password)];
    assert "user" in fields && fields["user"] == JStr(c.user);
    assert "password" in fields && fields["password"] == JStr(c.password);
  }

  /** A key missing from the file loads as `""` for that field, the other field unaffected. */
  lemma {:induction false} MissingKeyLoadsEmpty(fields: map<string, Json>, present: string)
    requires "user" !in fields && "password" in fields && fields["password"] == JStr(present)
    ensures Load(Some(Parsed(JObject(fields)))) == Loaded(GlobalConfig("", present))
  {
  }

  /** A file that is missing or cannot be read or decoded leaves the client without credentials. */
  lemma {:induction false} NoFileMeansNoCredentials(body: Option<FileBody>)
    requires body.None? || body == Some(Unreadable)
    ensures Load(body).Loaded? && !HasCredentials(Load(body).config)
  {
  }
}
