/** plumber/io.py: the checkpoint stores and the store factory. The file system
    is a map from path to the loaded YAML document and the Kubernetes API a map
    from (namespace, name) to config-map data; YAML dumping and loading are taken
    to be inverse, so a stored document is the Value itself. */
module StoreIO {
  import opened Wrappers
  import opened Common

  // Store type tags and defaults. Their values live in a part of
  // plumber/common.py that is not part of this model.
  const LocalFileType := "localfile"
  const LocalGitType := "localgit"
  const KubeConfigType := "kubeconfig"
  const DefaultCheckpointFilename := ".plumber.checkpoint.yml"

  // KubeConfigStore.configure defaults
  const DefaultConfigMapName := "plumber-checkpoint"
  const DefaultNamespace := "default"
  const DefaultPlaceholder := ".plumber.checkpoint.yml"

  const NotFound := 404

  const EmptyDocument := Dict(map[])

  // ---------------------------------------------------------------------
  // YAML file stores

  /** The files the stores read and write, as loaded documents. */
  class Disk {
    var files: map<string, Value>

    constructor (files: map<string, Value>)
      ensures this.files == files
    {
      this.files := files;
    }
  }

  /** The path a file store's configure accepts: a string `path`. */
  function FilePath(config: Config): (r: Result<string, Error>)
    ensures r.Ok? <==> PathKey in config && config[PathKey].Str?
    ensures r.Ok? ==> r.value == config[PathKey].s
    ensures r.Err? ==> r.error.kind == ConfigError
  {
    match GetOrDefault(config, PathKey, Null, Some(StrKind))
    case Err(e) => Err(e)
    case Ok(p) => if p.Str? then Ok(p.s) else Err(ConfigErr("Path to yaml file not provided"))
  }

  /** YamlFileStore, and YamlGitFileStore when `git` is set: the git add,
      commit and push after each save are not part of this model. */
  class YamlFileStore {
    var path: Option<string>
    const git: bool

    constructor (git: bool)
      ensures path == None && this.git == git
    {
      path := None;
      this.git := git;
    }

    /** configure(config): a failing lookup leaves the field as it was; an
        absent path sets it to None and raises. */
    method Configure(config: Config) returns (o: Outcome<Error>)
      modifies this`path
      ensures o.Pass? <==> FilePath(config).Ok?
      ensures o.Fail? ==> o.error == FilePath(config).error
      ensures path == if PathKey in config && !config[PathKey].Str? then old(path)
                      else if PathKey in config then Some(config[PathKey].s) else None
    {
      var p := GetOrDefault(config, PathKey, Null, Some(StrKind));
      if p.Err? {
        return Fail(p.error);
      }
      path := if p.value.Str? then Some(p.value.s) else None;
      if path.None? {
        return Fail(ConfigErr("Path to yaml file not provided"));
      }
      o := Pass;
    }

    /** get_data(): an absent file reads as the empty mapping. */
    method GetData(disk: Disk) returns (d: Value)
      requires path.Some?
      ensures d == if path.value in disk.files then disk.files[path.value] else EmptyDocument
    {
      if path.value in disk.files {
        d := disk.files[path.value];
      } else {
        d := EmptyDocument;
      }
    }

    /** save_data(content, info): the file is overwritten with the document. */
    method SaveData(disk: Disk, content: Value)
      requires path.Some?
      modifies disk
      ensures disk.files == old(disk.files)[path.value := content]
    {
      disk.files := disk.files[path.value := content];
    }
  }

  /** The round trip of the file store: a store configured with a fresh path
      reads the empty mapping, and after saving a document a freshly configured
      store on the same path reads it back. */
  method FileRoundTrip(disk: Disk, path: string, content: Value) returns (before: Value, after: Value)
    requires path !in disk.files
    modifies disk
    ensures before == EmptyDocument && after == content
  {
    var store := new YamlFileStore(false);
    var o := store.Configure(map[PathKey := Str(path)]);
    before := store.GetData(disk);
    store.SaveData(disk, content);
    var other := new YamlFileStore(false);
    o := other.Configure(map[PathKey := Str(path)]);
    after := other.GetData(disk);
  }

  // ---------------------------------------------------------------------
  // Kubernetes config-map store

  /** The API calls the store makes, in order. */
  datatype ApiCall = Read(name: string, namespace: string) | Replace(name: string, namespace: string) | Create(namespace: string)

  /** CoreV1Api: config maps by (namespace, name), each a mapping from file name
      to document; `fault` is the status of an ApiException that every call
      raises, when the API is failing, and `writeFault` the status that only
      the replace and create calls raise (a 403 on writes, a 409 conflict). */
  class KubeApi {
    var configMaps: map<(string, string), map<string, Value>>
    const fault: Option<int>
    const writeFault: Option<int>
    ghost var calls: seq<ApiCall>

    constructor (configMaps: map<(string, string), map<string, Value>>, fault: Option<int>, writeFault: Option<int>)
      ensures this.configMaps == configMaps && this.fault == fault && this.writeFault == writeFault && calls == []
    {
      this.configMaps := configMaps;
      this.fault := fault;
      this.writeFault := writeFault;
      calls := [];
    }
  }

  function ApiError(status: int): string {
    "ApiException(" + IntText(status) + ")"
  }

  /** The status a replace or create call fails with, if it fails. */
  function WriteStatus(fault: Option<int>, writeFault: Option<int>): (r: Option<int>)
    ensures r.None? <==> fault.None? && writeFault.None?
    ensures fault.Some? ==> r == fault
  {
    if fault.Some? then fault else writeFault
  }

  /** The status a read of (namespace, name) fails with, if it fails. */
  function ReadStatus(configMaps: map<(string, string), map<string, Value>>, fault: Option<int>,
                      namespace: string, name: string): Option<int>
  {
    if fault.Some? then fault else if (namespace, name) in configMaps then None else Some(NotFound)
  }

  /** The three settings KubeConfigStore.configure reads, with their defaults. */
  datatype KubeSettings = KubeSettings(name: string, namespace: string, placeholder: string)

  function KubeSettingsOf(config: Config): (r: Result<KubeSettings, Error>)
    ensures r.Ok? <==> forall k | k in {NameKey, NamespaceKey, PlaceholderKey} && k in config :: config[k].Str?
    ensures r.Ok? ==>
              && r.value.name == (if NameKey in config then config[NameKey].s else DefaultConfigMapName)
              && r.value.namespace == (if NamespaceKey in config then config[NamespaceKey].s else DefaultNamespace)
              && r.value.placeholder == (if PlaceholderKey in config then config[PlaceholderKey].s else DefaultPlaceholder)
    ensures r.Err? ==> r.error.kind == ConfigError
  {
    match GetOrDefault(config, NameKey, Str(DefaultConfigMapName), Some(StrKind))
    case Err(e) => Err(e)
    case Ok(n) =>
      match GetOrDefault(config, NamespaceKey, Str(DefaultNamespace), Some(StrKind))
      case Err(e) => Err(e)
      case Ok(ns) =>
        match GetOrDefault(config, PlaceholderKey, Str(DefaultPlaceholder), Some(StrKind))
        case Err(e) => Err(e)
        case Ok(p) => Ok(KubeSettings(n.s, ns.s, p.s))
  }

  class KubeConfigStore {
    var configMapName: Option<string>
    var namespace: Option<string>
    var filePlaceholder: Option<string>
    var api: KubeApi?

    constructor ()
      ensures configMapName == None && namespace == None && filePlaceholder == None && api == null
    {
      configMapName, namespace, filePlaceholder, api := None, None, None, null;
    }

    ghost predicate Configured()
      reads this
    {
      configMapName.Some? && namespace.Some? && filePlaceholder.Some? && api != null
    }

    function Settings(): Option<KubeSettings>
      reads this
    {
      if configMapName.Some? && namespace.Some? && filePlaceholder.Some?
      then Some(KubeSettings(configMapName.value, namespace.value, filePlaceholder.value))
      else None
    }

    /** configure(config); `client` is the API the loaded cluster configuration reaches. */
    method Configure(config: Config, client: KubeApi) returns (o: Outcome<Error>)
      modifies this`configMapName, this`namespace, this`filePlaceholder, this`api
      ensures o.Pass? <==> KubeSettingsOf(config).Ok?
      ensures o.Fail? ==> o.error == KubeSettingsOf(config).error
      ensures o.Pass? ==> Configured() && Settings() == Some(KubeSettingsOf(config).value) && api == client
      // Each setting is assigned as soon as it is read, so a failing lookup
      // leaves the earlier settings assigned and the later ones as they were.
      ensures var n := GetOrDefault(config, NameKey, Str(DefaultConfigMapName), Some(StrKind));
        var ns := GetOrDefault(config, NamespaceKey, Str(DefaultNamespace), Some(StrKind));
        var p := GetOrDefault(config, PlaceholderKey, Str(DefaultPlaceholder), Some(StrKind));
        && configMapName == (if n.Ok? then Some(n.value.s) else old(configMapName))
        && namespace == (if n.Ok? && ns.Ok? then Some(ns.value.s) else old(namespace))
        && filePlaceholder == (if n.Ok? && ns.Ok? && p.Ok? then Some(p.value.s) else old(filePlaceholder))
        && api == (if o.Pass? then client else old(api))
    {
      var n := GetOrDefault(config, NameKey, Str(DefaultConfigMapName), Some(StrKind));
      if n.Err? {
        return Fail(n.error);
      }
      configMapName := Some(n.value.s);
      var ns := GetOrDefault(config, NamespaceKey, Str(DefaultNamespace), Some(StrKind));
      if ns.Err? {
        return Fail(ns.error);
      }
      namespace := Some(ns.value.s);
      var p := GetOrDefault(config, PlaceholderKey, Str(DefaultPlaceholder), Some(StrKind));
      if p.Err? {
        return Fail(p.error);
      }
      filePlaceholder := Some(p.value.s);
      api := client;
      o := Pass;
    }

    /** get_data(): a 404 reads as the empty mapping, any other API error is
        an IOError; a config map without the placeholder file raises KeyError. */
    method GetData() returns (r: Result<Value, Error>)
      requires Configured()
      modifies api`calls
      ensures api.calls == old(api.calls) + [Read(configMapName.value, namespace.value)]
      ensures var key := (namespace.value, configMapName.value);
        var status := ReadStatus(api.configMaps, api.fault, key.0, key.1);
        r == if status == Some(NotFound) then Ok(EmptyDocument)
             else if status.Some? then Err(IOErr("Could not read data", ApiError(status.value)))
             else if filePlaceholder.value in api.configMaps[key] then Ok(api.configMaps[key][filePlaceholder.value])
             else Err(Error(KeyError, filePlaceholder.value, None))
    {
      api.calls := api.calls + [Read(configMapName.value, namespace.value)];
      var status := ReadStatus(api.configMaps, api.fault, namespace.value, configMapName.value);
      if status.Some? {
        if status.value == NotFound {
          return Ok(EmptyDocument);
        }
        return Err(IOErr("Could not read data", ApiError(status.value)));
      }
      var data := api.configMaps[(namespace.value, configMapName.value)];
      if filePlaceholder.value in data {
        r := Ok(data[filePlaceholder.value]);
      } else {
        r := Err(Error(KeyError, filePlaceholder.value, None));
      }
    }

    /** _cm_exists(): a 404 means absent, any other API error is an IOError. */
    method ConfigMapExists() returns (r: Result<bool, Error>)
      requires Configured()
      modifies api`calls
      ensures api.calls == old(api.calls) + [Read(configMapName.value, namespace.value)]
      ensures var status := ReadStatus(api.configMaps, api.fault, namespace.value, configMapName.value);
        r == if status.None? then Ok(true)
             else if status == Some(NotFound) then Ok(false)
             else Err(IOErr("Could not read data", ApiError(status.value)))
    {
      api.calls := api.calls + [Read(configMapName.value, namespace.value)];
      var status := ReadStatus(api.configMaps, api.fault, namespace.value, configMapName.value);
      if status.None? {
        return Ok(true);
      }
      if status.value == NotFound {
        return Ok(false);
      }
      r := Err(IOErr("Could not read data", ApiError(status.value)));
    }

    /** save_data(content, info): replace the config map when it exists, create it
        otherwise; the existence check's IOError passes through, any failure of
        the write itself becomes an IOError. */
    method SaveData(content: Value) returns (o: Outcome<Error>)
      requires Configured()
      modifies api`calls, api`configMaps
      ensures var key := (namespace.value, configMapName.value);
        var status := ReadStatus(old(api.configMaps), api.fault, key.0, key.1);
        var write := WriteStatus(api.fault, api.writeFault);
        && (status.Some? && status != Some(NotFound) ==>
              o == Fail(IOErr("Could not read data", ApiError(status.value)))
              && api.configMaps == old(api.configMaps)
              && api.calls == old(api.calls) + [Read(key.1, key.0)])
        && (status.None? ==>
              api.calls == old(api.calls) + [Read(key.1, key.0), Replace(key.1, key.0)])
        && (status == Some(NotFound) ==>
              api.calls == old(api.calls) + [Read(key.1, key.0), Create(key.0)])
        && (status.None? || status == Some(NotFound) ==>
              && (write.None? ==>
                    o == Pass && api.configMaps == old(api.configMaps)[key := map[filePlaceholder.value := content]])
              && (write.Some? ==>
                    o == Fail(IOErr("Could now write data", ApiError(write.value)))
                    && api.configMaps == old(api.configMaps)))
    {
      var body := map[filePlaceholder.value := content];
      var key := (namespace.value, configMapName.value);
      var present := ConfigMapExists();
      if present.Err? {
        return Fail(present.error);
      }
      if present.value {
        api.calls := api.calls + [Replace(configMapName.value, namespace.value)];
      } else {
        api.calls := api.calls + [Create(namespace.value)];
      }
      var write := WriteStatus(api.fault, api.writeFault);
      if write.Some? {
        return Fail(IOErr("Could now write data", ApiError(write.value)));
      }
      api.configMaps := api.configMaps[key := body];
      o := Pass;
    }
  }

  /** The round trip of the config-map store on a working API: whether the
      config map existed or not, a saved document is read back. */
  method KubeRoundTrip(store: KubeConfigStore, content: Value) returns (o: Outcome<Error>, r: Result<Value, Error>)
    requires store.Configured() && store.api.fault.None? && store.api.writeFault.None?
    modifies store.api`calls, store.api`configMaps
    ensures o == Pass && r == Ok(content)
  {
    o := store.SaveData(content);
    r := store.GetData();
  }

  /** A write the API rejects on a readable cluster: the save fails with the
      write's IOError, and a later read sees the document stored before. */
  method KubeRejectedWrite(store: KubeConfigStore, content: Value) returns (before: Result<Value, Error>, o: Outcome<Error>, after: Result<Value, Error>)
    requires store.Configured() && store.api.fault.None? && store.api.writeFault.Some?
    modifies store.api`calls, store.api`configMaps
    ensures o == Fail(IOErr("Could now write data", ApiError(store.api.writeFault.value)))
    ensures after == before
  {
    before := store.GetData();
    o := store.SaveData(content);
    after := store.GetData();
  }

  // ---------------------------------------------------------------------
  // create_checkpoint_store

  datatype StoreKind = LocalFile | LocalGit | KubeConfig

  /** The store type, matched after lowercasing. */
  function KindOf(storeType: string): Option<StoreKind> {
    var t := Lower(storeType);
    if t == LocalFileType then Some(LocalFile)
    else if t == LocalGitType then Some(LocalGit)
    else if t == KubeConfigType then Some(KubeConfig)
    else None
  }

  /** The store the factory settles on: its type, the options it is configured
      with, and the caller's configuration afterwards (the default path is
      written into the caller's `config` mapping when that mapping exists). */
  datatype Plan = Plan(kind: StoreKind, options: Config, callerConfig: Option<Config>)

  /** initialize_default_checkpoint_store() */
  function DefaultPlan(callerConfig: Option<Config>): Plan {
    Plan(LocalFile, map[PathKey := Str(DefaultCheckpointFilename)], callerConfig)
  }

  function PlanFor(config: Option<Config>): Result<Plan, Error> {
    if config.None? then Ok(DefaultPlan(None))
    else
      var c := config.value;
      match GetOrDefault(c, TypeKey, Null, Some(StrKind))
      case Err(e) => Err(e)
      case Ok(t) =>
        if !t.Str? then Ok(DefaultPlan(config))
        else
          var storeConfig := if ConfigKey in c then c[ConfigKey] else EmptyDocument;
          match KindOf(t.s)
          case None => Err(ConfigErr("Unknown checkpoint type specified"))
          case Some(kind) =>
            if !storeConfig.Dict? then Err(TypeErr("the store config is not a mapping"))
            else if kind == KubeConfig then Ok(Plan(kind, storeConfig.entries, config))
            else
              var options := if PathKey in storeConfig.entries then storeConfig.entries
                             else storeConfig.entries[PathKey := Str(DefaultCheckpointFilename)];
              Ok(Plan(kind, options, if ConfigKey in c && PathKey !in storeConfig.entries
                                     then Some(c[ConfigKey := Dict(options)]) else config))
  }

  /** What the factory builds once the store's own configure has run. */
  datatype StoreSettings = FileSettings(git: bool, path: string) | KubeStoreSettings(settings: KubeSettings)

  function Resolve(config: Option<Config>): Result<StoreSettings, Error> {
    match PlanFor(config)
    case Err(e) => Err(e)
    case Ok(p) =>
      if p.kind == KubeConfig then
        match KubeSettingsOf(p.options)
        case Err(e) => Err(e)
        case Ok(s) => Ok(KubeStoreSettings(s))
      else
        match FilePath(p.options)
        case Err(e) => Err(e)
        case Ok(path) => Ok(FileSettings(p.kind == LocalGit, path))
  }

  /** No configuration, or none naming a type, gives the plain file store at the
      default path; the type is matched case-insensitively and an unknown one is
      a ConfigError; a file store keeps an explicit path and otherwise gets the
      default one, which is also written into the caller's `config` mapping. */
  lemma ResolveMeaning(c: Config, t: string, u: string)
    ensures Resolve(None) == Ok(FileSettings(false, DefaultCheckpointFilename))
    ensures TypeKey !in c ==> Resolve(Some(c)) == Ok(FileSettings(false, DefaultCheckpointFilename))
    ensures Lower(t) == Lower(u) ==> Resolve(Some(c[TypeKey := Str(t)])) == Resolve(Some(c[TypeKey := Str(u)]))
    ensures KindOf(t).None? ==>
              Resolve(Some(c[TypeKey := Str(t)])).Err? && Resolve(Some(c[TypeKey := Str(t)])).error.kind == ConfigError
    ensures var d := c[TypeKey := Str(t)];
      KindOf(t) == Some(LocalFile) && (ConfigKey !in c || c[ConfigKey] == Dict(map[])) ==>
        && Resolve(Some(d)) == Ok(FileSettings(false, DefaultCheckpointFilename))
        && PlanFor(Some(d)).value.callerConfig
           == Some(if ConfigKey in c then d[ConfigKey := Dict(map[PathKey := Str(DefaultCheckpointFilename)])] else d)
    ensures var d := c[TypeKey := Str(t)];
      KindOf(t).Some? && KindOf(t) != Some(KubeConfig) && ConfigKey in c && c[ConfigKey].Dict?
      && PathKey in c[ConfigKey].entries && c[ConfigKey].entries[PathKey].Str? ==>
        && Resolve(Some(d)) == Ok(FileSettings(KindOf(t) == Some(LocalGit), c[ConfigKey].entries[PathKey].s))
        && PlanFor(Some(d)).value.callerConfig == Some(d)
    ensures KindOf(t) == Some(KubeConfig) && ConfigKey !in c ==>
              Resolve(Some(c[TypeKey := Str(t)]))
              == Ok(KubeStoreSettings(KubeSettings(DefaultConfigMapName, DefaultNamespace, DefaultPlaceholder)))
  {
  }

  /** The store create_checkpoint_store returns. */
  datatype CheckpointStore = File(file: YamlFileStore) | Kube(kube: KubeConfigStore)

  function SettingsOf(s: CheckpointStore): Option<StoreSettings>
    reads if s.File? then {s.file} else {s.kube}
  {
    match s
    case File(f) => if f.path.Some? then Some(FileSettings(f.git, f.path.value)) else None
    case Kube(k) => if k.Settings().Some? then Some(KubeStoreSettings(k.Settings().value)) else None
  }

  /** initialize_default_checkpoint_store() */
  method InitializeDefaultCheckpointStore() returns (store: YamlFileStore)
    ensures fresh(store) && !store.git && store.path == Some(DefaultCheckpointFilename)
  {
    store := new YamlFileStore(false);
    var o := store.Configure(map[PathKey := Str(DefaultCheckpointFilename)]);
  }

  /** create_checkpoint_store(config); `client` is the Kubernetes API a
      config-map store connects to. `after` is the caller's configuration as it
      stands once the factory returns. */
  method CreateCheckpointStore(config: Option<Config>, client: KubeApi) returns (r: Result<CheckpointStore, Error>, after: Option<Config>)
    ensures r.Ok? <==> Resolve(config).Ok?
    ensures r.Err? ==> r.error == Resolve(config).error
    ensures r.Ok? ==> SettingsOf(r.value) == Some(Resolve(config).value)
    ensures r.Ok? && r.value.File? ==> fresh(r.value.file)
    ensures r.Ok? && r.value.Kube? ==> fresh(r.value.kube) && r.value.kube.Configured() && r.value.kube.api == client
    ensures after == if PlanFor(config).Ok? then PlanFor(config).value.callerConfig else config
  {
    after := config;
    if config.None? {
      var store := InitializeDefaultCheckpointStore();
      return Ok(File(store)), after;
    }
    var c := config.value;
    var t := GetOrDefault(c, TypeKey, Null, Some(StrKind));
    if t.Err? {
      return Err(t.error), after;
    }
    if !t.value.Str? {
      var store := InitializeDefaultCheckpointStore();
      return Ok(File(store)), after;
    }
    var storeType := Lower(t.value.s);
    ghost var kind := KindOf(t.value.s);
    var storeConfig := if ConfigKey in c then c[ConfigKey] else EmptyDocument;
    if storeType != LocalFileType && storeType != LocalGitType && storeType != KubeConfigType {
      return Err(ConfigErr("Unknown checkpoint type specified")), after;
    }
    if !storeConfig.Dict? {
      return Err(TypeErr("the store config is not a mapping")), after;
    }
    if storeType == KubeConfigType {
      var store := new KubeConfigStore();
      var o := store.Configure(storeConfig.entries, client);
      if o.Fail? {
        return Err(o.error), after;
      }
      return Ok(Kube(store)), after;
    }
    assert kind == Some(if storeType == LocalGitType then LocalGit else LocalFile);
    var options := storeConfig.entries;
    if PathKey !in options {
      // store_config[PATH] = DEFAULT_CHECKPOINT_FILENAME, seen by the caller
      options := options[PathKey := Str(DefaultCheckpointFilename)];
      if ConfigKey in c {
        after := Some(c[ConfigKey := Dict(options)]);
      }
    }
    var store := new YamlFileStore(storeType == LocalGitType);
    var o := store.Configure(options);
    if o.Fail? {
      return Err(o.error), after;
    }
    r := Ok(File(store));
  }

  // ---------------------------------------------------------------------
  // ${env.NAME} substitution (YamlEnvFileStore)

  predicate NameChar(c: char) {
    'A' <= c <= 'Z' || 'a' <= c <= 'z' || c == '_'
  }

  /** Index of the first newline at or after k, or |s|. */
  function LineEnd(s: string, k: nat): (e: nat)
    requires k <= |s|
    ensures k <= e <= |s|
    ensures e < |s| ==> s[e] == '\n'
    decreases |s| - k
  {
    if k == |s| || s[k] == '\n' then k else LineEnd(s, k + 1)
  }

  /** The text `.` can match from the start: up to the first newline. */
  function FirstLine(s: string): string {
    s[..LineEnd(s, 0)]
  }

  /** End of the run of name characters starting at k. */
  function NameEnd(line: string, k: nat): (j: nat)
    requires k <= |line|
    ensures k <= j <= |line|
    ensures j < |line| ==> !NameChar(line[j])
    decreases |line| - k
  {
    if k == |line| || !NameChar(line[k]) then k else NameEnd(line, k + 1)
  }

  /** `\${env.([A-Za-z_]*)}` matches at i: the dot takes any one character. */
  predicate PlaceholderAt(line: string, i: nat) {
    && i + 6 <= |line|
    && line[i] == '$' && line[i + 1] == '{' && line[i + 2] == 'e' && line[i + 3] == 'n' && line[i + 4] == 'v'
    && NameEnd(line, i + 6) < |line| && line[NameEnd(line, i + 6)] == '}'
  }

  /** The greedy `(.*)` prefix: the last placeholder start before k. */
  function LastPlaceholder(line: string, k: nat): (r: Option<nat>)
    requires k <= |line|
    ensures r.Some? ==> r.value < k && PlaceholderAt(line, r.value)
  {
    if k == 0 then None
    else if PlaceholderAt(line, k - 1) then Some(k - 1)
    else LastPlaceholder(line, k - 1)
  }

  /** os.getenv(name, '{env.' + name + '}') */
  function EnvValue(name: string, env: map<string, string>): string {
    if name in env then env[name] else "{env." + name + "}"
  }

  /** substitute_env_var(string) with the environment `env`: the pattern
      `(.*)\${env.([A-Za-z_]*)}(.*)` is matched from the start and `.` stops at a
      newline; a matched variable is replaced by its value, or by `{env.NAME}`
      when it is not set, the text before it is substituted again and the rest
      of the matched line is kept. */
  function SubstituteEnvVar(s: string, env: map<string, string>): string
    decreases |s|, 1
  {
    var line := FirstLine(s);
    match LastPlaceholder(line, |line|)
    case None => s
    case Some(i) => Substituted(line, i, env)
  }

  /** The result once the last placeholder of `line` is known to start at i. */
  function Substituted(line: string, i: nat, env: map<string, string>): string
    requires PlaceholderAt(line, i)
    decreases |line|, 0
  {
    var j := NameEnd(line, i + 6);
    SubstituteEnvVar(line[..i], env) + EnvValue(line[i + 6..j], env) + line[j + 1..]
  }

  lemma {:induction false} LastPlaceholderNone(line: string, k: nat)
    requires k <= |line|
    requires forall t: nat :: t < k ==> !PlaceholderAt(line, t)
    ensures LastPlaceholder(line, k) == None
  {
    if k > 0 {
      LastPlaceholderNone(line, k - 1);
    }
  }

  lemma {:induction false} LastPlaceholderFrom(line: string, k: nat, i: nat)
    requires i < k <= |line| && PlaceholderAt(line, i)
    requires forall t: nat :: i < t < k ==> !PlaceholderAt(line, t)
    ensures LastPlaceholder(line, k) == Some(i)
  {
    if k - 1 != i {
      LastPlaceholderFrom(line, k - 1, i);
    }
  }

  /** A string without `$` has no placeholder and comes back unchanged. */
  lemma NoDollarUnchanged(s: string, env: map<string, string>)
    requires '$' !in s
    ensures SubstituteEnvVar(s, env) == s
  {
    var line := FirstLine(s);
    forall t: nat | t < |line|
      ensures !PlaceholderAt(line, t)
    {
      assert line[t] == s[t];
    }
    LastPlaceholderNone(line, |line|);
  }

  /** One placeholder between text without `$` on a single line: replaced by the
      variable's value, or by `{env.NAME}` when the variable is not set. */
  lemma SinglePlaceholder(a: string, name: string, b: string, env: map<string, string>)
    requires '$' !in a && '$' !in b && '\n' !in a && '\n' !in b
    requires forall c | c in name :: NameChar(c)
    ensures SubstituteEnvVar(a + "${env." + name + "}" + b, env) == a + EnvValue(name, env) + b
  {
    var s := a + "${env." + name + "}" + b;
    var j := |a| + 6 + |name|;
    PlaceholderLayout(a, name, b);
    assert s[..|a|] == a && s[|a| + 6..j] == name && s[j + 1..] == b;
    SubstituteOnLine(s, |a|, j, env);
    NoDollarUnchanged(a, env);
  }

  /** The recursive step on a single line: when the last `$` starts a placeholder
      at i, the text before it is substituted again, the variable is replaced
      and the rest of the line is kept. */
  lemma SubstituteOnLine(s: string, i: nat, j: nat, env: map<string, string>)
    requires '\n' !in s && i + 6 <= j < |s| && s[j] == '}'
    requires s[i] == '$' && s[i + 1] == '{' && s[i + 2] == 'e' && s[i + 3] == 'n' && s[i + 4] == 'v'
    requires forall n :: i + 6 <= n < j ==> NameChar(s[n])
    requires forall t :: i < t < |s| ==> s[t] != '$'
    ensures SubstituteEnvVar(s, env) == SubstituteEnvVar(s[..i], env) + EnvValue(s[i + 6..j], env) + s[j + 1..]
  {
    FirstLineWhole(s);
    NameEndAt(s, i + 6, j);
    assert PlaceholderAt(s, i);
    LastPlaceholderFrom(s, |s|, i);
    SubstitutedAt(s, i, j, env);
  }

  /** Substituted once the placeholder's closing brace is known to sit at j. */
  lemma SubstitutedAt(line: string, i: nat, j: nat, env: map<string, string>)
    requires PlaceholderAt(line, i) && NameEnd(line, i + 6) == j
    ensures Substituted(line, i, env) == SubstituteEnvVar(line[..i], env) + EnvValue(line[i + 6..j], env) + line[j + 1..]
  {
  }

  /** Two placeholders on one line, `a${env.A}m${env.B}b`: each is replaced, and
      the text around them is kept. */
  lemma TwoPlaceholders(a: string, first: string, m: string, second: string, b: string, env: map<string, string>)
    requires '$' !in a && '$' !in m && '$' !in b && '\n' !in a && '\n' !in m && '\n' !in b
    requires forall c | c in first :: NameChar(c)
    requires forall c | c in second :: NameChar(c)
    ensures SubstituteEnvVar(a + "${env." + first + "}" + m + "${env." + second + "}" + b, env)
            == a + EnvValue(first, env) + m + EnvValue(second, env) + b
  {
    var prefix := a + "${env." + first + "}" + m;
    PlaceholderLayout(a, first, m);
    SinglePlaceholder(a, first, m, env);
    SecondPlaceholder(prefix, second, b, env);
  }

  /** The last placeholder of a line, after any prefix: the prefix is
      substituted on its own. */
  lemma SecondPlaceholder(prefix: string, name: string, b: string, env: map<string, string>)
    requires '$' !in b && '\n' !in prefix && '\n' !in b
    requires forall c | c in name :: NameChar(c)
    ensures SubstituteEnvVar(prefix + "${env." + name + "}" + b, env)
            == SubstituteEnvVar(prefix, env) + EnvValue(name, env) + b
  {
    var s := prefix + "${env." + name + "}" + b;
    var j := |prefix| + 6 + |name|;
    PlaceholderLayout(prefix, name, b);
    assert s[..|prefix|] == prefix && s[|prefix| + 6..j] == name && s[j + 1..] == b;
    SubstituteOnLine(s, |prefix|, j, env);
  }

  /** Where the parts of `a${env.NAME}b` sit. */
  lemma PlaceholderLayout(a: string, name: string, b: string)
    requires '$' !in b && '\n' !in a && '\n' !in b
    requires forall c | c in name :: NameChar(c)
    ensures var s := a + "${env." + name + "}" + b;
      var i := |a|;
      var j := i + 6 + |name|;
      && |s| == j + 1 + |b| && '\n' !in s
      && s[..i] == a && s[i + 6..j] == name && s[j] == '}' && s[j + 1..] == b
      && s[i] == '$' && s[i + 1] == '{' && s[i + 2] == 'e' && s[i + 3] == 'n' && s[i + 4] == 'v'
      && (forall n :: i + 6 <= n < j ==> NameChar(s[n]))
      && (forall k :: i < k < |s| ==> s[k] != '$')
  {
    var mid := "${env." + name + "}";
    var s := a + mid + b;
    assert s == a + (mid + b);
    assert forall n :: 0 <= n < |mid| ==> s[|a| + n] == mid[n];
    assert forall n :: 0 <= n < |b| ==> s[|a| + |mid| + n] == b[n];
    assert forall n :: 6 <= n < 6 + |name| ==> mid[n] == name[n - 6];
    forall n | 0 <= n < |name|
      ensures name[n] != '$'
    {
      assert name[n] in name;
    }
  }

  lemma FirstLineWhole(s: string)
    requires '\n' !in s
    ensures FirstLine(s) == s
  {
  }

  lemma {:induction false} NameEndAt(line: string, k: nat, j: nat)
    requires k <= j < |line|
    requires forall n :: k <= n < j ==> NameChar(line[n])
    requires !NameChar(line[j])
    ensures NameEnd(line, k) == j
    decreases j - k
  {
    if k < j {
      NameEndAt(line, k + 1, j);
    }
  }

  lemma {:induction false} LineEndAt(s: string, k: nat, e: nat)
    requires k <= e < |s| && s[e] == '\n'
    requires forall n :: k <= n < e ==> s[n] != '\n'
    ensures LineEnd(s, k) == e
    decreases e - k
  {
    if k < e {
      LineEndAt(s, k + 1, e);
    }
  }

  /** `.` does not cross a newline: once the first line holds a placeholder,
      everything after that line is dropped from the result. */
  lemma LaterLinesDropped(l: string, r1: string, r2: string, env: map<string, string>)
    requires '\n' !in l && LastPlaceholder(l, |l|).Some?
    ensures SubstituteEnvVar(l + "\n" + r1, env) == SubstituteEnvVar(l + "\n" + r2, env)
  {
    FirstLineBreak(l, r1);
    FirstLineBreak(l, r2);
  }

  lemma FirstLineBreak(l: string, r: string)
    requires '\n' !in l
    ensures FirstLine(l + "\n" + r) == l
  {
    var s := l + "\n" + r;
    assert forall n :: 0 <= n < |l| ==> s[n] == l[n];
    LineEndAt(s, 0, |l|);
    assert s[..|l|] == l;
  }
}
