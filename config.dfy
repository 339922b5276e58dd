/** The configuration store of src/toast/config.c: the `Config` record of
    include/config.h, its default values (init_config), its normalising
    mapping to a JSON tree (write_config) and the validating mapping back
    (read_config). */
module Config {
  import opened Wrappers
  import opened JsonTree
  import opened LibC

  /** DEFAULT_LEVEL: the gzip quality used when none usable is stored. */
  const DefaultLevel: Uint32 := 6
  const DefaultIp: string := "127.0.0.1"
  const DefaultPort: Uint32 := 8080
  /** The ip buffer holds 16 bytes, so 15 characters and a NUL. */
  const IpMax: nat := 15
  /** Path buffers hold 1024 bytes, so 1023 characters and a NUL. */
  const PathMax: nat := 1023

  /** The log_type enum; `OtherTag` stands for a stored tag that is none of
      the three enumerators, which C allows the field to hold. */
  datatype LogType = File | Console | Both | OtherTag

  /** A NULL `char *` is `None`. */
  datatype NetworkConfig = NetworkConfig(ip: Option<string>, port: Uint32)
  datatype CompressionConfig = CompressionConfig(enabled: bool, quality: Uint32, minSize: Uint32)
  datatype SslConfig = SslConfig(enabled: bool, memCached: bool, certPath: Option<string>, keyPath: Option<string>)
  datatype Config = Config(
    siteRoot: string,
    logType: LogType,
    network: NetworkConfig,
    compression: CompressionConfig,
    ssl: SslConfig)

  /** The record init_config fills in. */
  function Defaults(): Config {
    Config(
      "site/",
      Both,
      NetworkConfig(Some(DefaultIp), DefaultPort),
      CompressionConfig(true, DefaultLevel, 150),
      SslConfig(false, false, None, None))
  }

  // ---------------------------------------------------------------------
  // write_config: the normalisation rules and the document written
  // ---------------------------------------------------------------------

  function LogTypeName(t: LogType): (r: Option<string>)
    ensures r.Some? <==> !t.OtherTag?
  {
    match t
    case Both => Some("both")
    case File => Some("file")
    case Console => Some("console")
    case OtherTag => None
  }

  /** A NULL ip is written as the loopback address. */
  function WrittenIp(ip: Option<string>): (r: string)
    ensures ip.None? ==> r == DefaultIp
    ensures ip.Some? ==> r == ip.value
  {
    ip.GetOr(DefaultIp)
  }

  /** The port written: always a usable TCP port, and the stored one when it is usable. */
  function WrittenPort(port: Uint32): (r: Uint32)
    ensures 1 <= r <= 65535
    ensures 1 <= port <= 65535 ==> r == port
    ensures !(1 <= port <= 65535) ==> r == DefaultPort
  {
    if port == 0 || port > 65535 then DefaultPort else port
  }

  /** The quality written: a gzip level 0..9 that is never 0 when compression is
      on; a stored level that already satisfies this is written unchanged, and
      any other one is replaced by the default level 6. */
  function WrittenQuality(c: CompressionConfig): (r: Uint32)
    ensures r <= 9
    ensures c.enabled ==> r != 0
    ensures c.quality <= 9 && (c.enabled ==> c.quality != 0) ==> r == c.quality
    ensures c.quality > 9 ==> r == DefaultLevel
    ensures c.quality == 0 && c.enabled ==> r == DefaultLevel
  {
    if c.quality > 9 then DefaultLevel
    else if c.quality == 0 && c.enabled then DefaultLevel
    else c.quality
  }

  /** A NULL certificate or key path is written as "". */
  function WrittenPath(p: Option<string>): (r: string)
    ensures p.None? ==> r == ""
    ensures p.Some? ==> r == p.value
  {
    p.GetOr("")
  }

  /** ssl.enabled as written: forced off unless both paths are present. */
  function WrittenSslEnabled(s: SslConfig): (r: bool)
    ensures r ==> s.certPath.Some? && s.keyPath.Some?
    ensures s.certPath.Some? && s.keyPath.Some? ==> r == s.enabled
  {
    if s.certPath.None? || s.keyPath.None? then false else s.enabled
  }

  /** The "network" object write_config builds (config.c:107-116). */
  function NetworkDocument(n: NetworkConfig): Json {
    JObj(map[
      "ip" := JStr(WrittenIp(n.ip)),
      "port" := JInt(WrittenPort(n.port))])
  }

  /** The "compression" object write_config builds (config.c:118-135). */
  function CompressionDocument(c: CompressionConfig): Json {
    JObj(map[
      "enabled" := JBool(c.enabled),
      "quality" := JInt(WrittenQuality(c)),
      "min_size" := JInt(c.minSize)])
  }

  /** The "ssl" object write_config builds (config.c:137-161). */
  function SslDocument(s: SslConfig): Json {
    JObj(map[
      "enabled" := JBool(WrittenSslEnabled(s)),
      "mem_cached" := JBool(s.memCached),
      "cert_path" := JStr(WrittenPath(s.certPath)),
      "key_path" := JStr(WrittenPath(s.keyPath))])
  }

  /** The JSON tree write_config hands to json_dumpf for a record whose
      log_type is one of the three enumerators. */
  function Document(c: Config): Json
    requires !c.logType.OtherTag?
  {
    JObj(map[
      "site_root" := JStr(c.siteRoot),
      "log_type" := JStr(LogTypeName(c.logType).value),
      "network" := NetworkDocument(c.network),
      "compression" := CompressionDocument(c.compression),
      "ssl" := SslDocument(c.ssl)])
  }

  /** The record a written document describes: each field as write_config
      normalises it. */
  function Normalise(c: Config): Config {
    c.(
      network := NetworkConfig(Some(WrittenIp(c.network.ip)), WrittenPort(c.network.port)),
      compression := c.compression.(quality := WrittenQuality(c.compression)),
      ssl := c.ssl.(
        enabled := WrittenSslEnabled(c.ssl),
        certPath := Some(WrittenPath(c.ssl.certPath)),
        keyPath := Some(WrittenPath(c.ssl.keyPath))))
  }

  /** A record already in the form write_config produces. */
  predicate Normal(c: Config) {
    && c.network.ip.Some?
    && 1 <= c.network.port <= 65535
    && c.compression.quality <= 9
    && (c.compression.enabled ==> c.compression.quality != 0)
    && c.ssl.certPath.Some?
    && c.ssl.keyPath.Some?
  }

  /** Every record is written in normal form. */
  lemma NormaliseIsNormal(c: Config)
    ensures Normal(Normalise(c))
  {
  }

  /** A record in normal form is written field for field as it is stored. */
  lemma NormalIsWrittenAsIs(c: Config)
    requires Normal(c)
    ensures Normalise(c) == c
  {
  }

  /** Writing the normalised record gives the same document: normalisation
      loses nothing write_config would have kept. */
  lemma DocumentOfNormalise(c: Config)
    requires !c.logType.OtherTag?
    ensures Document(Normalise(c)) == Document(c)
  {
  }

  /** What write_config returns, and the document it writes when it succeeds.
      `dirReady` is whether the config directory exists or could be created;
      a null `config` stands for a NULL argument. */
  method WriteConfig(dirReady: bool, config: ConfigRecord?) returns (rc: int, doc: Option<Json>)
    ensures rc == 0 || rc == -1
    ensures rc == 0 <==> dirReady && config != null && !config.logType.OtherTag?
    ensures rc == 0 ==> doc == Some(Document(config.Value()))
    ensures rc != 0 ==> doc == None
  {
    if !dirReady {
      return -1, None;
    }
    if config == null {
      return -1, None;
    }
    var root: map<string, Json> := map[];
    root := root["site_root" := JStr(config.siteRoot)];
    match config.logType {
      case Both => root := root["log_type" := JStr("both")];
      case File => root := root["log_type" := JStr("file")];
      case Console => root := root["log_type" := JStr("console")];
      case OtherTag => return -1, None;
    }
    var network := WriteNetwork(config.network);
    var compression := WriteCompression(config.compression);
    var ssl := WriteSsl(config.ssl);
    root := root["network" := network];
    root := root["compression" := compression];
    root := root["ssl" := ssl];
    rc, doc := 0, Some(JObj(root));
  }

  /** The "network" object, member by member as config.c:107-116 sets them. */
  method WriteNetwork(n: NetworkConfig) returns (obj: Json)
    ensures obj == NetworkDocument(n)
  {
    var network: map<string, Json> := map[];
    if n.ip.None? {
      network := network["ip" := JStr(DefaultIp)];
    } else {
      network := network["ip" := JStr(n.ip.value)];
    }
    if n.port == 0 || n.port > 65535 {
      network := network["port" := JInt(DefaultPort)];
    } else {
      network := network["port" := JInt(n.port)];
    }
    obj := JObj(network);
  }

  /** The "compression" object, member by member as config.c:118-135 sets them. */
  method WriteCompression(c: CompressionConfig) returns (obj: Json)
    ensures obj == CompressionDocument(c)
  {
    var compression: map<string, Json> := map[];
    if c.enabled {
      compression := compression["enabled" := JBool(true)];
    } else {
      compression := compression["enabled" := JBool(false)];
    }
    if c.quality > 9 {
      compression := compression["quality" := JInt(DefaultLevel)];
    } else if c.quality == 0 && c.enabled {
      compression := compression["quality" := JInt(DefaultLevel)];
    } else {
      compression := compression["quality" := JInt(c.quality)];
    }
    compression := compression["min_size" := JInt(c.minSize)];
    obj := JObj(compression);
  }

  /** The "ssl" object, member by member as config.c:137-161 sets them: a
      missing path is written as "" and overwrites "enabled" with false. */
  method WriteSsl(s: SslConfig) returns (obj: Json)
    ensures obj == SslDocument(s)
  {
    var ssl: map<string, Json> := map[];
    if s.enabled {
      ssl := ssl["enabled" := JBool(true)];
    } else {
      ssl := ssl["enabled" := JBool(false)];
    }
    if s.memCached {
      ssl := ssl["mem_cached" := JBool(true)];
    } else {
      ssl := ssl["mem_cached" := JBool(false)];
    }
    if s.certPath.None? {
      ssl := ssl["cert_path" := JStr("")];
      ssl := ssl["enabled" := JBool(false)];
    } else {
      ssl := ssl["cert_path" := JStr(s.certPath.value)];
    }
    if s.keyPath.None? {
      ssl := ssl["key_path" := JStr("")];
      ssl := ssl["enabled" := JBool(false)];
    } else {
      ssl := ssl["key_path" := JStr(s.keyPath.value)];
    }
    obj := JObj(ssl);
  }

  // ---------------------------------------------------------------------
  // read_config: validation of a JSON tree
  // ---------------------------------------------------------------------

  /** Why read_config returned -1.  `FieldError` is the (category, field) pair
      handle_parse_err reports; `NotAnObject` is a section that is missing or
      not an object, which is rejected without a diagnostic. */
  datatype ReadError =
    | FieldError(category: string, field: string)
    | NotAnObject(section: string)

  /** The log_type decoding: a case-insensitive comparison of the first four
      characters with "both", then with "file"; anything else is Console. */
  function DecodeLogType(s: string): (r: LogType)
    ensures r == Both <==> |s| >= 4 && Lowered(s[..4]) == "both"
    ensures r == File <==> r != Both && |s| >= 4 && Lowered(s[..4]) == "file"
    ensures r != OtherTag
  {
    StrNCaseEqPrefix("both", s, 4);
    StrNCaseEqPrefix("file", s, 4);
    assert Lowered("both"[..4]) == "both";
    assert Lowered("file"[..4]) == "file";
    if StrNCaseEq("both", s, 4) then Both
    else if StrNCaseEq("file", s, 4) then File
    else Console
  }

  /** The three names write_config uses decode to the tag they name. */
  lemma LogTypeNameRoundTrip(t: LogType)
    requires !t.OtherTag?
    ensures DecodeLogType(LogTypeName(t).value) == t
  {
    assert Lowered("console"[..4]) == "cons";
  }

  /** The validation read_config performs, field by field in the source's
      order; the first field that is missing or of the wrong JSON type is the
      error.  Strings are cut to their buffer sizes and integers converted to
      `unsigned int`. */
  function Decode(root: Json, minSizeFromQuality: bool): (r: Result<Config, ReadError>)
    ensures r.Ok? ==> |r.value.siteRoot| <= PathMax && !r.value.logType.OtherTag?
    ensures r.Ok? ==> r.value.network.ip.Some? && |r.value.network.ip.value| <= IpMax
    ensures r.Ok? ==> r.value.ssl.certPath.Some? && |r.value.ssl.certPath.value| <= PathMax
    ensures r.Ok? ==> r.value.ssl.keyPath.Some? && |r.value.ssl.keyPath.value| <= PathMax
    ensures r.Ok? && minSizeFromQuality ==> r.value.compression.minSize == r.value.compression.quality
  {
    var siteRoot :- StringAt(root, "site_root").ToResult(FieldError("root", "site_root"));
    var logName :- StringAt(root, "log_type").ToResult(FieldError("root", "log_type"));
    var network :- DecodeNetwork(root);
    var compression :- DecodeCompression(root, minSizeFromQuality);
    var ssl :- DecodeSsl(root);
    Ok(Config(Truncate(siteRoot, PathMax), DecodeLogType(logName), network, compression, ssl))
  }

  /** config.c:244-281: the "network" object, its ip (cut to 15 characters)
      and its port (whose error is labelled with category "root"). */
  function DecodeNetwork(root: Json): (r: Result<NetworkConfig, ReadError>)
    ensures r.Ok? ==> r.value.ip.Some? && |r.value.ip.value| <= IpMax
  {
    var network :- ObjectAt(root, "network").ToResult(NotAnObject("network"));
    var ip :- StringAt(network, "ip").ToResult(FieldError("network", "ip"));
    var port :- IntAt(network, "port").ToResult(FieldError("root", "port"));
    Ok(NetworkConfig(Some(Truncate(ip, IpMax)), ToUnsigned(port)))
  }

  /** config.c:283-332: the "compression" object.  The min_size check inspects
      the "min_size" member, but when `minSizeFromQuality` holds the value
      stored is that of the "quality" member, as config.c:325 does. */
  function DecodeCompression(root: Json, minSizeFromQuality: bool): (r: Result<CompressionConfig, ReadError>)
    ensures r.Ok? && minSizeFromQuality ==> r.value.minSize == r.value.quality
  {
    var compression :- ObjectAt(root, "compression").ToResult(NotAnObject("compression"));
    var enabled :- BoolAt(compression, "enabled").ToResult(FieldError("compression", "enabled"));
    var quality :- IntAt(compression, "quality").ToResult(FieldError("compression", "quality"));
    var minSize :- IntAt(compression, "min_size").ToResult(FieldError("compression", "min_size"));
    Ok(CompressionConfig(enabled, ToUnsigned(quality), ToUnsigned(if minSizeFromQuality then quality else minSize)))
  }

  /** config.c:334-413: the "ssl" object; both paths are cut to 1023 characters. */
  function DecodeSsl(root: Json): (r: Result<SslConfig, ReadError>)
    ensures r.Ok? ==> r.value.certPath.Some? && |r.value.certPath.value| <= PathMax
    ensures r.Ok? ==> r.value.keyPath.Some? && |r.value.keyPath.value| <= PathMax
  {
    var ssl :- ObjectAt(root, "ssl").ToResult(NotAnObject("ssl"));
    var enabled :- BoolAt(ssl, "enabled").ToResult(FieldError("ssl", "enabled"));
    var memCached :- BoolAt(ssl, "mem_cached").ToResult(FieldError("ssl", "mem_cached"));
    var certPath :- StringAt(ssl, "cert_path").ToResult(FieldError("ssl", "cert_path"));
    var keyPath :- StringAt(ssl, "key_path").ToResult(FieldError("ssl", "key_path"));
    Ok(SslConfig(enabled, memCached, Some(Truncate(certPath, PathMax)), Some(Truncate(keyPath, PathMax))))
  }

  /** read_config as written (config.c:325 stores the quality value as min_size). */
  function ReadConfig(root: Json): Result<Config, ReadError> {
    Decode(root, true)
  }

  /** read_config with min_size taken from its own member. */
  function ReadConfigFixed(root: Json): Result<Config, ReadError> {
    Decode(root, false)
  }

  // ---------------------------------------------------------------------
  // The order of the checks, as a table
  // ---------------------------------------------------------------------

  datatype Kind = AString | AnInteger | ABoolean | AnObject

  /** One check of read_config: the member at `path` must have `kind`,
      otherwise the load fails with `failure`. */
  datatype Check = Check(path: seq<string>, kind: Kind, failure: ReadError)

  predicate HasKind(v: Json, k: Kind) {
    match k
    case AString => v.JStr?
    case AnInteger => v.JInt?
    case ABoolean => v.JBool?
    case AnObject => v.JObj?
  }

  predicate Passes(root: Json, c: Check) {
    match Lookup(root, c.path)
    case None => false
    case Some(v) => HasKind(v, c.kind)
  }

  /** The fix changes nothing but min_size: both readings accept the same
      documents, and the one as written stores the quality as min_size. */
  lemma FixChangesOnlyMinSize(root: Json)
    ensures ReadConfig(root).Ok? <==> ReadConfigFixed(root).Ok?
    ensures ReadConfig(root).Ok? ==>
              ReadConfig(root).value ==
                ReadConfigFixed(root).value.(compression :=
                  ReadConfigFixed(root).value.compression.(minSize := ReadConfigFixed(root).value.compression.quality))
  {
    DecodeSteps(root, true);
    DecodeSteps(root, false);
    CompressionFix(root);
  }

  lemma CompressionFix(root: Json)
    ensures DecodeCompression(root, true).Ok? <==> DecodeCompression(root, false).Ok?
    ensures DecodeCompression(root, true).Ok? ==>
              DecodeCompression(root, true).value ==
                DecodeCompression(root, false).value.(minSize := DecodeCompression(root, false).value.quality)
    ensures DecodeCompression(root, true).Err? ==>
              DecodeCompression(root, true).error == DecodeCompression(root, false).error
  {
  }

  /** The checks of config.c:211-413 in the order they run, each with the
      error it reports. */
  const Schema: seq<Check> := RootChecks + (NetworkChecks + (CompressionChecks + SslChecks))

  const RootChecks: seq<Check> := [
    Check(["site_root"], AString, FieldError("root", "site_root")),
    Check(["log_type"], AString, FieldError("root", "log_type"))]

  const NetworkChecks: seq<Check> := [
    Check(["network"], AnObject, NotAnObject("network")),
    Check(["network", "ip"], AString, FieldError("network", "ip")),
    Check(["network", "port"], AnInteger, FieldError("root", "port"))]

  const CompressionChecks: seq<Check> := [
    Check(["compression"], AnObject, NotAnObject("compression")),
    Check(["compression", "enabled"], ABoolean, FieldError("compression", "enabled")),
    Check(["compression", "quality"], AnInteger, FieldError("compression", "quality")),
    Check(["compression", "min_size"], AnInteger, FieldError("compression", "min_size"))]

  const SslChecks: seq<Check> := [
    Check(["ssl"], AnObject, NotAnObject("ssl")),
    Check(["ssl", "enabled"], ABoolean, FieldError("ssl", "enabled")),
    Check(["ssl", "mem_cached"], ABoolean, FieldError("ssl", "mem_cached")),
    Check(["ssl", "cert_path"], AString, FieldError("ssl", "cert_path")),
    Check(["ssl", "key_path"], AString, FieldError("ssl", "key_path"))]

  /** The error of the first check in the list that fails, if any. */
  function FirstFailure(root: Json, checks: seq<Check>): Option<ReadError> {
    if checks == [] then None
    else if !Passes(root, checks[0]) then Some(checks[0].failure)
    else FirstFailure(root, checks[1..])
  }

  /** Running two lists of checks one after the other. */
  lemma {:induction false} FirstFailureAppend(root: Json, a: seq<Check>, b: seq<Check>)
    ensures FirstFailure(root, a + b) ==
              if FirstFailure(root, a).Some? then FirstFailure(root, a) else FirstFailure(root, b)
  {
    if a != [] {
      assert (a + b)[1..] == a[1..] + b;
      FirstFailureAppend(root, a[1..], b);
    } else {
      assert a + b == b;
    }
  }

  /** One step of FirstFailure, at position k of a list. */
  lemma FirstFailureAt(root: Json, checks: seq<Check>, k: nat)
    requires k < |checks|
    ensures FirstFailure(root, checks[k..]) ==
              if !Passes(root, checks[k]) then Some(checks[k].failure) else FirstFailure(root, checks[k + 1..])
  {
    assert checks[k..][1..] == checks[k + 1..];
  }

  /** What the result of a section decoder says about its checks. */
  predicate Agrees<T>(r: Result<T, ReadError>, f: Option<ReadError>) {
    (r.Err? <==> f.Some?) && (r.Err? ==> r.error == f.value)
  }

  lemma NetworkChecksAgree(root: Json)
    ensures Agrees(DecodeNetwork(root), FirstFailure(root, NetworkChecks))
  {
    LookupTop(root, "network");
    LookupNested(root, "network", "ip");
    LookupNested(root, "network", "port");
    FirstFailureAt(root, NetworkChecks, 0);
    FirstFailureAt(root, NetworkChecks, 1);
    FirstFailureAt(root, NetworkChecks, 2);
    assert NetworkChecks[0..] == NetworkChecks && NetworkChecks[3..] == [];
  }

  lemma CompressionChecksAgree(root: Json, minSizeFromQuality: bool)
    ensures Agrees(DecodeCompression(root, minSizeFromQuality), FirstFailure(root, CompressionChecks))
  {
    LookupTop(root, "compression");
    LookupNested(root, "compression", "enabled");
    LookupNested(root, "compression", "quality");
    LookupNested(root, "compression", "min_size");
    FirstFailureAt(root, CompressionChecks, 0);
    FirstFailureAt(root, CompressionChecks, 1);
    FirstFailureAt(root, CompressionChecks, 2);
    FirstFailureAt(root, CompressionChecks, 3);
    assert CompressionChecks[0..] == CompressionChecks && CompressionChecks[4..] == [];
  }

  lemma SslChecksAgree(root: Json)
    ensures Agrees(DecodeSsl(root), FirstFailure(root, SslChecks))
  {
    LookupTop(root, "ssl");
    LookupNested(root, "ssl", "enabled");
    LookupNested(root, "ssl", "mem_cached");
    LookupNested(root, "ssl", "cert_path");
    LookupNested(root, "ssl", "key_path");
    FirstFailureAt(root, SslChecks, 0);
    FirstFailureAt(root, SslChecks, 1);
    FirstFailureAt(root, SslChecks, 2);
    FirstFailureAt(root, SslChecks, 3);
    FirstFailureAt(root, SslChecks, 4);
    assert SslChecks[0..] == SslChecks && SslChecks[5..] == [];
  }

  /** Decode as a chain of tests, one per section, in order. */
  lemma DecodeSteps(root: Json, minSizeFromQuality: bool)
    ensures Decode(root, minSizeFromQuality) ==
              if StringAt(root, "site_root").None? then Err(FieldError("root", "site_root"))
              else if StringAt(root, "log_type").None? then Err(FieldError("root", "log_type"))
              else if DecodeNetwork(root).Err? then Err(DecodeNetwork(root).error)
              else if DecodeCompression(root, minSizeFromQuality).Err? then
                Err(DecodeCompression(root, minSizeFromQuality).error)
              else if DecodeSsl(root).Err? then Err(DecodeSsl(root).error)
              else Ok(Config(Truncate(StringAt(root, "site_root").value, PathMax),
                             DecodeLogType(StringAt(root, "log_type").value),
                             DecodeNetwork(root).value,
                             DecodeCompression(root, minSizeFromQuality).value,
                             DecodeSsl(root).value))
  {
  }

  lemma SectionChecksFailure(root: Json, minSizeFromQuality: bool)
    ensures FirstFailure(root, NetworkChecks + (CompressionChecks + SslChecks)) ==
              if DecodeNetwork(root).Err? then Some(DecodeNetwork(root).error)
              else if DecodeCompression(root, minSizeFromQuality).Err? then
                Some(DecodeCompression(root, minSizeFromQuality).error)
              else if DecodeSsl(root).Err? then Some(DecodeSsl(root).error)
              else None
  {
    NetworkChecksAgree(root);
    CompressionChecksAgree(root, minSizeFromQuality);
    SslChecksAgree(root);
    FirstFailureAppend(root, CompressionChecks, SslChecks);
    FirstFailureAppend(root, NetworkChecks, CompressionChecks + SslChecks);
  }

  lemma RootChecksFailure(root: Json)
    ensures FirstFailure(root, RootChecks) ==
              if StringAt(root, "site_root").None? then Some(FieldError("root", "site_root"))
              else if StringAt(root, "log_type").None? then Some(FieldError("root", "log_type"))
              else None
  {
    LookupTop(root, "site_root");
    LookupTop(root, "log_type");
    FirstFailureAt(root, RootChecks, 0);
    FirstFailureAt(root, RootChecks, 1);
    assert RootChecks[0..] == RootChecks && RootChecks[2..] == [];
  }

  /** read_config fails exactly when some check of the table fails, and then
      with the error of the first failing one. */
  lemma ReadConfigReportsFirstFailure(root: Json, minSizeFromQuality: bool)
    ensures Decode(root, minSizeFromQuality).Err? <==> FirstFailure(root, Schema).Some?
    ensures Decode(root, minSizeFromQuality).Err? ==>
              Decode(root, minSizeFromQuality).error == FirstFailure(root, Schema).value
  {
    DecodeSteps(root, minSizeFromQuality);
    RootChecksFailure(root);
    SectionChecksFailure(root, minSizeFromQuality);
    FirstFailureAppend(root, RootChecks, NetworkChecks + (CompressionChecks + SslChecks));
  }

  lemma LookupTop(root: Json, key: string)
    ensures Lookup(root, [key]) == Get(root, key)
  {
    if Get(root, key).Some? {
      assert [key][1..] == [];
    }
  }

  lemma LookupNested(root: Json, section: string, key: string)
    ensures Lookup(root, [section, key]) ==
              match Get(root, section) case None => None case Some(child) => Get(child, key)
  {
    if Get(root, section).Some? {
      assert [section, key][1..] == [key];
      LookupTop(Get(root, section).value, key);
    }
  }

  // ---------------------------------------------------------------------
  // Writing, then reading back
  // ---------------------------------------------------------------------

  /** Strings short enough to pass read_config's buffers uncut. */
  predicate FitsBuffers(c: Config) {
    && |c.siteRoot| <= PathMax
    && (c.network.ip.Some? ==> |c.network.ip.value| <= IpMax)
    && (c.ssl.certPath.Some? ==> |c.ssl.certPath.value| <= PathMax)
    && (c.ssl.keyPath.Some? ==> |c.ssl.keyPath.value| <= PathMax)
  }

  function CutOption(s: Option<string>, max: nat): Option<string> {
    if s.Some? then Some(Truncate(s.value, max)) else None
  }

  /** What read_config's fixed-size buffers keep of each string: the longest
      prefix that fits, every other field as it was. */
  function Cut(c: Config): (r: Config)
    ensures FitsBuffers(r)
    ensures r.logType == c.logType && r.network.port == c.network.port
    ensures r.compression == c.compression
    ensures r.ssl.enabled == c.ssl.enabled && r.ssl.memCached == c.ssl.memCached
    ensures LongestPrefixWithin(r.siteRoot, c.siteRoot, PathMax)
    ensures r.network.ip.Some? == c.network.ip.Some?
    ensures c.network.ip.Some? ==> LongestPrefixWithin(r.network.ip.value, c.network.ip.value, IpMax)
    ensures r.ssl.certPath.Some? == c.ssl.certPath.Some?
    ensures c.ssl.certPath.Some? ==> LongestPrefixWithin(r.ssl.certPath.value, c.ssl.certPath.value, PathMax)
    ensures r.ssl.keyPath.Some? == c.ssl.keyPath.Some?
    ensures c.ssl.keyPath.Some? ==> LongestPrefixWithin(r.ssl.keyPath.value, c.ssl.keyPath.value, PathMax)
  {
    c.(
      siteRoot := Truncate(c.siteRoot, PathMax),
      network := c.network.(ip := CutOption(c.network.ip, IpMax)),
      ssl := c.ssl.(
        certPath := CutOption(c.ssl.certPath, PathMax),
        keyPath := CutOption(c.ssl.keyPath, PathMax)))
  }

  /** Cutting leaves strings that fit the buffers as they are. */
  lemma CutKeepsFitting(c: Config)
    requires FitsBuffers(c)
    ensures Cut(c) == c
  {
  }

  /** Reading back a written document section by section. */
  lemma ReadBackSections(c: Config, minSizeFromQuality: bool)
    requires !c.logType.OtherTag?
    ensures DecodeNetwork(Document(c)) == Ok(Cut(Normalise(c)).network)
    ensures DecodeCompression(Document(c), minSizeFromQuality) ==
              Ok(Normalise(c).compression.(minSize :=
                   if minSizeFromQuality then WrittenQuality(c.compression) else c.compression.minSize))
    ensures DecodeSsl(Document(c)) == Ok(Cut(Normalise(c)).ssl)
  {
    ReadBackNetwork(c);
    ReadBackCompression(c, minSizeFromQuality);
    ReadBackSsl(c);
  }

  lemma ReadBackRoot(c: Config)
    requires !c.logType.OtherTag?
    ensures StringAt(Document(c), "site_root") == Some(c.siteRoot)
    ensures StringAt(Document(c), "log_type") == Some(LogTypeName(c.logType).value)
    ensures DecodeLogType(LogTypeName(c.logType).value) == c.logType
  {
    LogTypeNameRoundTrip(c.logType);
  }

  lemma ReadBackNetwork(c: Config)
    requires !c.logType.OtherTag?
    ensures DecodeNetwork(Document(c)) == Ok(Cut(Normalise(c)).network)
  {
    assert ObjectAt(Document(c), "network") == Some(NetworkDocument(c.network));
  }

  lemma ReadBackCompression(c: Config, minSizeFromQuality: bool)
    requires !c.logType.OtherTag?
    ensures DecodeCompression(Document(c), minSizeFromQuality) ==
              Ok(Normalise(c).compression.(minSize :=
                   if minSizeFromQuality then WrittenQuality(c.compression) else c.compression.minSize))
  {
    assert ObjectAt(Document(c), "compression") == Some(CompressionDocument(c.compression));
  }

  lemma ReadBackSsl(c: Config)
    requires !c.logType.OtherTag?
    ensures DecodeSsl(Document(c)) == Ok(Cut(Normalise(c)).ssl)
  {
    var ssl := SslDocument(c.ssl);
    assert ObjectAt(Document(c), "ssl") == Some(ssl);
    assert BoolAt(ssl, "enabled") == Some(WrittenSslEnabled(c.ssl));
    assert BoolAt(ssl, "mem_cached") == Some(c.ssl.memCached);
    assert StringAt(ssl, "cert_path") == Some(WrittenPath(c.ssl.certPath));
    assert StringAt(ssl, "key_path") == Some(WrittenPath(c.ssl.keyPath));
  }

  /** With min_size read from its own member, reading back what write_config
      wrote gives the normalised record, its strings cut to the buffers. */
  lemma ReadBackFixed(c: Config)
    requires !c.logType.OtherTag?
    ensures ReadConfigFixed(Document(c)) == Ok(Cut(Normalise(c)))
  {
    ReadBackRoot(c);
    ReadBackSections(c, false);
    DecodeSteps(Document(c), false);
  }

  /** As written, reading back gives the normalised record, its strings cut
      to the buffers, except that min_size comes back equal to the written
      quality. */
  lemma ReadBackAsWritten(c: Config)
    requires !c.logType.OtherTag?
    ensures ReadConfig(Document(c)) ==
              Ok(Cut(Normalise(c)).(compression := Normalise(c).compression.(minSize := WrittenQuality(c.compression))))
  {
    ReadBackRoot(c);
    ReadBackSections(c, true);
    DecodeSteps(Document(c), true);
  }

  /** An address longer than 15 characters is written whole and read back
      as its first 15 characters. */
  lemma LongAddressCutOnRead(c: Config)
    requires !c.logType.OtherTag? && c.network.ip.Some? && |c.network.ip.value| > IpMax
    ensures NetworkDocument(c.network).members["ip"] == JStr(c.network.ip.value)
    ensures ReadConfig(Document(c)).Ok?
    ensures ReadConfig(Document(c)).value.network.ip == Some(c.network.ip.value[..IpMax])
  {
    ReadBackAsWritten(c);
  }

  /** The round trip of config.c for a record already in normal form: every
      field comes back as stored, except min_size, which comes back equal to
      the quality. */
  lemma RoundTrip(c: Config)
    requires !c.logType.OtherTag? && FitsBuffers(c) && Normal(c)
    ensures ReadConfig(Document(c)) == Ok(c.(compression := c.compression.(minSize := c.compression.quality)))
  {
    ReadBackAsWritten(c);
    NormalIsWrittenAsIs(c);
    CutKeepsFitting(c);
  }

  /** The intended round trip: with min_size read from its own member, a
      record in normal form comes back unchanged. */
  lemma RoundTripFixed(c: Config)
    requires !c.logType.OtherTag? && FitsBuffers(c) && Normal(c)
    ensures ReadConfigFixed(Document(c)) == Ok(c)
  {
    ReadBackFixed(c);
    NormalIsWrittenAsIs(c);
    CutKeepsFitting(c);
  }

  /** With min_size read from its own member, writing what was read back
      rewrites the same document: the written form is a fixed point. */
  lemma RewriteIsStable(c: Config)
    requires !c.logType.OtherTag? && FitsBuffers(c)
    ensures ReadConfigFixed(Document(c)).Ok?
    ensures Document(ReadConfigFixed(Document(c)).value) == Document(c)
  {
    ReadBackFixed(c);
    DocumentOfNormalise(c);
    CutKeepsFitting(Normalise(c));
  }

  /** The defect of config.c:325 on the default record: the min_size of 150
      is read back as 6, so the server compresses responses from 6 bytes on,
      and writing the record read back would give a different document. */
  lemma MinSizeLostOnDefaults()
    ensures ReadConfig(Document(Defaults())).Ok?
    ensures ReadConfig(Document(Defaults())).value.compression.minSize == 6
    ensures Document(ReadConfig(Document(Defaults())).value) != Document(Defaults())
  {
    var d := Defaults();
    ReadBackAsWritten(d);
    CutKeepsFitting(Normalise(d));
    var back := ReadConfig(Document(d)).value;
    assert CompressionDocument(back.compression) != CompressionDocument(d.compression) by {
      assert CompressionDocument(back.compression).members["min_size"] == JInt(6);
    }
    assert Document(back).members["compression"] != Document(d).members["compression"];
  }

  // ---------------------------------------------------------------------
  // The caller's record, filled in place
  // ---------------------------------------------------------------------

  /** The `Config` a caller passes by reference: init_config and read_config
      fill it, parse_args changes some of its fields, write_config reads it. */
  class ConfigRecord {
    var siteRoot: string
    var logType: LogType
    var network: NetworkConfig
    var compression: CompressionConfig
    var ssl: SslConfig

    function Value(): Config
      reads this
    {
      Config(siteRoot, logType, network, compression, ssl)
    }

    /** Storage holding `initial`, whatever it happens to be: it stands for
        the uninitialised `Config server_config` of main.c before
        read_config or init_config fills it. */
    constructor (initial: Config)
      ensures Value() == initial
    {
      siteRoot := initial.siteRoot;
      logType := initial.logType;
      network := initial.network;
      compression := initial.compression;
      ssl := initial.ssl;
    }

    /** init_config: the whole record is replaced by the defaults. */
    method Init()
      modifies this
      ensures Value() == Defaults()
      ensures Value() == Config("site/", Both, NetworkConfig(Some("127.0.0.1"), 8080),
                                CompressionConfig(true, 6, 150), SslConfig(false, false, None, None))
    {
      var ip := "127.0.0.1";
      network := NetworkConfig(Some(ip), 8080);
      compression := CompressionConfig(true, 6, 150);
      ssl := SslConfig(false, false, None, None);
      siteRoot := "site/";
      logType := Both;
    }

    /** read_config: `file` is the parsed config.json, or None when there is no
        readable JSON file.  The record is assigned only once every check has
        passed; on any failure it keeps its old contents.  As config.c:325 is
        written, min_size is stored from the "quality" member (`ReadConfig`);
        `ReadConfigFixed` is the reading that takes it from its own member. */
    method Read(file: Option<Json>) returns (rc: int)
      modifies this
      ensures rc == 0 || rc == -1
      ensures rc == 0 <==> file.Some? && ReadConfig(file.value).Ok?
      ensures rc == 0 ==> Value() == ReadConfig(file.value).value
      ensures rc != 0 ==> Value() == old(Value())
    {
      if file.None? {
        return -1;
      }
      var result := ReadConfig(file.value);
      if result.Err? {
        return -1;
      }
      var c := result.value;
      siteRoot := c.siteRoot;
      logType := c.logType;
      network := c.network;
      compression := c.compression;
      ssl := c.ssl;
      rc := 0;
    }
  }
}
