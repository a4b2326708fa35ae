/**
 * The policy store of the archive cache: one record of nine fields per
 * "emulator \ platform" key, resolved with a three-level fallback (the key, then
 * "All \ All", then the compiled-in defaults), and the global settings, loaded
 * from and saved to the plugin's INI file.
 */
module Config {
  import opened Wrappers
  import opened Text
  import Ini

  datatype Action = Extract | Copy | ExtractCopy
  datatype LaunchPath = Default | Title | Platform | Emulator
  datatype M3uName = GameId | TitleVersion | DiscOneFilename

  const ConfigSection: string := "Archive Cache Manager"
  const DefaultCachePath: string := "ArchiveCache"
  const DefaultCacheSize: int := 20000
  const DefaultMinArchiveSize: int := 100
  const DefaultMultiDisc: bool := true
  const DefaultUseGameIdAsM3uFilename: bool := true
  const DefaultSmartExtract: bool := true
  const DefaultStandaloneExtensions: string :=
    "gb, gbc, gba, agb, nes, fds, smc, sfc, n64, z64, v64, ndd, md, smd, gen, iso, chd, gg, gcm, 32x, bin"
  const DefaultMetadataExtensions: string := "nfo, txt, dat, xml, json"
  const DefaultBypassPathCheck: bool := false
  const DefaultEmulatorPlatform: string := "All \\ All"
  const DefaultFilenamePriority: string := "mds, gdi, cue, eboot.bin"
  const DefaultLaunchPath: LaunchPath := LaunchPath.Default
  const DefaultAction: Action := Action.Extract
  const DefaultM3uName: M3uName := M3uName.GameId
  const DefaultChdman: bool := false
  const DefaultDolphinTool: bool := false
  const DefaultExtractXiso: bool := false

  /** The key `SetDefaultConfig` adds beside "All \ All". */
  const Pcsx2Key: string := "PCSX2 \\ Sony Playstation 2"

  /** The policy for one "emulator \ platform" key. */
  datatype EmulatorPlatformConfig = EmulatorPlatformConfig(
    filenamePriority: string,
    action: Action,
    launchPath: LaunchPath,
    multiDisc: bool,
    m3uName: M3uName,
    smartExtract: bool,
    chdman: bool,
    dolphinTool: bool,
    extractXiso: bool)

  /** `new EmulatorPlatformConfig()`: every field at its compiled-in default. */
  function NewEmulatorPlatformConfig(): (c: EmulatorPlatformConfig)
    ensures c.filenamePriority == "mds, gdi, cue, eboot.bin" && c.action == Extract
    ensures c.launchPath == LaunchPath.Default && c.multiDisc && c.m3uName == GameId && c.smartExtract
    ensures !c.chdman && !c.dolphinTool && !c.extractXiso
  {
    EmulatorPlatformConfig(DefaultFilenamePriority, DefaultAction, DefaultLaunchPath, DefaultMultiDisc,
                           DefaultM3uName, DefaultSmartExtract, DefaultChdman, DefaultDolphinTool, DefaultExtractXiso)
  }

  type PolicyMap = map<string, EmulatorPlatformConfig>

  /** `EmulatorPlatformKey(emulator, platform)`: the two names joined by " \ ". */
  function EmulatorPlatformKey(emulator: string, platform: string): (key: string)
    ensures |key| == |emulator| + 3 + |platform|
    ensures key[..|emulator|] == emulator && key[|emulator|..|emulator| + 3] == " \\ " && key[|emulator| + 3..] == platform
  {
    emulator + " \\ " + platform
  }

  /** In a key whose emulator name has no backslash, the first backslash follows the emulator name and a space. */
  lemma FirstBackslash(emulator: string, platform: string)
    requires '\\' !in emulator
    ensures var k := EmulatorPlatformKey(emulator, platform);
      k[|emulator| + 1] == '\\' && forall j :: 0 <= j <= |emulator| ==> k[j] != '\\'
  {
    var k := EmulatorPlatformKey(emulator, platform);
    forall j | 0 <= j <= |emulator|
      ensures k[j] != '\\'
    {
      if j < |emulator| {
        assert k[j] == emulator[j];
      }
    }
  }

  /** For emulator names without a backslash, the key determines the emulator and the platform. */
  lemma EmulatorPlatformKeyInjective(e1: string, p1: string, e2: string, p2: string)
    requires '\\' !in e1 && '\\' !in e2
    requires EmulatorPlatformKey(e1, p1) == EmulatorPlatformKey(e2, p2)
    ensures e1 == e2 && p1 == p2
  {
    var k := EmulatorPlatformKey(e1, p1);
    FirstBackslash(e1, p1);
    FirstBackslash(e2, p2);
    assert |e1| == |e2|;
    assert e1 == k[..|e1|] == e2;
    assert p1 == k[|e1| + 3..] == p2;
  }

  function Lookup(policies: PolicyMap, key: string): Option<EmulatorPlatformConfig>
  {
    if key in policies then Some(policies[key]) else None
  }

  /** `GetEmulatorPlatformConfig`: the key's record, else the "All \ All" record, else a fresh default record. */
  function GetEmulatorPlatformConfig(policies: PolicyMap, key: string): (r: EmulatorPlatformConfig)
    ensures key in policies ==> r == policies[key]
    ensures key !in policies && DefaultEmulatorPlatform in policies ==> r == policies[DefaultEmulatorPlatform]
    ensures key !in policies && DefaultEmulatorPlatform !in policies ==> r == NewEmulatorPlatformConfig()
  {
    Lookup(policies, key).GetOr(Lookup(policies, DefaultEmulatorPlatform).GetOr(NewEmulatorPlatformConfig()))
  }

  // The nine field getters each run their own fallback chain; each agrees with the record lookup.

  function GetFilenamePriority(policies: PolicyMap, key: string): (r: string)
    ensures r == GetEmulatorPlatformConfig(policies, key).filenamePriority
  {
    match Lookup(policies, key)
    case Some(c) => c.filenamePriority
    case None =>
      match Lookup(policies, DefaultEmulatorPlatform)
      case Some(c) => c.filenamePriority
      case None => DefaultFilenamePriority
  }

  function GetAction(policies: PolicyMap, key: string): (r: Action)
    ensures r == GetEmulatorPlatformConfig(policies, key).action
  {
    match Lookup(policies, key)
    case Some(c) => c.action
    case None =>
      match Lookup(policies, DefaultEmulatorPlatform)
      case Some(c) => c.action
      case None => DefaultAction
  }

  function GetLaunchPath(policies: PolicyMap, key: string): (r: LaunchPath)
    ensures r == GetEmulatorPlatformConfig(policies, key).launchPath
  {
    match Lookup(policies, key)
    case Some(c) => c.launchPath
    case None =>
      match Lookup(policies, DefaultEmulatorPlatform)
      case Some(c) => c.launchPath
      case None => DefaultLaunchPath
  }

  function GetMultiDisc(policies: PolicyMap, key: string): (r: bool)
    ensures r == GetEmulatorPlatformConfig(policies, key).multiDisc
  {
    match Lookup(policies, key)
    case Some(c) => c.multiDisc
    case None =>
      match Lookup(policies, DefaultEmulatorPlatform)
      case Some(c) => c.multiDisc
      case None => DefaultMultiDisc
  }

  function GetM3uName(policies: PolicyMap, key: string): (r: M3uName)
    ensures r == GetEmulatorPlatformConfig(policies, key).m3uName
  {
    match Lookup(policies, key)
    case Some(c) => c.m3uName
    case None =>
      match Lookup(policies, DefaultEmulatorPlatform)
      case Some(c) => c.m3uName
      case None => DefaultM3uName
  }

  function GetSmartExtract(policies: PolicyMap, key: string): (r: bool)
    ensures r == GetEmulatorPlatformConfig(policies, key).smartExtract
  {
    match Lookup(policies, key)
    case Some(c) => c.smartExtract
    case None =>
      match Lookup(policies, DefaultEmulatorPlatform)
      case Some(c) => c.smartExtract
      case None => DefaultSmartExtract
  }

  function GetChdman(policies: PolicyMap, key: string): (r: bool)
    ensures r == GetEmulatorPlatformConfig(policies, key).chdman
  {
    match Lookup(policies, key)
    case Some(c) => c.chdman
    case None =>
      match Lookup(policies, DefaultEmulatorPlatform)
      case Some(c) => c.chdman
      case None => DefaultChdman
  }

  function GetDolphinTool(policies: PolicyMap, key: string): (r: bool)
    ensures r == GetEmulatorPlatformConfig(policies, key).dolphinTool
  {
    match Lookup(policies, key)
    case Some(c) => c.dolphinTool
    case None =>
      match Lookup(policies, DefaultEmulatorPlatform)
      case Some(c) => c.dolphinTool
      case None => DefaultDolphinTool
  }

  function GetExtractXiso(policies: PolicyMap, key: string): (r: bool)
    ensures r == GetEmulatorPlatformConfig(policies, key).extractXiso
  {
    match Lookup(policies, key)
    case Some(c) => c.extractXiso
    case None =>
      match Lookup(policies, DefaultEmulatorPlatform)
      case Some(c) => c.extractXiso
      case None => DefaultExtractXiso
  }

  // ---- Text of the fields ----------------------------------------------------

  function ActionName(a: Action): string
  {
    match a
    case Extract => "Extract"
    case Copy => "Copy"
    case ExtractCopy => "ExtractCopy"
  }

  function LaunchPathName(p: LaunchPath): string
  {
    match p
    case Default => "Default"
    case Title => "Title"
    case Platform => "Platform"
    case Emulator => "Emulator"
  }

  function M3uNameName(m: M3uName): string
  {
    match m
    case GameId => "GameId"
    case TitleVersion => "TitleVersion"
    case DiscOneFilename => "DiscOneFilename"
  }

  const ActionNames: seq<string> := ["Extract", "Copy", "ExtractCopy"]
  const LaunchPathNames: seq<string> := ["Default", "Title", "Platform", "Emulator"]
  const M3uNameNames: seq<string> := ["GameId", "TitleVersion", "DiscOneFilename"]

  /** The value of the first member named `t`, or 0 when no member is. */
  function NameValue(t: string, names: seq<string>): (value: nat)
    ensures t in names ==> value < |names| && names[value] == t
    ensures t !in names ==> value == 0
  {
    if names == [] || names[0] == t then 0
    else if t in names[1..] then 1 + NameValue(t, names[1..])
    else 0
  }

  /**
   * `Enum.TryParse` into an enum whose members are named `names` and numbered from 0:
   * after trimming, integer text gives its number when it fits in 32 bits, a member's
   * name gives that member's number, and null or anything else gives 0.
   */
  function EnumValue(v: Option<string>, names: seq<string>): (value: int)
    ensures v.None? ==> value == 0
    ensures v.Some? && ParseInteger(Trim(v.value)).Success? ==>
              value == if IsInt32(ParseInteger(Trim(v.value)).value) then ParseInteger(Trim(v.value)).value else 0
    ensures v.Some? && ParseInteger(Trim(v.value)).Failure? && Trim(v.value) in names ==>
              0 <= value < |names| && names[value] == Trim(v.value)
    ensures v.Some? && ParseInteger(Trim(v.value)).Failure? && Trim(v.value) !in names ==> value == 0
  {
    match v
    case None => 0
    case Some(s) =>
      match ParseInteger(Trim(s))
      case Success(n) => if IsInt32(n) then n else 0
      case Failure(_) => NameValue(Trim(s), names)
  }

  /**
   * For an enum whose member names are distinct and none of them integer text, the
   * member numbered `i` is read exactly from its name or from the integer text of `i`.
   */
  lemma EnumValueIs(v: Option<string>, names: seq<string>, i: nat)
    requires 0 < i < |names| && IsInt32(i) && Distinct(names)
    requires forall j :: 0 <= j < |names| ==> ParseInteger(names[j]).Failure?
    ensures v.Some? ==> (EnumValue(v, names) == i <==> Trim(v.value) == names[i] || ParseInteger(Trim(v.value)) == Success(i))
  {
  }

  /** No Action member name is integer text. */
  lemma ActionNamesWords()
    ensures forall i :: 0 <= i < |ActionNames| ==> ParseInteger(ActionNames[i]).Failure?
  {
    WordNotInteger("Extract");
    WordNotInteger("Copy");
    WordNotInteger("ExtractCopy");
  }

  /** No LaunchPath member name is integer text. */
  lemma LaunchPathNamesWords()
    ensures forall i :: 0 <= i < |LaunchPathNames| ==> ParseInteger(LaunchPathNames[i]).Failure?
  {
    WordNotInteger("Default");
    WordNotInteger("Title");
    WordNotInteger("Platform");
    WordNotInteger("Emulator");
  }

  /** No M3uName member name is integer text. */
  lemma M3uNameNamesWords()
    ensures forall i :: 0 <= i < |M3uNameNames| ==> ParseInteger(M3uNameNames[i]).Failure?
  {
    WordNotInteger("GameId");
    WordNotInteger("TitleVersion");
    WordNotInteger("DiscOneFilename");
  }

  /** `Enum.TryParse<Action>`: "Copy" or 1 is Copy, "ExtractCopy" or 2 is ExtractCopy, anything else Extract. */
  function ParseAction(v: Option<string>): (a: Action)
    ensures v.None? ==> a == Action.Extract
    ensures v.Some? ==> (a == Copy <==> Trim(v.value) == "Copy" || ParseInteger(Trim(v.value)) == Success(1))
    ensures v.Some? ==> (a == ExtractCopy <==> Trim(v.value) == "ExtractCopy" || ParseInteger(Trim(v.value)) == Success(2))
  {
    ActionNamesWords();
    EnumValueIs(v, ActionNames, 1);
    EnumValueIs(v, ActionNames, 2);
    var value := EnumValue(v, ActionNames);
    if value == 1 then Copy else if value == 2 then ExtractCopy else Action.Extract
  }

  /** `Enum.TryParse<LaunchPath>`: each member by name or by its number 1 to 3, anything else Default. */
  function ParseLaunchPath(v: Option<string>): (p: LaunchPath)
    ensures v.None? ==> p == LaunchPath.Default
    ensures v.Some? ==> (p == Title <==> Trim(v.value) == "Title" || ParseInteger(Trim(v.value)) == Success(1))
    ensures v.Some? ==> (p == Platform <==> Trim(v.value) == "Platform" || ParseInteger(Trim(v.value)) == Success(2))
    ensures v.Some? ==> (p == Emulator <==> Trim(v.value) == "Emulator" || ParseInteger(Trim(v.value)) == Success(3))
  {
    LaunchPathNamesWords();
    EnumValueIs(v, LaunchPathNames, 1);
    EnumValueIs(v, LaunchPathNames, 2);
    EnumValueIs(v, LaunchPathNames, 3);
    var value := EnumValue(v, LaunchPathNames);
    if value == 1 then Title else if value == 2 then Platform else if value == 3 then Emulator else LaunchPath.Default
  }

  /** `Enum.TryParse<M3uName>`: each member by name or by its number 1 or 2, anything else GameId. */
  function ParseM3uName(v: Option<string>): (m: M3uName)
    ensures v.None? ==> m == GameId
    ensures v.Some? ==> (m == TitleVersion <==> Trim(v.value) == "TitleVersion" || ParseInteger(Trim(v.value)) == Success(1))
    ensures v.Some? ==> (m == DiscOneFilename <==> Trim(v.value) == "DiscOneFilename" || ParseInteger(Trim(v.value)) == Success(2))
  {
    M3uNameNamesWords();
    EnumValueIs(v, M3uNameNames, 1);
    EnumValueIs(v, M3uNameNames, 2);
    var value := EnumValue(v, M3uNameNames);
    if value == 1 then TitleVersion else if value == 2 then DiscOneFilename else GameId
  }

  /** A value read as a string: a missing key gives the null string, modelled as "". */
  function ReadString(v: Option<string>): string
  {
    v.GetOr("")
  }

  /** `Convert.ToBoolean(string)`: null is false, otherwise `Boolean.Parse`. */
  function ReadBool(v: Option<string>): (r: Result<bool>)
    ensures v.None? ==> r == Success(false)
  {
    match v
    case None => Success(false)
    case Some(s) => ParseBool(s)
  }

  /** `Convert.ToInt64(string)`: null is 0, otherwise `Int64.Parse`. */
  function ReadInt64(v: Option<string>): (r: Result<int>)
    ensures r.Success? ==> IsInt64(r.value)
    ensures v.None? ==> r == Success(0)
  {
    match v
    case None => Success(0)
    case Some(s) => ParseInt64(s)
  }

  // Each member's name is its own trim, so `Enum.TryParse` reads it back.

  lemma ActionNameTrimmed(a: Action)
    ensures Trim(ActionName(a)) == ActionName(a)
  {
    match a
    case Extract => TrimNoop("Extract");
    case Copy => TrimNoop("Copy");
    case ExtractCopy => TrimNoop("ExtractCopy");
  }

  lemma LaunchPathNameTrimmed(p: LaunchPath)
    ensures Trim(LaunchPathName(p)) == LaunchPathName(p)
  {
    match p
    case Default => TrimNoop("Default");
    case Title => TrimNoop("Title");
    case Platform => TrimNoop("Platform");
    case Emulator => TrimNoop("Emulator");
  }

  lemma M3uNameNameTrimmed(m: M3uName)
    ensures Trim(M3uNameName(m)) == M3uNameName(m)
  {
    match m
    case GameId => TrimNoop("GameId");
    case TitleVersion => TrimNoop("TitleVersion");
    case DiscOneFilename => TrimNoop("DiscOneFilename");
  }

  /** The name `Save` writes for an action is read back as that action. */
  lemma ActionRoundTrip(a: Action)
    ensures ParseAction(Some(ActionName(a))) == a
  {
    ActionNameTrimmed(a);
  }

  lemma LaunchPathRoundTrip(p: LaunchPath)
    ensures ParseLaunchPath(Some(LaunchPathName(p))) == p
  {
    LaunchPathNameTrimmed(p);
  }

  lemma M3uNameRoundTrip(m: M3uName)
    ensures ParseM3uName(Some(M3uNameName(m))) == m
  {
    M3uNameNameTrimmed(m);
  }

  /** The nine key/value pairs `Save` sets for one policy key, in the order it sets them. */
  function EntryPairs(e: EmulatorPlatformConfig): seq<(string, string)>
  {
    [("FilenamePriority", e.filenamePriority),
     ("Action", ActionName(e.action)),
     ("LaunchPath", LaunchPathName(e.launchPath)),
     ("MultiDisc", BoolToString(e.multiDisc)),
     ("M3uName", M3uNameName(e.m3uName)),
     ("SmartExtract", BoolToString(e.smartExtract)),
     ("Chdman", BoolToString(e.chdman)),
     ("DolphinTool", BoolToString(e.dolphinTool)),
     ("ExtractXiso", BoolToString(e.extractXiso))]
  }

  /** What `Save` writes for one policy key. */
  function EntryToSection(e: EmulatorPlatformConfig): map<string, string>
  {
    map["FilenamePriority" := e.filenamePriority,
        "Action" := ActionName(e.action),
        "LaunchPath" := LaunchPathName(e.launchPath),
        "MultiDisc" := BoolToString(e.multiDisc),
        "M3uName" := M3uNameName(e.m3uName),
        "SmartExtract" := BoolToString(e.smartExtract),
        "Chdman" := BoolToString(e.chdman),
        "DolphinTool" := BoolToString(e.dolphinTool),
        "ExtractXiso" := BoolToString(e.extractXiso)]
  }

  /** Storing the pairs one after the other gives the section: the nine keys are distinct. */
  lemma EntryPairsSection(e: EmulatorPlatformConfig)
    ensures Ini.Assign(map[], EntryPairs(e)) == EntryToSection(e)
  {
    var p := EntryPairs(e);
    assert p[..0] == [];
    Ini.AssignStep(map[], p, 0);
    Ini.AssignStep(map[], p, 1);
    Ini.AssignStep(map[], p, 2);
    Ini.AssignStep(map[], p, 3);
    Ini.AssignStep(map[], p, 4);
    Ini.AssignStep(map[], p, 5);
    Ini.AssignStep(map[], p, 6);
    Ini.AssignStep(map[], p, 7);
    Ini.AssignStep(map[], p, 8);
    assert p[..9] == p;
  }

  /** What `Load` makes of the section `name`: the record, or the exception of the first field that does not convert. */
  function EntryFromSection(doc: Ini.Document, name: string): Result<EmulatorPlatformConfig>
  {
    var filenamePriority := ReadString(Ini.GetValue(doc, name, "FilenamePriority"));
    var action := ParseAction(Ini.GetValue(doc, name, "Action"));
    var launchPath := ParseLaunchPath(Ini.GetValue(doc, name, "LaunchPath"));
    var multiDisc :- ReadBool(Ini.GetValue(doc, name, "MultiDisc"));
    var m3uName := ParseM3uName(Ini.GetValue(doc, name, "M3uName"));
    var smartExtract :- ReadBool(Ini.GetValue(doc, name, "SmartExtract"));
    var chdman :- ReadBool(Ini.GetValue(doc, name, "Chdman"));
    var dolphinTool :- ReadBool(Ini.GetValue(doc, name, "DolphinTool"));
    var extractXiso :- ReadBool(Ini.GetValue(doc, name, "ExtractXiso"));
    Success(EmulatorPlatformConfig(filenamePriority, action, launchPath, multiDisc, m3uName,
                                   smartExtract, chdman, dolphinTool, extractXiso))
  }

  /** The nine values of a section written for a record, as `GetValue` returns them. */
  lemma EntrySectionValues(doc: Ini.Document, name: string, e: EmulatorPlatformConfig)
    requires name in doc.values && doc.values[name] == EntryToSection(e)
    ensures Ini.GetValue(doc, name, "FilenamePriority") == Some(e.filenamePriority)
    ensures Ini.GetValue(doc, name, "Action") == Some(ActionName(e.action))
    ensures Ini.GetValue(doc, name, "LaunchPath") == Some(LaunchPathName(e.launchPath))
    ensures Ini.GetValue(doc, name, "MultiDisc") == Some(BoolToString(e.multiDisc))
    ensures Ini.GetValue(doc, name, "M3uName") == Some(M3uNameName(e.m3uName))
    ensures Ini.GetValue(doc, name, "SmartExtract") == Some(BoolToString(e.smartExtract))
    ensures Ini.GetValue(doc, name, "Chdman") == Some(BoolToString(e.chdman))
    ensures Ini.GetValue(doc, name, "DolphinTool") == Some(BoolToString(e.dolphinTool))
    ensures Ini.GetValue(doc, name, "ExtractXiso") == Some(BoolToString(e.extractXiso))
  {
  }

  /** A section written by `Save` for a record is read back by `Load` as that record, field for field. */
  lemma EntryRoundTrip(doc: Ini.Document, name: string, e: EmulatorPlatformConfig)
    requires name in doc.values && doc.values[name] == EntryToSection(e)
    ensures EntryFromSection(doc, name) == Success(e)
  {
    EntrySectionValues(doc, name, e);
    ActionRoundTrip(e.action);
    LaunchPathRoundTrip(e.launchPath);
    M3uNameRoundTrip(e.m3uName);
    BoolRoundTrip(e.multiDisc);
    BoolRoundTrip(e.smartExtract);
    BoolRoundTrip(e.chdman);
    BoolRoundTrip(e.dolphinTool);
    BoolRoundTrip(e.extractXiso);
  }

  // ---- The whole store ------------------------------------------------------

  /**
   * The static state of the store. `order` is the enumeration order of the
   * dictionary of policies, which is the order in which keys were added.
   */
  datatype Settings = Settings(
    cachePath: string,
    cacheSize: int,
    minArchiveSize: int,
    updateCheck: Option<bool>,
    skipUpdate: string,
    standaloneExtensions: string,
    metadataExtensions: string,
    bypassPathCheck: bool,
    multiDiscSupport: bool,
    useGameIdAsM3uFilename: bool,
    policies: PolicyMap,
    order: seq<string>)

  predicate Distinct(s: seq<string>)
  {
    forall i, j :: 0 <= i < j < |s| ==> s[i] != s[j]
  }

  /** The dictionary and its enumeration order agree; the global section name is never a policy key. */
  ghost predicate KeysInOrder(st: Settings)
  {
    && (forall k :: k in st.policies <==> k in st.order)
    && Distinct(st.order)
    && ConfigSection !in st.policies
  }

  ghost predicate Wellformed(st: Settings)
  {
    KeysInOrder(st) && IsInt64(st.cacheSize) && IsInt64(st.minArchiveSize)
  }

  /** What `Load` guarantees of the global values and the policy keys. */
  ghost predicate Corrected(st: Settings, isPathSafe: string -> bool)
  {
    && st.cacheSize > 0
    && st.minArchiveSize >= 0
    && (isPathSafe(st.cachePath) || st.cachePath == DefaultCachePath)
    && DefaultEmulatorPlatform in st.policies
  }

  /** The values of the static fields before the static constructor runs. */
  const InitialSettings: Settings :=
    Settings(DefaultCachePath, DefaultCacheSize, DefaultMinArchiveSize, None, "",
             DefaultStandaloneExtensions, DefaultMetadataExtensions, DefaultBypassPathCheck,
             DefaultMultiDisc, DefaultUseGameIdAsM3uFilename, map[], [])

  /**
   * `SetDefaultConfig`: the global values it resets and a policy store of exactly two keys.
   * UpdateCheck, SkipUpdate, MultiDiscSupport and UseGameIdAsM3uFilename are left as they were.
   */
  function DefaultSettings(st: Settings): (r: Settings)
    ensures Wellformed(r) && r.cacheSize > 0 && r.minArchiveSize >= 0 && r.cachePath == DefaultCachePath
    ensures r.cacheSize == DefaultCacheSize && r.minArchiveSize == DefaultMinArchiveSize
    ensures r.standaloneExtensions == DefaultStandaloneExtensions && r.metadataExtensions == DefaultMetadataExtensions
    ensures !r.bypassPathCheck
    ensures r.order == [DefaultEmulatorPlatform, Pcsx2Key]
    ensures r.policies.Keys == {DefaultEmulatorPlatform, Pcsx2Key}
    ensures r.policies[DefaultEmulatorPlatform] == NewEmulatorPlatformConfig()
    ensures r.policies[Pcsx2Key] == NewEmulatorPlatformConfig().(filenamePriority := "bin, iso")
    ensures r.updateCheck == st.updateCheck && r.skipUpdate == st.skipUpdate
    ensures r.multiDiscSupport == st.multiDiscSupport && r.useGameIdAsM3uFilename == st.useGameIdAsM3uFilename
  {
    st.(cachePath := DefaultCachePath,
        cacheSize := DefaultCacheSize,
        minArchiveSize := DefaultMinArchiveSize,
        standaloneExtensions := DefaultStandaloneExtensions,
        metadataExtensions := DefaultMetadataExtensions,
        bypassPathCheck := DefaultBypassPathCheck,
        policies := map[DefaultEmulatorPlatform := NewEmulatorPlatformConfig(),
                        Pcsx2Key := NewEmulatorPlatformConfig().(filenamePriority := "bin, iso")],
        order := [DefaultEmulatorPlatform, Pcsx2Key])
  }

  /** The state reached after reading some sections, and whether no conversion has thrown. */
  datatype Step = Step(settings: Settings, ok: bool)

  /** The global section's values, each converted as `Load` converts it. */
  datatype GlobalValues = GlobalValues(
    cachePath: string,
    cacheSize: Result<int>,
    minArchiveSize: Result<int>,
    updateCheck: Result<bool>,
    skipUpdate: string,
    standaloneExtensions: string,
    metadataExtensions: string,
    bypassPathCheck: Result<bool>,
    multiDiscSupport: Result<bool>,
    useGameIdAsM3uFilename: Result<bool>)

  function ReadGlobalSection(doc: Ini.Document): (g: GlobalValues)
    ensures g.cacheSize.Success? ==> IsInt64(g.cacheSize.value)
    ensures g.minArchiveSize.Success? ==> IsInt64(g.minArchiveSize.value)
  {
    GlobalValues(
      ReadString(Ini.GetValue(doc, ConfigSection, "CachePath")),
      ReadInt64(Ini.GetValue(doc, ConfigSection, "CacheSize")),
      ReadInt64(Ini.GetValue(doc, ConfigSection, "MinArchiveSize")),
      ReadBool(Ini.GetValue(doc, ConfigSection, "UpdateCheck")),
      ReadString(Ini.GetValue(doc, ConfigSection, "SkipUpdate")),
      ReadString(Ini.GetValue(doc, ConfigSection, "StandaloneExtensions")),
      ReadString(Ini.GetValue(doc, ConfigSection, "MetadataExtensions")),
      ReadBool(Ini.GetValue(doc, ConfigSection, "BypassPathCheck")),
      ReadBool(Ini.GetValue(doc, ConfigSection, "MultiDiscSupport")),
      ReadBool(Ini.GetValue(doc, ConfigSection, "UseGameIdAsM3uFilename")))
  }

  /**
   * The assignments of the global section, in the order `Load` makes them; when a
   * conversion throws, the fields assigned before it keep their new values. The
   * conversions have no side effects, so reading them all first changes nothing.
   */
  function AssignGlobals(st: Settings, g: GlobalValues): (r: Step)
    ensures r.settings.policies == st.policies && r.settings.order == st.order
    ensures r.ok <==> (g.cacheSize.Success? && g.minArchiveSize.Success? && g.updateCheck.Success?
                       && g.bypassPathCheck.Success? && g.multiDiscSupport.Success? && g.useGameIdAsM3uFilename.Success?)
  {
    var st1 := st.(cachePath := g.cachePath);
    match g.cacheSize
    case Failure(_) => Step(st1, false)
    case Success(cacheSize) =>
      var st2 := st1.(cacheSize := cacheSize);
      match g.minArchiveSize
      case Failure(_) => Step(st2, false)
      case Success(minArchiveSize) =>
        var st3 := st2.(minArchiveSize := minArchiveSize);
        match g.updateCheck
        case Failure(_) => Step(st3, false)
        case Success(updateCheck) =>
          var st4 := st3.(updateCheck := Some(updateCheck), skipUpdate := g.skipUpdate,
                          standaloneExtensions := g.standaloneExtensions,
                          metadataExtensions := g.metadataExtensions);
          match g.bypassPathCheck
          case Failure(_) => Step(st4, false)
          case Success(bypass) =>
            var st5 := st4.(bypassPathCheck := bypass);
            match g.multiDiscSupport
            case Failure(_) => Step(st5, false)
            case Success(multiDisc) =>
              var st6 := st5.(multiDiscSupport := multiDisc);
              match g.useGameIdAsM3uFilename
              case Failure(_) => Step(st6, false)
              case Success(useGameId) => Step(st6.(useGameIdAsM3uFilename := useGameId), true)
  }

  /** One section of the file with its values converted: the global section, or a policy section. */
  datatype SectionRead =
    | GlobalRead(values: GlobalValues)
    | PolicyRead(name: string, entry: Result<EmulatorPlatformConfig>)

  /** What a section read from the file can hold: 64-bit sizes, and never the global section's name as a key. */
  predicate Readable(r: SectionRead)
  {
    match r
    case GlobalRead(g) =>
      && (g.cacheSize.Success? ==> IsInt64(g.cacheSize.value))
      && (g.minArchiveSize.Success? ==> IsInt64(g.minArchiveSize.value))
    case PolicyRead(name, _) => name != ConfigSection
  }

  /** The branch `Load` takes for the section `name`, and the values it converts there. */
  function ReadSection(doc: Ini.Document, name: string): (r: SectionRead)
    ensures Readable(r)
    ensures r.GlobalRead? <==> name == ConfigSection
    ensures r.PolicyRead? ==> r.name == name
  {
    if name == ConfigSection then GlobalRead(ReadGlobalSection(doc))
    else PolicyRead(name, EntryFromSection(doc, name))
  }

  function ReadSections(doc: Ini.Document, names: seq<string>): (r: seq<SectionRead>)
    ensures |r| == |names|
    ensures forall i :: 0 <= i < |names| ==> r[i] == ReadSection(doc, names[i])
  {
    seq(|names|, i requires 0 <= i < |names| => ReadSection(doc, names[i]))
  }

  /**
   * One section applied to the store. A policy section's record replaces the key's
   * record, and a key seen for the first time goes last in the dictionary order.
   */
  function ApplySection(st: Settings, r: SectionRead): Step
  {
    match r
    case GlobalRead(g) => AssignGlobals(st, g)
    case PolicyRead(name, entry) =>
      match entry
      case Failure(_) => Step(st, false)
      case Success(e) =>
        Step(st.(policies := st.policies[name := e],
                 order := if name in st.policies then st.order else st.order + [name]), true)
  }

  /** The first loop of `Load` over the sections, stopping at the first one that throws. */
  function ParseSections(st: Settings, parts: seq<SectionRead>): Step
    decreases |parts|
  {
    if parts == [] then Step(st, true)
    else
      var prev := ParseSections(st, parts[..|parts| - 1]);
      if !prev.ok then prev else ApplySection(prev.settings, parts[|parts| - 1])
  }

  /** While no section has thrown, one more section is applied to the store read so far. */
  lemma ParseSectionsNext(st: Settings, parts: seq<SectionRead>, i: nat)
    requires i < |parts| && ParseSections(st, parts[..i]).ok
    ensures ParseSections(st, parts[..i + 1]) == ApplySection(ParseSections(st, parts[..i]).settings, parts[i])
  {
    assert parts[..i + 1][..i] == parts[..i];
  }

  /** Once a section has thrown, reading further sections changes nothing. */
  lemma {:induction false} ParseSectionsStuck(st: Settings, parts: seq<SectionRead>, i: nat)
    requires i <= |parts|
    requires !ParseSections(st, parts[..i]).ok
    ensures ParseSections(st, parts) == ParseSections(st, parts[..i])
    decreases |parts|
  {
    if i < |parts| {
      assert parts[..|parts| - 1][..i] == parts[..i];
      ParseSectionsStuck(st, parts[..|parts| - 1], i);
    } else {
      assert parts[..i] == parts;
    }
  }

  /** A section keeps the dictionary and its order in step and the sizes 64-bit. */
  lemma ApplySectionWellformed(st: Settings, r: SectionRead)
    requires Wellformed(st) && Readable(r)
    ensures Wellformed(ApplySection(st, r).settings)
  {
    match r
    case GlobalRead(g) =>
      var s := AssignGlobals(st, g).settings;
      assert s.cacheSize == st.cacheSize || s.cacheSize == g.cacheSize.value;
      assert s.minArchiveSize == st.minArchiveSize || s.minArchiveSize == g.minArchiveSize.value;
    case PolicyRead(name, entry) =>
      if entry.Success? && name !in st.policies {
        assert forall i :: 0 <= i < |st.order| ==> st.order[i] in st.policies;
      }
  }

  /** Every step of the first loop of `Load` keeps the store well formed. */
  lemma {:induction false} ParseSectionsWellformed(st: Settings, parts: seq<SectionRead>)
    requires Wellformed(st)
    requires forall i :: 0 <= i < |parts| ==> Readable(parts[i])
    ensures Wellformed(ParseSections(st, parts).settings)
    decreases |parts|
  {
    if parts != [] {
      ParseSectionsWellformed(st, parts[..|parts| - 1]);
      var prev := ParseSections(st, parts[..|parts| - 1]);
      if prev.ok {
        ApplySectionWellformed(prev.settings, parts[|parts| - 1]);
      }
    }
  }

  /** The default key is added after a successful first loop when no section created it. */
  function AddDefaultKey(st: Settings): (r: Settings)
    ensures DefaultEmulatorPlatform in r.policies
    ensures DefaultEmulatorPlatform in st.policies ==> r == st
  {
    if DefaultEmulatorPlatform in st.policies then st
    else st.(policies := st.policies[DefaultEmulatorPlatform := NewEmulatorPlatformConfig()],
             order := st.order + [DefaultEmulatorPlatform])
  }

  /** The corrections `Load` applies once a file was read: an unsafe path, a non-positive cache size, a negative minimum. */
  function Validate(st: Settings, isPathSafe: string -> bool): (r: Settings)
    ensures r.cacheSize > 0 && r.minArchiveSize >= 0
    ensures r.cachePath == (if isPathSafe(st.cachePath) then st.cachePath else DefaultCachePath)
    ensures r.cacheSize == (if st.cacheSize > 0 then st.cacheSize else DefaultCacheSize)
    ensures r.minArchiveSize == (if st.minArchiveSize >= 0 then st.minArchiveSize else DefaultMinArchiveSize)
    ensures r == st.(cachePath := r.cachePath, cacheSize := r.cacheSize, minArchiveSize := r.minArchiveSize)
  {
    var st1 := if !isPathSafe(st.cachePath) then st.(cachePath := DefaultCachePath) else st;
    var st2 := if st1.cacheSize <= 0 then st1.(cacheSize := DefaultCacheSize) else st1;
    if st2.minArchiveSize < 0 then st2.(minArchiveSize := DefaultMinArchiveSize) else st2
  }

  /** The state `Load` leaves, and whether it then calls `Save`. */
  datatype LoadOutcome = LoadOutcome(settings: Settings, save: bool)

  /**
   * `Load`: a missing file gives the defaults; otherwise the sections are read in
   * order, a conversion error gives the defaults, and the values are corrected.
   * `Save` runs only when the file is missing, a conversion threw, or the file has no
   * "All \ All" section: corrections alone are not written back.
   */
  function LoadSettings(st: Settings, file: Option<Ini.Document>, isPathSafe: string -> bool): (out: LoadOutcome)
    ensures file.None? ==> out.save && out.settings == DefaultSettings(st)
    ensures !out.save ==> file.Some? && DefaultEmulatorPlatform in file.value.sections
    ensures out.settings.cacheSize > 0 && out.settings.minArchiveSize >= 0
    ensures isPathSafe(out.settings.cachePath) || out.settings.cachePath == DefaultCachePath
    ensures DefaultEmulatorPlatform in out.settings.policies
  {
    match file
    case None => LoadOutcome(DefaultSettings(st), true)
    case Some(doc) =>
      var parsed := ParseSections(st.(policies := map[], order := []), ReadSections(doc, doc.sections));
      var loaded := if parsed.ok then AddDefaultKey(parsed.settings) else DefaultSettings(parsed.settings);
      LoadOutcome(Validate(loaded, isPathSafe), !(parsed.ok && DefaultEmulatorPlatform in doc.sections))
  }

  /** Whatever the file holds, `Load` leaves a well-formed, corrected store with an "All \ All" key. */
  lemma LoadEstablishes(st: Settings, file: Option<Ini.Document>, isPathSafe: string -> bool)
    requires Wellformed(st)
    ensures Wellformed(LoadSettings(st, file, isPathSafe).settings)
    ensures Corrected(LoadSettings(st, file, isPathSafe).settings, isPathSafe)
  {
    if file.Some? {
      var doc := file.value;
      var cleared := st.(policies := map[], order := []);
      var parts := ReadSections(doc, doc.sections);
      ParseSectionsWellformed(cleared, parts);
      var parsed := ParseSections(cleared, parts);
      if parsed.ok {
        AddDefaultKeyWellformed(parsed.settings);
      }
    }
  }

  /** Adding the default key keeps the dictionary and its order in step. */
  lemma AddDefaultKeyWellformed(st: Settings)
    requires Wellformed(st)
    ensures Wellformed(AddDefaultKey(st))
  {
    if DefaultEmulatorPlatform !in st.policies {
      assert forall i :: 0 <= i < |st.order| ==> st.order[i] in st.policies;
    }
  }

  /** The global section `Save` writes, key by key; UpdateCheck and SkipUpdate only when set. */
  function GlobalSection(st: Settings): map<string, string>
  {
    var m1 := map["CachePath" := st.cachePath,
                  "CacheSize" := Int64ToString(st.cacheSize),
                  "MinArchiveSize" := Int64ToString(st.minArchiveSize)];
    var m2 := if st.updateCheck.Some? then m1["UpdateCheck" := BoolToString(st.updateCheck.value)] else m1;
    var m3 := if st.skipUpdate != "" then m2["SkipUpdate" := st.skipUpdate] else m2;
    m3["StandaloneExtensions" := st.standaloneExtensions]
      ["MetadataExtensions" := st.metadataExtensions]
      ["BypassPathCheck" := BoolToString(st.bypassPathCheck)]
  }

  /** The section `Save` writes for each key of the dictionary. */
  function EntrySections(st: Settings): (r: map<string, map<string, string>>)
    ensures forall k :: k in r <==> k in st.policies
  {
    map k | k in st.policies :: EntryToSection(st.policies[k])
  }

  /** What `Save` has written before its loop: the global section alone. */
  function GlobalDocument(st: Settings): Ini.Document
  {
    Ini.Document([ConfigSection], map[ConfigSection := GlobalSection(st)])
  }

  /** The document `Save` writes: the global section, then one section per key in dictionary order. */
  function SaveDocument(st: Settings): (doc: Ini.Document)
    requires forall k :: k in st.order ==> k in st.policies
    ensures doc.sections == [ConfigSection] + st.order
    ensures forall k :: k in doc.values <==> k == ConfigSection || k in st.order
    ensures ConfigSection !in st.order ==> doc.values[ConfigSection] == GlobalSection(st)
    ensures forall k :: k in st.order ==> doc.values[k] == EntryToSection(st.policies[k])
  {
    Ini.AppendSectionsContents(GlobalDocument(st), st.order, EntrySections(st));
    Ini.AppendSections(GlobalDocument(st), st.order, EntrySections(st))
  }

  /** `doc` holds what `Save` writes for `st`: the global section, then each key's record in dictionary order. */
  ghost predicate HoldsSaved(doc: Ini.Document, st: Settings)
  {
    && doc.sections == [ConfigSection] + st.order
    && ConfigSection in doc.values && doc.values[ConfigSection] == GlobalSection(st)
    && (forall k :: k in st.order ==> k in st.policies && k in doc.values && doc.values[k] == EntryToSection(st.policies[k]))
  }

  /** The nine values `Save` sets for one key, in the order it sets them. */
  function WriteEntry(doc: Ini.Document, key: string, e: EmulatorPlatformConfig): Ini.Document
  {
    Ini.SetValues(doc, key, EntryPairs(e))
  }

  /** Writing the next key of the dictionary order extends what `Save` has written by that key's section. */
  lemma SavedPrefixStep(st: Settings, i: nat)
    requires Wellformed(st) && i < |st.order|
    ensures WriteEntry(Ini.AppendSections(GlobalDocument(st), st.order[..i], EntrySections(st)), st.order[i], st.policies[st.order[i]])
         == Ini.AppendSections(GlobalDocument(st), st.order[..i + 1], EntrySections(st))
  {
    var key := st.order[i];
    assert key !in st.order[..i];
    EntrySectionOf(st, key);
    Ini.AppendSectionsNext(GlobalDocument(st), st.order[..i], EntrySections(st), key, EntryPairs(st.policies[key]));
    assert st.order[..i] + [key] == st.order[..i + 1];
  }

  /** The section `Save` writes for a key is the one the nine values of its record make. */
  lemma EntrySectionOf(st: Settings, key: string)
    requires key in st.policies
    ensures key in EntrySections(st) && EntrySections(st)[key] == Ini.Assign(map[], EntryPairs(st.policies[key]))
    ensures EntryPairs(st.policies[key]) != []
  {
    EntryPairsSection(st.policies[key]);
  }

  /** The policies of the first `i` keys of the dictionary order. */
  function PolicyPrefix(st: Settings, i: nat): PolicyMap
    requires i <= |st.order|
    requires forall k :: k in st.order ==> k in st.policies
  {
    map k | k in st.order[..i] :: st.policies[k]
  }

  /** One more key of the dictionary order adds that key's record, and the key is new. */
  lemma PolicyPrefixStep(st: Settings, i: nat)
    requires Wellformed(st)
    requires 0 < i <= |st.order|
    ensures st.order[i - 1] !in PolicyPrefix(st, i - 1)
    ensures PolicyPrefix(st, i) == PolicyPrefix(st, i - 1)[st.order[i - 1] := st.policies[st.order[i - 1]]]
    ensures st.order[..i] == st.order[..i - 1] + [st.order[i - 1]]
  {
    var key := st.order[i - 1];
    assert key !in st.order[..i - 1];
    assert st.order[..i] == st.order[..i - 1] + [key];
  }

  /** The global values a saved document reads back as: the two flags `Save` omits become false, a null UpdateCheck false. */
  function ReloadedGlobals(base: Settings, st: Settings): Settings
  {
    base.(cachePath := st.cachePath, cacheSize := st.cacheSize, minArchiveSize := st.minArchiveSize,
          updateCheck := Some(st.updateCheck.GetOr(false)), skipUpdate := st.skipUpdate,
          standaloneExtensions := st.standaloneExtensions, metadataExtensions := st.metadataExtensions,
          bypassPathCheck := st.bypassPathCheck, multiDiscSupport := false, useGameIdAsM3uFilename := false)
  }

  /** The keys of the global section and their values; MultiDiscSupport and UseGameIdAsM3uFilename are not among them. */
  lemma GlobalSectionValues(st: Settings)
    ensures var g := GlobalSection(st);
      && "CachePath" in g && g["CachePath"] == st.cachePath
      && "CacheSize" in g && g["CacheSize"] == Int64ToString(st.cacheSize)
      && "MinArchiveSize" in g && g["MinArchiveSize"] == Int64ToString(st.minArchiveSize)
      && ("UpdateCheck" in g <==> st.updateCheck.Some?)
      && (st.updateCheck.Some? ==> g["UpdateCheck"] == BoolToString(st.updateCheck.value))
      && ("SkipUpdate" in g <==> st.skipUpdate != "")
      && (st.skipUpdate != "" ==> g["SkipUpdate"] == st.skipUpdate)
      && "StandaloneExtensions" in g && g["StandaloneExtensions"] == st.standaloneExtensions
      && "MetadataExtensions" in g && g["MetadataExtensions"] == st.metadataExtensions
      && "BypassPathCheck" in g && g["BypassPathCheck"] == BoolToString(st.bypassPathCheck)
      && "MultiDiscSupport" !in g && "UseGameIdAsM3uFilename" !in g
  {
  }

  /** The values read from a saved global section: the saved ones, and false where `Save` wrote nothing. */
  function SavedGlobalValues(st: Settings): GlobalValues
  {
    GlobalValues(st.cachePath, Success(st.cacheSize), Success(st.minArchiveSize),
                 Success(st.updateCheck.GetOr(false)), st.skipUpdate, st.standaloneExtensions,
                 st.metadataExtensions, Success(st.bypassPathCheck), Success(false), Success(false))
  }

  /** The sections of a saved document as `Load` reads them: the global section, then each key's record. */
  function SavedReads(st: Settings): seq<SectionRead>
    requires forall k :: k in st.order ==> k in st.policies
  {
    [GlobalRead(SavedGlobalValues(st))]
      + seq(|st.order|, i requires 0 <= i < |st.order| => PolicyRead(st.order[i], Success(st.policies[st.order[i]])))
  }

  /** The global section of a saved document reads back as the saved values. */
  lemma ReadSavedGlobals(st: Settings, doc: Ini.Document)
    requires Wellformed(st) && HoldsSaved(doc, st)
    ensures ReadGlobalSection(doc) == SavedGlobalValues(st)
  {
    GlobalSectionValues(st);
    Int64RoundTrip(st.cacheSize);
    Int64RoundTrip(st.minArchiveSize);
    BoolRoundTrip(st.bypassPathCheck);
    if st.updateCheck.Some? {
      BoolRoundTrip(st.updateCheck.value);
    }
  }

  /** Every key's saved section reads back as the key's record. */
  lemma ReadSavedEntries(st: Settings, doc: Ini.Document)
    requires Wellformed(st) && HoldsSaved(doc, st)
    ensures forall k :: k in st.order ==> EntryFromSection(doc, k) == Success(st.policies[k])
  {
    forall k | k in st.order
      ensures EntryFromSection(doc, k) == Success(st.policies[k])
    {
      EntryRoundTrip(doc, k, st.policies[k]);
    }
  }

  /** A document whose sections read back as the saved values is read as `SavedReads`. */
  lemma ReadSavedDocument(st: Settings, doc: Ini.Document)
    requires Wellformed(st) && doc.sections == [ConfigSection] + st.order
    requires ReadGlobalSection(doc) == SavedGlobalValues(st)
    requires forall k :: k in st.order ==> EntryFromSection(doc, k) == Success(st.policies[k])
    ensures ReadSections(doc, doc.sections) == SavedReads(st)
  {
    var parts := ReadSections(doc, doc.sections);
    var saved := SavedReads(st);
    forall i | 1 <= i < |parts|
      ensures parts[i] == saved[i]
    {
      var key := st.order[i - 1];
      assert doc.sections[i] == key;
      assert key != ConfigSection;
    }
  }

  /** Reading the global section of a saved document restores the saved global values it holds. */
  lemma GlobalRoundTrip(base: Settings, st: Settings)
    ensures AssignGlobals(base, SavedGlobalValues(st)) == Step(ReloadedGlobals(base, st), true)
  {
  }

  /** Reading the sections of a saved document, one key at a time, rebuilds the dictionary and its order. */
  lemma {:induction false} PolicyPrefixRoundTrip(base: Settings, st: Settings, i: nat)
    requires Wellformed(st)
    requires base.policies == map[] && base.order == []
    requires i <= |st.order|
    ensures ParseSections(base, SavedReads(st)[..i + 1])
         == Step(ReloadedGlobals(base, st).(policies := PolicyPrefix(st, i), order := st.order[..i]), true)
    decreases i
  {
    var parts := SavedReads(st)[..i + 1];
    if i == 0 {
      GlobalRoundTrip(base, st);
      assert parts[..0] == [];
      assert PolicyPrefix(st, 0) == map[];
    } else {
      PolicyPrefixRoundTrip(base, st, i - 1);
      assert parts[..i] == SavedReads(st)[..i];
      assert parts[i] == PolicyRead(st.order[i - 1], Success(st.policies[st.order[i - 1]]));
      PolicyPrefixStep(st, i);
    }
  }

  /** The policies of all the keys of the dictionary order are the whole dictionary. */
  lemma PolicyPrefixAll(st: Settings)
    requires Wellformed(st)
    ensures PolicyPrefix(st, |st.order|) == st.policies
    ensures st.order[..|st.order|] == st.order
  {
    assert st.order[..|st.order|] == st.order;
  }

  /** All sections of a saved document convert, and rebuild the saved store as far as `Save` wrote it. */
  lemma SavedSectionsParse(cleared: Settings, st: Settings)
    requires Wellformed(st)
    requires cleared.policies == map[] && cleared.order == []
    ensures ParseSections(cleared, SavedReads(st))
         == Step(st.(updateCheck := Some(st.updateCheck.GetOr(false)),
                     multiDiscSupport := false, useGameIdAsM3uFilename := false), true)
  {
    PolicyPrefixRoundTrip(cleared, st, |st.order|);
    PolicyPrefixAll(st);
    assert SavedReads(st)[..|st.order| + 1] == SavedReads(st);
  }

  /**
   * Saving a corrected store and loading it back gives the same dictionary, in the same
   * order, and the same global values, except the ones `Save` does not write; the load
   * does not save again.
   */
  lemma SaveLoadRoundTrip(before: Settings, st: Settings, isPathSafe: string -> bool)
    requires Wellformed(st) && Corrected(st, isPathSafe)
    ensures LoadSettings(before, Some(SaveDocument(st)), isPathSafe)
         == LoadOutcome(st.(updateCheck := Some(st.updateCheck.GetOr(false)),
                            multiDiscSupport := false, useGameIdAsM3uFilename := false), false)
  {
    var doc := SaveDocument(st);
    var cleared := before.(policies := map[], order := []);
    var expected := st.(updateCheck := Some(st.updateCheck.GetOr(false)),
                        multiDiscSupport := false, useGameIdAsM3uFilename := false);

    ReadSavedGlobals(st, doc);
    ReadSavedEntries(st, doc);
    ReadSavedDocument(st, doc);
    SavedSectionsParse(cleared, st);
    assert DefaultEmulatorPlatform in doc.sections;
    assert AddDefaultKey(expected) == expected;
    assert Validate(expected, isPathSafe) == expected;
  }

  /** A file whose global section holds only CacheSize `n`, followed by an empty "All \ All" section. */
  function CacheSizeOnlyFile(n: int): Ini.Document
  {
    Ini.Document([ConfigSection, DefaultEmulatorPlatform],
                 map[ConfigSection := map["CacheSize" := Int64ToString(n)], DefaultEmulatorPlatform := map[]])
  }

  /** Its global section converts: CacheSize is `n` and every missing key reads as null. */
  lemma CacheSizeOnlyGlobals(n: int)
    requires IsInt64(n)
    ensures ReadGlobalSection(CacheSizeOnlyFile(n))
         == GlobalValues("", Success(n), Success(0), Success(false), "", "", "", Success(false), Success(false), Success(false))
  {
    var doc := CacheSizeOnlyFile(n);
    assert doc.values[ConfigSection] == map["CacheSize" := Int64ToString(n)];
    forall k | k != "CacheSize"
      ensures Ini.GetValue(doc, ConfigSection, k) == None
    {
    }
    assert Ini.GetValue(doc, ConfigSection, "CacheSize") == Some(Int64ToString(n));
    Int64RoundTrip(n);
  }

  /** Its empty "All \ All" section converts to the record of null values. */
  lemma CacheSizeOnlyEntry(n: int)
    ensures EntryFromSection(CacheSizeOnlyFile(n), DefaultEmulatorPlatform)
         == Success(NewEmulatorPlatformConfig().(filenamePriority := "", multiDisc := false, smartExtract := false))
  {
    assert CacheSizeOnlyFile(n).values[DefaultEmulatorPlatform] == map[];
  }

  /**
   * A correction made while loading is not written back when the file has an
   * "All \ All" section: a CacheSize of zero or less is read as 20000 and the file keeps it.
   */
  lemma CorrectionNotPersisted(before: Settings, isPathSafe: string -> bool, n: int)
    requires IsInt64(n) && n <= 0
    ensures var out := LoadSettings(before, Some(CacheSizeOnlyFile(n)), isPathSafe);
            out.settings.cacheSize == DefaultCacheSize && !out.save
  {
    var doc := CacheSizeOnlyFile(n);
    var cleared := before.(policies := map[], order := []);
    CacheSizeOnlyGlobals(n);
    CacheSizeOnlyEntry(n);
    var g := ReadGlobalSection(doc);
    var parts := ReadSections(doc, doc.sections);
    assert parts[0] == GlobalRead(g);
    assert parts[..1][..0] == [];
    assert parts[..1] == [GlobalRead(g)];
    var global := AssignGlobals(cleared, g);
    assert global.ok && global.settings.cacheSize == n;
    assert ParseSections(cleared, parts[..1]) == global;
    assert parts[..2] == parts;
  }

  /**
   * The static configuration: the private static fields of the source, kept together as
   * one `Settings` record that each step updates a field at a time, and the configuration
   * file on disk as `file`.
   */
  class GlobalConfig {
    /** `PathUtils.IsPathSafe`, not part of this model. */
    const isPathSafe: string -> bool
    /** The static fields `mCachePath` … `mFilenamePriority` (the policy dictionary with its key order). */
    var settings: Settings
    /** The configuration file on disk, if it exists. */
    var file: Option<Ini.Document>

    ghost predicate Valid()
      reads this
    {
      Wellformed(settings) && Corrected(settings, isPathSafe)
    }

    /**
     * The static constructor: field initialisers, `SetDefaultConfig`, then `Load`;
     * `written` says whether a save's file write goes through.
     */
    constructor (isPathSafe: string -> bool, file: Option<Ini.Document>, written: bool)
      ensures this.isPathSafe == isPathSafe
      ensures var out := LoadSettings(DefaultSettings(InitialSettings), file, isPathSafe);
              && settings == out.settings
              && Wellformed(out.settings)
              && this.file == (if out.save && written then Some(SaveDocument(out.settings)) else file)
      ensures Valid()
    {
      this.isPathSafe := isPathSafe;
      settings := InitialSettings;
      this.file := file;
      new;
      SetDefaultConfig();
      LoadEstablishes(DefaultSettings(InitialSettings), file, isPathSafe);
      Load(written);
    }

    /** `SetDefaultConfig`. */
    method SetDefaultConfig()
      modifies this
      ensures settings == DefaultSettings(old(settings))
      ensures file == old(file)
    {
      settings := settings.(cachePath := DefaultCachePath);
      settings := settings.(cacheSize := DefaultCacheSize);
      settings := settings.(minArchiveSize := DefaultMinArchiveSize);
      settings := settings.(standaloneExtensions := DefaultStandaloneExtensions);
      settings := settings.(metadataExtensions := DefaultMetadataExtensions);
      settings := settings.(bypassPathCheck := DefaultBypassPathCheck);
      settings := settings.(policies := map[DefaultEmulatorPlatform := NewEmulatorPlatformConfig()],
                            order := [DefaultEmulatorPlatform]);
      var e := NewEmulatorPlatformConfig().(filenamePriority := "bin, iso");
      settings := settings.(policies := settings.policies[Pcsx2Key := e], order := settings.order + [Pcsx2Key]);
    }

    /**
     * The branch of `Load` for the global section, on the section's converted values;
     * the assignments stop at the first conversion that threw.
     */
    method LoadGlobalSection(g: GlobalValues) returns (ok: bool)
      modifies this
      ensures Step(settings, ok) == AssignGlobals(old(settings), g)
      ensures file == old(file)
    {
      settings := settings.(cachePath := g.cachePath);
      if g.cacheSize.Failure? {
        return false;
      }
      settings := settings.(cacheSize := g.cacheSize.value);
      if g.minArchiveSize.Failure? {
        return false;
      }
      settings := settings.(minArchiveSize := g.minArchiveSize.value);
      if g.updateCheck.Failure? {
        return false;
      }
      settings := settings.(updateCheck := Some(g.updateCheck.value));
      settings := settings.(skipUpdate := g.skipUpdate);
      settings := settings.(standaloneExtensions := g.standaloneExtensions);
      settings := settings.(metadataExtensions := g.metadataExtensions);
      if g.bypassPathCheck.Failure? {
        return false;
      }
      settings := settings.(bypassPathCheck := g.bypassPathCheck.value);
      if g.multiDiscSupport.Failure? {
        return false;
      }
      settings := settings.(multiDiscSupport := g.multiDiscSupport.value);
      if g.useGameIdAsM3uFilename.Failure? {
        return false;
      }
      settings := settings.(useGameIdAsM3uFilename := g.useGameIdAsM3uFilename.value);
      return true;
    }

    /** The branch of `Load` for an "emulator \\ platform" section. */
    method LoadPolicySection(doc: Ini.Document, name: string) returns (ok: bool)
      modifies this
      ensures Step(settings, ok) == ApplySection(old(settings), PolicyRead(name, EntryFromSection(doc, name)))
      ensures file == old(file)
    {
      var entry := EntryFromSection(doc, name);
      if entry.Failure? {
        return false;
      }
      if name !in settings.policies {
        settings := settings.(order := settings.order + [name]);
      }
      settings := settings.(policies := settings.policies[name := entry.value]);
      return true;
    }

    /** The body of the first loop of `Load`: the global branch or the policy branch. */
    method LoadSection(doc: Ini.Document, name: string) returns (ok: bool)
      modifies this
      ensures Step(settings, ok) == ApplySection(old(settings), ReadSection(doc, name))
      ensures file == old(file)
    {
      if name == ConfigSection {
        ok := LoadGlobalSection(ReadGlobalSection(doc));
      } else {
        ok := LoadPolicySection(doc, name);
      }
    }

    /** The first loop of `Load`: the sections in file order, until one throws. */
    method LoadSections(doc: Ini.Document) returns (ok: bool)
      modifies this
      ensures Step(settings, ok) == ParseSections(old(settings), ReadSections(doc, doc.sections))
      ensures file == old(file)
    {
      ghost var start := settings;
      ghost var parts := ReadSections(doc, doc.sections);
      ok := true;
      var i := 0;
      assert parts[..0] == [];
      while i < |doc.sections| && ok
        invariant 0 <= i <= |doc.sections|
        invariant Step(settings, ok) == ParseSections(start, parts[..i])
        invariant file == old(file)
      {
        ParseSectionsNext(start, parts, i);
        ok := LoadSection(doc, doc.sections[i]);
        i := i + 1;
      }
      if ok {
        assert parts[..i] == parts;
      } else {
        ParseSectionsStuck(start, parts, i);
      }
    }

    /** The second loop of `Load`: whether the file has an "All \ All" section. */
    static method HasDefaultSection(doc: Ini.Document) returns (found: bool)
      ensures found <==> DefaultEmulatorPlatform in doc.sections
    {
      found := false;
      var j := 0;
      while j < |doc.sections|
        invariant 0 <= j <= |doc.sections|
        invariant found <==> DefaultEmulatorPlatform in doc.sections[..j]
      {
        assert doc.sections[..j + 1] == doc.sections[..j] + [doc.sections[j]];
        if doc.sections[j] == DefaultEmulatorPlatform {
          found := true;
        }
        j := j + 1;
      }
      assert doc.sections[..j] == doc.sections;
    }

    /** The corrections `Load` makes to the global values read from an existing file. */
    method ValidateGlobals()
      modifies this
      ensures settings == Validate(old(settings), isPathSafe)
      ensures file == old(file)
    {
      if !isPathSafe(settings.cachePath) {
        settings := settings.(cachePath := DefaultCachePath);
      }
      if settings.cacheSize <= 0 {
        settings := settings.(cacheSize := DefaultCacheSize);
      }
      if settings.minArchiveSize < 0 {
        settings := settings.(minArchiveSize := DefaultMinArchiveSize);
      }
    }

    /**
     * `Load`: reads the file section by section, falls back to the defaults when it is
     * missing or a value does not convert, corrects the global values, and saves only
     * as `LoadSettings` says; `written` says whether that save's file write goes through.
     */
    method Load(written: bool)
      modifies this
      requires Wellformed(settings)
      ensures var out := LoadSettings(old(settings), old(file), isPathSafe);
              && settings == out.settings
              && Wellformed(out.settings)
              && file == (if out.save && written then Some(SaveDocument(out.settings)) else old(file))
    {
      LoadEstablishes(settings, file, isPathSafe);
      var confignotMissing := false;
      if file.None? {
        SetDefaultConfig();
      } else {
        var doc := file.value;
        settings := settings.(policies := map[], order := []);
        var ok := LoadSections(doc);
        if ok {
          confignotMissing := HasDefaultSection(doc);
          if DefaultEmulatorPlatform !in settings.policies {
            settings := settings.(policies := settings.policies[DefaultEmulatorPlatform := NewEmulatorPlatformConfig()],
                                  order := settings.order + [DefaultEmulatorPlatform]);
          }
        } else {
          SetDefaultConfig();
        }
        ValidateGlobals();
      }
      if !confignotMissing {
        Save(written);
      }
    }

    /** The first part of `Save`: the global section, its optional keys only when set. */
    method SaveGlobalSection() returns (iniData: Ini.Document)
      ensures iniData == GlobalDocument(settings)
    {
      var st := settings;
      ghost var sections := [ConfigSection];
      iniData := Ini.Empty;
      iniData := Ini.SetValue(iniData, ConfigSection, "CachePath", st.cachePath);
      ghost var m := map["CachePath" := st.cachePath];
      assert iniData == Ini.Document(sections, map[][ConfigSection := m]);
      Ini.SetValueExisting(sections, map[], ConfigSection, m, "CacheSize", Int64ToString(st.cacheSize));
      iniData := Ini.SetValue(iniData, ConfigSection, "CacheSize", Int64ToString(st.cacheSize));
      m := m["CacheSize" := Int64ToString(st.cacheSize)];
      Ini.SetValueExisting(sections, map[], ConfigSection, m, "MinArchiveSize", Int64ToString(st.minArchiveSize));
      iniData := Ini.SetValue(iniData, ConfigSection, "MinArchiveSize", Int64ToString(st.minArchiveSize));
      m := m["MinArchiveSize" := Int64ToString(st.minArchiveSize)];
      if st.updateCheck.Some? {
        Ini.SetValueExisting(sections, map[], ConfigSection, m, "UpdateCheck", BoolToString(st.updateCheck.value));
        iniData := Ini.SetValue(iniData, ConfigSection, "UpdateCheck", BoolToString(st.updateCheck.value));
        m := m["UpdateCheck" := BoolToString(st.updateCheck.value)];
      }
      if st.skipUpdate != "" {
        Ini.SetValueExisting(sections, map[], ConfigSection, m, "SkipUpdate", st.skipUpdate);
        iniData := Ini.SetValue(iniData, ConfigSection, "SkipUpdate", st.skipUpdate);
        m := m["SkipUpdate" := st.skipUpdate];
      }
      Ini.SetValueExisting(sections, map[], ConfigSection, m, "StandaloneExtensions", st.standaloneExtensions);
      iniData := Ini.SetValue(iniData, ConfigSection, "StandaloneExtensions", st.standaloneExtensions);
      m := m["StandaloneExtensions" := st.standaloneExtensions];
      Ini.SetValueExisting(sections, map[], ConfigSection, m, "MetadataExtensions", st.metadataExtensions);
      iniData := Ini.SetValue(iniData, ConfigSection, "MetadataExtensions", st.metadataExtensions);
      m := m["MetadataExtensions" := st.metadataExtensions];
      Ini.SetValueExisting(sections, map[], ConfigSection, m, "BypassPathCheck", BoolToString(st.bypassPathCheck));
      iniData := Ini.SetValue(iniData, ConfigSection, "BypassPathCheck", BoolToString(st.bypassPathCheck));
      m := m["BypassPathCheck" := BoolToString(st.bypassPathCheck)];
    }

    /**
     * `Save`: builds the global section, then each key's record in dictionary order, and
     * writes the document; `written` says whether the write went through (a failed write
     * is caught and ignored, leaving the file as it was).
     */
    method Save(written: bool)
      modifies this
      requires Wellformed(settings)
      ensures file == if written then Some(SaveDocument(old(settings))) else old(file)
      ensures settings == old(settings)
    {
      var st := settings;
      var iniData := SaveGlobalSection();
      assert st.order[..0] == [];
      var i := 0;
      while i < |st.order|
        invariant 0 <= i <= |st.order|
        invariant settings == st && file == old(file)
        invariant iniData == Ini.AppendSections(GlobalDocument(st), st.order[..i], EntrySections(st))
      {
        var key := st.order[i];
        SavedPrefixStep(st, i);
        iniData := WriteEntry(iniData, key, st.policies[key]);
        i := i + 1;
      }
      assert st.order[..i] == st.order;
      if written {
        file := Some(iniData);
      }
    }
  }
}
