/**
 * The launch-time decisions of the plugin: whether a game launch goes through the
 * cache at all, whether the application path handed to the emulator is redirected,
 * and which extraction backend is checked for before launching.
 *
 * The host's answers (auto-extract, multi-disc, m3u loading, the launched file) are
 * fields of `Launch`; the other backends' type checks, the backends' executable paths
 * and the file system are functions of `Tools`. The policy store is the settings value
 * of the `Config` module.
 */
module GameLaunching {
  import opened Text
  import Config
  import SevenZip = Zip

  /** The extraction backends, in the order they are tried. */
  datatype Extractor = Chdman | DolphinTool | ExtractXiso | Zip | Robocopy

  /** What the host says about the game being launched with an emulator. */
  datatype Launch = Launch(
    emulator: string,
    platform: string,
    archivePath: string,
    autoExtract: bool,
    multiDiscGame: bool,
    m3uDiscLoadEnabled: bool)

  /** The backends outside this model: their type checks, their executables, and the file system. */
  datatype Tools = Tools(
    chdmanSupports: string -> bool,
    dolphinToolSupports: string -> bool,
    extractXisoSupports: string -> bool,
    path: Extractor -> string,
    fileExists: string -> bool)

  /** The archive types the host's own 7-Zip already opens, whose application path is left alone. */
  const HostArchiveExtensions: seq<string> := [".zip", ".7z", ".rar"]

  /** Extraction is wanted unless the action only copies. */
  predicate ExtractMode(a: Config.Action)
    ensures ExtractMode(a) <==> a != Config.Copy
  {
    a == Config.Extract || a == Config.ExtractCopy
  }

  /** Copying is wanted unless the action only extracts. */
  predicate CopyMode(a: Config.Action)
    ensures CopyMode(a) <==> a != Config.Extract
  {
    a == Config.Copy || a == Config.ExtractCopy
  }

  function Key(l: Launch): string
  {
    Config.EmulatorPlatformKey(l.emulator, l.platform)
  }

  function ActionOf(st: Config.Settings, l: Launch): Config.Action
  {
    Config.GetAction(st.policies, Key(l))
  }

  /** The condition under which each backend is chosen, before the ones ahead of it are considered. */
  predicate Condition(st: Config.Settings, l: Launch, t: Tools, e: Extractor)
  {
    var key := Key(l);
    var extract := ExtractMode(ActionOf(st, l));
    match e
    case Chdman => extract && Config.GetChdman(st.policies, key) && t.chdmanSupports(l.archivePath)
    case DolphinTool => extract && Config.GetDolphinTool(st.policies, key) && t.dolphinToolSupports(l.archivePath)
    case ExtractXiso => extract && Config.GetExtractXiso(st.policies, key) && t.extractXisoSupports(l.archivePath)
    case Zip => extract && SevenZip.SupportedType(l.archivePath)
    case Robocopy => CopyMode(ActionOf(st, l))
  }

  /** 7-Zip takes the file, or an extractor switched on in the policy supports its type. */
  predicate AnySupported(st: Config.Settings, l: Launch, t: Tools)
  {
    var key := Key(l);
    SevenZip.SupportedType(l.archivePath)
    || (Config.GetChdman(st.policies, key) && t.chdmanSupports(l.archivePath))
    || (Config.GetDolphinTool(st.policies, key) && t.dolphinToolSupports(l.archivePath))
    || (Config.GetExtractXiso(st.policies, key) && t.extractXisoSupports(l.archivePath))
  }

  /** A multi-disc game the host will load through an m3u file, with multi-disc support off in the policy. */
  predicate HostHandlesDiscs(st: Config.Settings, l: Launch)
  {
    !Config.GetMultiDisc(st.policies, Key(l)) && l.multiDiscGame && l.m3uDiscLoadEnabled
  }

  /**
   * Whether the launch goes through the cache: auto-extract must be on and the host
   * must not be building its own m3u file; then the action must copy, or some enabled
   * backend must support the file.
   */
  predicate UseArchiveCacheManager(st: Config.Settings, l: Launch, t: Tools)
    ensures UseArchiveCacheManager(st, l, t)
        <==> l.autoExtract && !HostHandlesDiscs(st, l)
             && (ActionOf(st, l) != Config.Extract || AnySupported(st, l, t))
  {
    if !l.autoExtract then false
    else if HostHandlesDiscs(st, l) then false
    else
      var a := ActionOf(st, l);
      if ExtractMode(a) && AnySupported(st, l, t) then true
      else if CopyMode(a) then true
      else false
  }

  /**
   * Whether the emulator is handed the placeholder path instead of the game's file:
   * always when the path check is bypassed, never for a zip, 7z or rar file, and
   * otherwise when the action copies or some enabled backend supports the file.
   */
  predicate RedirectApplicationPath(st: Config.Settings, l: Launch, t: Tools)
    ensures RedirectApplicationPath(st, l, t)
        <==> st.bypassPathCheck
             || (!HasExtension(l.archivePath, HostArchiveExtensions)
                 && (ActionOf(st, l) != Config.Extract || AnySupported(st, l, t)))
  {
    if st.bypassPathCheck then true
    else if HasExtension(l.archivePath, HostArchiveExtensions) then false
    else
      var a := ActionOf(st, l);
      if CopyMode(a) then true
      else if ExtractMode(a) && AnySupported(st, l, t) then true
      else false
  }

  /** The backend checked for before launching: the first whose condition holds, 7-Zip when none does. */
  function SelectExtractor(st: Config.Settings, l: Launch, t: Tools): (e: Extractor)
    ensures e != Zip ==> Condition(st, l, t, e)
    ensures e == Zip && !Condition(st, l, t, Zip) ==>
              forall other :: Condition(st, l, t, other) ==> other == Zip
  {
    var key := Key(l);
    var extract := ExtractMode(ActionOf(st, l));
    if extract && Config.GetChdman(st.policies, key) && t.chdmanSupports(l.archivePath) then Chdman
    else if extract && Config.GetDolphinTool(st.policies, key) && t.dolphinToolSupports(l.archivePath) then DolphinTool
    else if extract && Config.GetExtractXiso(st.policies, key) && t.extractXisoSupports(l.archivePath) then ExtractXiso
    else if extract && SevenZip.SupportedType(l.archivePath) then Zip
    else if CopyMode(ActionOf(st, l)) then Robocopy
    else Zip
  }

  /** The result of the pre-launch check: whether the backend's executable was found, the backend, its path. */
  datatype ExtractorCheck = ExtractorCheck(found: bool, extractor: Extractor, path: string)

  /** A backend without an executable path needs nothing on disk; otherwise its executable must exist. */
  function GetExtractorExists(st: Config.Settings, l: Launch, t: Tools): (r: ExtractorCheck)
    ensures r.extractor == SelectExtractor(st, l, t) && r.path == t.path(r.extractor)
    ensures r.path == "" ==> r.found
    ensures r.path != "" ==> (r.found <==> t.fileExists(r.path))
  {
    var e := SelectExtractor(st, l, t);
    var path := t.path(e);
    ExtractorCheck(if path == "" then true else t.fileExists(path), e, path)
  }

  // ---- Reference definition of the backend order -------------------------------------

  /** The first candidate whose flag is set, or `fallback` when none is. */
  function FirstMatch(candidates: seq<(Extractor, bool)>, fallback: Extractor): Extractor
    decreases |candidates|
  {
    if candidates == [] then fallback
    else if candidates[0].1 then candidates[0].0
    else FirstMatch(candidates[1..], fallback)
  }

  /** `FirstMatch` picks the candidate at the first set flag, and the fallback when no flag is set. */
  lemma {:induction false} FirstMatchIsFirst(candidates: seq<(Extractor, bool)>, fallback: Extractor)
    ensures forall i :: 0 <= i < |candidates| && candidates[i].1
              && (forall j :: 0 <= j < i ==> !candidates[j].1)
              ==> FirstMatch(candidates, fallback) == candidates[i].0
    ensures (forall j :: 0 <= j < |candidates| ==> !candidates[j].1) ==> FirstMatch(candidates, fallback) == fallback
    decreases |candidates|
  {
    if candidates != [] {
      FirstMatchIsFirst(candidates[1..], fallback);
      forall i | 0 <= i < |candidates| && candidates[i].1 && (forall j :: 0 <= j < i ==> !candidates[j].1)
        ensures FirstMatch(candidates, fallback) == candidates[i].0
      {
        if i > 0 {
          assert !candidates[0].1;
          assert candidates[1..][i - 1] == candidates[i];
          forall j | 0 <= j < i - 1 ensures !candidates[1..][j].1 {
            assert candidates[1..][j] == candidates[j + 1];
          }
        }
      }
      if forall j :: 0 <= j < |candidates| ==> !candidates[j].1 {
        forall j | 0 <= j < |candidates| - 1 ensures !candidates[1..][j].1 {
          assert candidates[1..][j] == candidates[j + 1];
        }
      }
    }
  }

  /** The backends in priority order, each with its condition. */
  function Candidates(st: Config.Settings, l: Launch, t: Tools): (c: seq<(Extractor, bool)>)
    ensures |c| == 5 && forall i :: 0 <= i < 5 ==> c[i].1 == Condition(st, l, t, c[i].0)
  {
    [(Chdman, Condition(st, l, t, Chdman)), (DolphinTool, Condition(st, l, t, DolphinTool)),
     (ExtractXiso, Condition(st, l, t, ExtractXiso)), (Zip, Condition(st, l, t, Zip)),
     (Robocopy, Condition(st, l, t, Robocopy))]
  }

  /** The selection is the first match over Chdman, DolphinTool, extract-xiso, 7-Zip, Robocopy, falling back to 7-Zip. */
  lemma SelectIsFirstMatch(st: Config.Settings, l: Launch, t: Tools)
    ensures SelectExtractor(st, l, t) == FirstMatch(Candidates(st, l, t), Zip)
  {
    var c := Candidates(st, l, t);
    FirstMatchIsFirst(c, Zip);
    if c[0].1 {
    } else if c[1].1 {
    } else if c[2].1 {
    } else if c[3].1 {
    } else if c[4].1 {
    } else {
    }
  }

  // ---- How the decisions relate --------------------------------------------------------

  /**
   * Whenever the launch goes through the cache, the backend checked for is one whose
   * condition holds: the fallback to 7-Zip is reached only for launches that are not.
   */
  lemma UsedSelectsEligible(st: Config.Settings, l: Launch, t: Tools)
    requires UseArchiveCacheManager(st, l, t)
    ensures Condition(st, l, t, SelectExtractor(st, l, t))
  {
    var e := SelectExtractor(st, l, t);
    if e == Zip && !Condition(st, l, t, Zip) {
      assert false;
    }
  }

  /**
   * For a file that is not zip, 7z or rar, a launch through the cache always has its path
   * redirected, and with auto-extract on and discs not left to the host the two agree.
   */
  lemma RedirectMatchesUse(st: Config.Settings, l: Launch, t: Tools)
    requires !HasExtension(l.archivePath, HostArchiveExtensions)
    ensures UseArchiveCacheManager(st, l, t) ==> RedirectApplicationPath(st, l, t)
    ensures l.autoExtract && !HostHandlesDiscs(st, l) && !st.bypassPathCheck ==>
              (UseArchiveCacheManager(st, l, t) <==> RedirectApplicationPath(st, l, t))
  {
  }

  /**
   * A zip, 7z or rar file always has a backend (7-Zip), so with auto-extract on and discs
   * not left to the host it goes through the cache, yet its path is never redirected
   * unless the path check is bypassed.
   */
  lemma HostArchiveUsedNotRedirected(st: Config.Settings, l: Launch, t: Tools)
    requires HasExtension(l.archivePath, HostArchiveExtensions)
    ensures SevenZip.SupportedType(l.archivePath)
    ensures l.autoExtract && !HostHandlesDiscs(st, l) ==> UseArchiveCacheManager(st, l, t)
    ensures RedirectApplicationPath(st, l, t) <==> st.bypassPathCheck
  {
    var ext := ToLower(GetExtension(l.archivePath));
    assert ext in HostArchiveExtensions;
    assert ext in SevenZip.ZipExtensions;
  }

  /** In extract-only mode a file no enabled backend supports is neither cached nor redirected (unless bypassed). */
  lemma UnsupportedExtractOnly(st: Config.Settings, l: Launch, t: Tools)
    requires ActionOf(st, l) == Config.Extract && !AnySupported(st, l, t)
    ensures !UseArchiveCacheManager(st, l, t)
    ensures RedirectApplicationPath(st, l, t) <==> st.bypassPathCheck
    ensures SelectExtractor(st, l, t) == Zip && !Condition(st, l, t, Zip)
  {
  }
}
