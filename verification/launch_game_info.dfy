/**
 * The state of the game being launched: its archive, the cache directory it extracts to,
 * and the facts about it that are worked out once and then remembered (is it in the cache,
 * how large is it decompressed, is its selected file enough on its own), for the whole
 * game and for each disc of a multi-disc game.
 */
module LaunchGameInfo {
  import opened Wrappers
  import opened Text

  /** One entry of the game's disc list: the disc number and that disc's archive. */
  datatype Disc = Disc(disc: int, archivePath: string)

  /** The launched game as the host describes it (the fields of `GameInfo` read here). */
  datatype Game = Game(archivePath: string, selectedFile: string, multiDisc: bool, discs: seq<Disc>)

  /**
   * What the state reads from outside: two configuration flags, and the file system and
   * the archive tool as they stand during the launch.
   */
  datatype Environment = Environment(
    smartExtract: bool,                                 // Config.SmartExtract
    multiDiscSupport: bool,                             // Config.MultiDiscSupport
    archiveCachePath: string -> string,                 // PathUtils.ArchiveCachePath
    isCompressedArchive: string -> bool,                // PathUtils.IsPathCompressedArchive
    cacheInfoPath: string -> string,                    // PathUtils.GetArchiveCacheGameInfoPath
    combine: (string, string) -> string,                // Path.Combine
    fileExists: string -> bool,                         // File.Exists
    infoLoaded: string -> bool,                         // whether `new GameInfo(path)` loads a file
    decompressedSize: (string, Option<string>) -> int,  // Zip.GetDecompressedSize(archive, file)
    fileList: (string, seq<string>) -> seq<string>)     // Zip.GetFileList(archive, null, exclude, true)

  /** `CacheData`: what is known about one archive; a field that is still null is `None`. */
  datatype CacheData = CacheData(archivePath: string, archiveCachePath: string, archiveInCache: Option<bool>,
                                 decompressedSize: Option<int>, extractSingleFile: Option<bool>, copyOnly: bool)

  /** A game info file written by `SaveToCache`; a `None` size is the one merged from the file already cached. */
  datatype SaveRecord = SaveRecord(path: string, archivePath: string, selectedDisc: Option<int>,
                                   decompressedSize: Option<int>)

  /** Extensions whose files can be extracted and run on their own. */
  const StandaloneFiles: seq<string> := [".gb", ".gbc", ".gba", ".agb", ".nes", ".fds", ".smc", ".sfc", ".n64",
                                         ".z64", ".v64", ".ndd", ".md", ".smd", ".gen", ".iso", ".chd", ".rvn",
                                         ".gg", ".gcm", ".32x", ".bin"]
  /** Extensions of metadata files, which no emulator needs. */
  const MetadataFiles: seq<string> := [".nfo", ".txt", ".dat", ".xml", ".json"]

  // ---- What each query answers, as functions of the game and its environment ------------

  /** The record created for an archive: its paths set and every fact still unknown. */
  function NewCacheData(env: Environment, archivePath: string): CacheData
  {
    CacheData(archivePath, env.archiveCachePath(archivePath), None, None, None, env.isCompressedArchive(archivePath))
  }

  /** The disc numbers in the order they first appear, each once: the key order of the disc dictionary. */
  function DiscNumbers(discs: seq<Disc>): (numbers: seq<int>)
    ensures forall i :: 0 <= i < |numbers| ==> numbers[i] in DiscTable(discs)
    decreases |discs|
  {
    if discs == [] then []
    else
      var numbers := DiscNumbers(discs[..|discs| - 1]);
      var d := discs[|discs| - 1].disc;
      if d in numbers then numbers else numbers + [d]
  }

  /** Each disc number's archive; an entry replaces an earlier one with the same number. */
  function DiscTable(discs: seq<Disc>): map<int, string>
    decreases |discs|
  {
    if discs == [] then map[]
    else DiscTable(discs[..|discs| - 1])[discs[|discs| - 1].disc := discs[|discs| - 1].archivePath]
  }

  /** The archive of the first entry with disc number `d` (`List.Find`), if there is one. */
  function FindDisc(discs: seq<Disc>, d: int): Option<string>
  {
    if discs == [] then None
    else if discs[0].disc == d then Some(discs[0].archivePath)
    else FindDisc(discs[1..], d)
  }

  /** The extensions a single-file extraction may leave behind: metadata, and files like the selected one. */
  function ExcludeList(extension: string): seq<string>
  {
    MetadataFiles + (if extension in StandaloneFiles then StandaloneFiles else [extension])
  }

  /** Whether extracting the selected file alone is enough: nothing but it and files it does not need are in the archive. */
  predicate ExtractSingleFileOf(game: Game, env: Environment)
  {
    && env.smartExtract
    && game.selectedFile != ""
    && |env.fileList(game.archivePath, ExcludeList(ToLower(GetExtension(game.selectedFile))))| == 0
  }

  /** The decompressed size of the whole game archive, or of the selected file alone when that is enough. */
  function GameSizeOf(game: Game, env: Environment): int
  {
    env.decompressedSize(game.archivePath, if ExtractSingleFileOf(game, env) then Some(game.selectedFile) else None)
  }

  /** Whether the whole game is cached: its cached game info exists, and its selected file too under smart extraction. */
  predicate GameInCacheOf(game: Game, env: Environment)
  {
    var cachePath := env.archiveCachePath(game.archivePath);
    && env.fileExists(env.cacheInfoPath(cachePath))
    && (env.smartExtract && game.selectedFile != "" ==> env.fileExists(env.combine(cachePath, game.selectedFile)))
  }

  /** Whether one disc archive is cached: its cached game info exists. */
  predicate DiscInCacheOf(env: Environment, archivePath: string)
  {
    env.fileExists(env.cacheInfoPath(env.archiveCachePath(archivePath)))
  }

  /** Whether a query without a disc number covers every disc. */
  predicate AllDiscs(game: Game, env: Environment, disc: Option<int>)
  {
    game.multiDisc && env.multiDiscSupport && disc.None?
  }

  /** The sum of the decompressed sizes of the discs `keys`. */
  function SumSizes(env: Environment, table: map<int, string>, keys: seq<int>): int
    requires forall i :: 0 <= i < |keys| ==> keys[i] in table
    decreases |keys|
  {
    if keys == [] then 0
    else SumSizes(env, table, keys[..|keys| - 1]) + env.decompressedSize(table[keys[|keys| - 1]], None)
  }

  /** The conjunction of the cache hits of the discs `keys`, starting from true. */
  predicate AllInCache(env: Environment, table: map<int, string>, keys: seq<int>)
    requires forall i :: 0 <= i < |keys| ==> keys[i] in table
    decreases |keys|
  {
    if keys == [] then true
    else AllInCache(env, table, keys[..|keys| - 1]) && DiscInCacheOf(env, table[keys[|keys| - 1]])
  }

  /** The number of the discs `keys` that are cached. */
  function CountInCache(env: Environment, table: map<int, string>, keys: seq<int>): int
    requires forall i :: 0 <= i < |keys| ==> keys[i] in table
    decreases |keys|
  {
    if keys == [] then 0
    else CountInCache(env, table, keys[..|keys| - 1]) + if DiscInCacheOf(env, table[keys[|keys| - 1]]) then 1 else 0
  }

  /** `GetArchivePath(disc)`: a known disc's archive, otherwise the game's. */
  function ArchivePathOf(game: Game, disc: Option<int>): string
  {
    var table := DiscTable(game.discs);
    if disc.Some? && disc.value in table then table[disc.value] else game.archivePath
  }

  /** `GetDecompressedSize(disc)`: a known disc's size, the sum over the discs, or the game's size. */
  function DecompressedSizeOf(game: Game, env: Environment, disc: Option<int>): (size: int)
    ensures disc.Some? && disc.value in DiscTable(game.discs) ==>
              size == env.decompressedSize(ArchivePathOf(game, disc), None)
    ensures (disc.None? || disc.value !in DiscTable(game.discs)) && !AllDiscs(game, env, disc) ==>
              size == GameSizeOf(game, env)
    ensures AllDiscs(game, env, disc) && game.discs == [] ==> size == 0
  {
    var table := DiscTable(game.discs);
    if disc.Some? && disc.value in table then env.decompressedSize(table[disc.value], None)
    else if AllDiscs(game, env, disc) then SumSizes(env, table, DiscNumbers(game.discs))
    else GameSizeOf(game, env)
  }

  /** `GetArchiveInCache(disc)`: a known disc's hit, all discs' hits (false without discs), or the game's hit. */
  predicate ArchiveInCacheOf(game: Game, env: Environment, disc: Option<int>): (hit: bool)
    ensures disc.Some? && disc.value in DiscTable(game.discs) ==> (hit <==> DiscInCacheOf(env, ArchivePathOf(game, disc)))
    ensures (disc.None? || disc.value !in DiscTable(game.discs)) && !AllDiscs(game, env, disc) ==>
              (hit <==> GameInCacheOf(game, env))
    ensures AllDiscs(game, env, disc) && game.discs == [] ==> !hit
  {
    var table := DiscTable(game.discs);
    if disc.Some? && disc.value in table then DiscInCacheOf(env, table[disc.value])
    else if AllDiscs(game, env, disc) then |DiscNumbers(game.discs)| > 0 && AllInCache(env, table, DiscNumbers(game.discs))
    else GameInCacheOf(game, env)
  }

  /** `GetDiscCountInCache()`: the number of cached discs of a multi-disc game, else 1 or 0 for the game. */
  function DiscCountOf(game: Game, env: Environment): int
  {
    if game.multiDisc then CountInCache(env, DiscTable(game.discs), DiscNumbers(game.discs))
    else if ArchiveInCacheOf(game, env, None) then 1 else 0
  }

  /** The file one non-recursive `SaveToCache(disc)` writes, or the exception it throws. */
  function SaveRecordOf(game: Game, env: Environment, disc: Option<int>): Result<SaveRecord>
  {
    var table := DiscTable(game.discs);
    var cachePath := env.archiveCachePath(if disc.Some? && disc.value in table then table[disc.value] else game.archivePath);
    var path := env.cacheInfoPath(cachePath);
    var size := if env.infoLoaded(path) then None else Some(DecompressedSizeOf(game, env, disc));
    if disc.None? then Success(SaveRecord(path, game.archivePath, None, size))
    else match FindDisc(game.discs, disc.value)
      case None => Failure("NullReferenceException")
      case Some(archivePath) => Success(SaveRecord(path, archivePath, disc, size))
  }

  /** The files written by saving each of `discs` in turn, stopping at the first exception. */
  function SaveEach(game: Game, env: Environment, discs: seq<Disc>): Result<seq<SaveRecord>>
    decreases |discs|
  {
    if discs == [] then Success([])
    else
      var init := SaveEach(game, env, discs[..|discs| - 1]);
      var last := SaveRecordOf(game, env, Some(discs[|discs| - 1].disc));
      if init.Failure? then init
      else if last.Failure? then Failure(last.error)
      else Success(init.value + [last.value])
  }

  /** `SaveToCache(disc)`: every disc's file for a query covering all discs, else the one file. */
  function SavesOf(game: Game, env: Environment, disc: Option<int>): (saves: Result<seq<SaveRecord>>)
    ensures AllDiscs(game, env, disc) ==> saves.Success? && |saves.value| == |game.discs|
    ensures !AllDiscs(game, env, disc) ==> (saves.Failure? <==> disc.Some? && FindDisc(game.discs, disc.value).None?)
    ensures !AllDiscs(game, env, disc) && saves.Success? ==> |saves.value| == 1 && saves.value[0].selectedDisc == disc
  {
    SaveEachSucceeds(game, env, game.discs);
    if AllDiscs(game, env, disc) then SaveEach(game, env, game.discs)
    else
      var r := SaveRecordOf(game, env, disc);
      if r.Failure? then Failure(r.error) else Success([r.value])
  }

  // ---- Properties of those answers ------------------------------------------------------

  /** The dictionary's keys are exactly the disc numbers of the list, in first-appearance order, each once. */
  lemma {:induction false} DiscNumbersKeys(discs: seq<Disc>)
    ensures forall k :: k in DiscNumbers(discs) <==> k in DiscTable(discs)
    ensures forall k :: k in DiscTable(discs) <==> exists i :: 0 <= i < |discs| && discs[i].disc == k
    ensures forall i, j :: 0 <= i < j < |DiscNumbers(discs)| ==> DiscNumbers(discs)[i] != DiscNumbers(discs)[j]
    decreases |discs|
  {
    if discs != [] {
      var init := discs[..|discs| - 1];
      DiscNumbersKeys(init);
      forall k | k in DiscTable(discs)
        ensures exists i :: 0 <= i < |discs| && discs[i].disc == k
      {
        if k != discs[|discs| - 1].disc {
          assert k in DiscTable(init);
          var i :| 0 <= i < |init| && init[i].disc == k;
          assert discs[i] == init[i];
        }
      }
      forall k | exists i :: 0 <= i < |discs| && discs[i].disc == k
        ensures k in DiscTable(discs)
      {
        var i :| 0 <= i < |discs| && discs[i].disc == k;
        if i < |init| {
          assert init[i] == discs[i];
        }
      }
    }
  }

  /** One more entry of the list: its number is added to the key order if new, and its archive replaces the number's. */
  lemma DiscStep(discs: seq<Disc>, i: nat)
    requires i < |discs|
    ensures DiscNumbers(discs[..i + 1])
         == if discs[i].disc in DiscNumbers(discs[..i]) then DiscNumbers(discs[..i]) else DiscNumbers(discs[..i]) + [discs[i].disc]
    ensures DiscTable(discs[..i + 1]) == DiscTable(discs[..i])[discs[i].disc := discs[i].archivePath]
  {
    assert discs[..i + 1][..i] == discs[..i];
  }

  /** A disc's archive is the one given by the last entry with its number. */
  lemma {:induction false} DiscTableLast(discs: seq<Disc>, i: nat)
    requires i < |discs|
    requires forall j :: i < j < |discs| ==> discs[j].disc != discs[i].disc
    ensures discs[i].disc in DiscTable(discs) && DiscTable(discs)[discs[i].disc] == discs[i].archivePath
    decreases |discs|
  {
    if i < |discs| - 1 {
      var init := discs[..|discs| - 1];
      assert init[i] == discs[i];
      DiscTableLast(init, i);
    }
  }

  /** `List.Find` gives the first entry with the number; when numbers are unique, the dictionary's archive. */
  lemma {:induction false} FindDiscFirst(discs: seq<Disc>, i: nat)
    requires i < |discs|
    requires forall j :: 0 <= j < i ==> discs[j].disc != discs[i].disc
    ensures FindDisc(discs, discs[i].disc) == Some(discs[i].archivePath)
    decreases i
  {
    if i > 0 {
      FindDiscFirst(discs[1..], i - 1);
    }
  }

  /** With no disc number repeated, a disc's saved archive path is the archive its cache data was made for. */
  lemma SavedPathIsCachedPath(discs: seq<Disc>, i: nat)
    requires i < |discs|
    requires forall j, k :: 0 <= j < k < |discs| ==> discs[j].disc != discs[k].disc
    ensures discs[i].disc in DiscTable(discs)
    ensures FindDisc(discs, discs[i].disc) == Some(DiscTable(discs)[discs[i].disc])
  {
    FindDiscFirst(discs, i);
    DiscTableLast(discs, i);
  }

  /** A disc number that is not in the list answers every query like the whole game. */
  lemma UnknownDisc(game: Game, env: Environment, d: int)
    requires forall i :: 0 <= i < |game.discs| ==> game.discs[i].disc != d
    ensures ArchivePathOf(game, Some(d)) == game.archivePath
    ensures DecompressedSizeOf(game, env, Some(d)) == GameSizeOf(game, env)
    ensures ArchiveInCacheOf(game, env, Some(d)) == GameInCacheOf(game, env)
    ensures SaveRecordOf(game, env, Some(d)) == Failure("NullReferenceException")
  {
    DiscNumbersKeys(game.discs);
    if FindDisc(game.discs, d).Some? {
      FindDiscSome(game.discs, d);
    }
  }

  /** `List.Find` only finds an entry with that number. */
  lemma {:induction false} FindDiscSome(discs: seq<Disc>, d: int)
    requires FindDisc(discs, d).Some?
    ensures exists i :: 0 <= i < |discs| && discs[i].disc == d
    decreases |discs|
  {
    if discs[0].disc != d {
      FindDiscSome(discs[1..], d);
      var i :| 0 <= i < |discs[1..]| && discs[1..][i].disc == d;
      assert discs[i + 1].disc == d;
    }
  }

  /** The selected file's own extension is always excluded, with the metadata ones, and nothing else but standalone ones. */
  lemma ExcludeListMembers(extension: string)
    ensures extension in ExcludeList(extension)
    ensures forall e :: e in MetadataFiles ==> e in ExcludeList(extension)
    ensures forall e :: e in ExcludeList(extension) <==>
              e in MetadataFiles || (if extension in StandaloneFiles then e in StandaloneFiles else e == extension)
  {
  }

  /** The conjunction holds exactly when every disc is cached. */
  lemma {:induction false} AllInCacheIff(env: Environment, table: map<int, string>, keys: seq<int>)
    requires forall i :: 0 <= i < |keys| ==> keys[i] in table
    ensures AllInCache(env, table, keys) <==> forall i :: 0 <= i < |keys| ==> DiscInCacheOf(env, table[keys[i]])
    decreases |keys|
  {
    if keys != [] {
      var n := |keys| - 1;
      AllInCacheIff(env, table, keys[..n]);
      assert forall i :: 0 <= i < n ==> keys[..n][i] == keys[i];
    }
  }

  /** The count lies between 0 and the number of discs, and reaches it exactly when every disc is cached. */
  lemma {:induction false} CountInCacheBounds(env: Environment, table: map<int, string>, keys: seq<int>)
    requires forall i :: 0 <= i < |keys| ==> keys[i] in table
    ensures 0 <= CountInCache(env, table, keys) <= |keys|
    ensures CountInCache(env, table, keys) == |keys| <==> forall i :: 0 <= i < |keys| ==> DiscInCacheOf(env, table[keys[i]])
    decreases |keys|
  {
    if keys != [] {
      var n := |keys| - 1;
      CountInCacheBounds(env, table, keys[..n]);
      assert forall i :: 0 <= i < n ==> keys[..n][i] == keys[i];
    }
  }

  /** Every disc of the table is cached exactly when every key of the dictionary's order is. */
  lemma AllKeys(env: Environment, discs: seq<Disc>)
    ensures (forall i :: 0 <= i < |DiscNumbers(discs)| && DiscNumbers(discs)[i] in DiscTable(discs) ==>
               DiscInCacheOf(env, DiscTable(discs)[DiscNumbers(discs)[i]])) <==>
            (forall k :: k in DiscTable(discs) ==> DiscInCacheOf(env, DiscTable(discs)[k]))
    ensures |DiscNumbers(discs)| > 0 <==> discs != []
  {
    DiscNumbersKeys(discs);
    if discs != [] {
      assert discs[0].disc in DiscTable(discs);
    }
    if DiscNumbers(discs) != [] {
      assert DiscNumbers(discs)[0] in DiscTable(discs);
    }
  }

  /** A game covering all its discs is cached exactly when it has discs and each of them is cached. */
  lemma MultiDiscInCache(game: Game, env: Environment)
    requires game.multiDisc && env.multiDiscSupport
    ensures ArchiveInCacheOf(game, env, None) <==>
              game.discs != [] && forall k :: k in DiscTable(game.discs) ==> DiscInCacheOf(env, DiscTable(game.discs)[k])
  {
    DiscNumbersKeys(game.discs);
    AllInCacheIff(env, DiscTable(game.discs), DiscNumbers(game.discs));
    AllKeys(env, game.discs);
  }

  /**
   * The number of cached discs is at most the number of discs (1 for a single-disc game);
   * for a multi-disc game it is all of them exactly when every disc is cached, which is
   * when the game as a whole counts as cached if it has discs and multi-disc support is on.
   */
  lemma DiscCountBounds(game: Game, env: Environment)
    ensures 0 <= DiscCountOf(game, env) <= if game.multiDisc then |DiscNumbers(game.discs)| else 1
    ensures game.multiDisc ==>
              (DiscCountOf(game, env) == |DiscNumbers(game.discs)| <==>
                 forall k :: k in DiscTable(game.discs) ==> DiscInCacheOf(env, DiscTable(game.discs)[k]))
    ensures game.multiDisc && env.multiDiscSupport ==>
              (ArchiveInCacheOf(game, env, None) <==> game.discs != [] && DiscCountOf(game, env) == |DiscNumbers(game.discs)|)
  {
    DiscNumbersKeys(game.discs);
    CountInCacheBounds(env, DiscTable(game.discs), DiscNumbers(game.discs));
    AllKeys(env, game.discs);
    if game.multiDisc && env.multiDiscSupport {
      MultiDiscInCache(game, env);
    }
  }

  /** Saving every disc never throws: each saved number is found in the list it came from, and one file is written per entry. */
  lemma {:induction false} SaveEachSucceeds(game: Game, env: Environment, discs: seq<Disc>)
    requires forall d :: d in discs ==> d in game.discs
    ensures SaveEach(game, env, discs).Success?
    ensures |SaveEach(game, env, discs).value| == |discs|
    ensures forall i :: 0 <= i < |discs| ==> SaveEach(game, env, discs).value[i].selectedDisc == Some(discs[i].disc)
    decreases |discs|
  {
    if discs != [] {
      var init := discs[..|discs| - 1];
      var last := discs[|discs| - 1];
      SaveEachSucceeds(game, env, init);
      assert last in discs;
      var i :| 0 <= i < |game.discs| && game.discs[i] == last;
      FindDiscFound(game.discs, i);
    }
  }

  /** An entry's number is always found. */
  lemma {:induction false} FindDiscFound(discs: seq<Disc>, i: nat)
    requires i < |discs|
    ensures FindDisc(discs, discs[i].disc).Some?
    decreases i
  {
    if i > 0 && discs[0].disc != discs[i].disc {
      FindDiscFound(discs[1..], i - 1);
    }
  }

  // ---- The per-launch state -------------------------------------------------------------

  /** A remembered fact: unknown, or known to be the true value. */
  predicate Memo<T(==)>(known: Option<T>, value: T)
  {
    known.Some? ==> known.value == value
  }

  /** The game's record: its paths as created, and every fact it holds the true one. */
  ghost predicate GameDataValid(game: Game, env: Environment, data: CacheData)
  {
    && data.archivePath == game.archivePath
    && data.archiveCachePath == env.archiveCachePath(game.archivePath)
    && data.copyOnly == env.isCompressedArchive(game.archivePath)
    && Memo(data.extractSingleFile, ExtractSingleFileOf(game, env))
    && Memo(data.decompressedSize, GameSizeOf(game, env))
    && Memo(data.archiveInCache, GameInCacheOf(game, env))
  }

  /** A disc's record: its paths as created, and every fact it holds the true one. */
  ghost predicate DiscDataValid(env: Environment, archivePath: string, data: CacheData)
  {
    && data.archivePath == archivePath
    && data.archiveCachePath == env.archiveCachePath(archivePath)
    && data.copyOnly == env.isCompressedArchive(archivePath)
    && data.extractSingleFile.None?
    && Memo(data.decompressedSize, env.decompressedSize(archivePath, None))
    && Memo(data.archiveInCache, DiscInCacheOf(env, archivePath))
  }

  /** The disc dictionary: one record per disc number, each valid for that disc's archive. */
  ghost predicate DiscsValid(env: Environment, table: map<int, string>, discs: map<int, CacheData>)
  {
    && discs.Keys == table.Keys
    && (forall k :: k in discs ==> DiscDataValid(env, table[k], discs[k]))
  }

  /** A disc in the dictionary is in the table, and its record is valid for that disc's archive. */
  lemma DiscsValidAt(env: Environment, table: map<int, string>, discs: map<int, CacheData>, k: int)
    requires DiscsValid(env, table, discs) && k in discs
    ensures k in table && DiscDataValid(env, table[k], discs[k])
  {
  }

  /** Recording a true fact about one disc keeps the dictionary valid. */
  lemma DiscsUpdate(env: Environment, table: map<int, string>, discs: map<int, CacheData>, k: int, data: CacheData)
    requires DiscsValid(env, table, discs) && k in discs && DiscDataValid(env, table[k], data)
    ensures DiscsValid(env, table, discs[k := data])
  {
  }

  // ---- What each query remembers --------------------------------------------------------

  /** The two facts a disc record can learn. */
  datatype Fact = Size | Hit

  /** A disc record once `fact` is worked out from the archive and cache paths it holds. */
  function Learn(env: Environment, fact: Fact, data: CacheData): (learned: CacheData)
    ensures learned.archivePath == data.archivePath && learned.archiveCachePath == data.archiveCachePath
    ensures fact == Size ==> learned.decompressedSize.Some? && learned.archiveInCache == data.archiveInCache
    ensures fact == Hit ==> learned.archiveInCache.Some? && learned.decompressedSize == data.decompressedSize
  {
    match fact
    case Size => data.(decompressedSize := Some(env.decompressedSize(data.archivePath, None)))
    case Hit => data.(archiveInCache := Some(env.fileExists(env.cacheInfoPath(data.archiveCachePath))))
  }

  /** The disc dictionary once `fact` is worked out for each of the discs `keys`. */
  function LearnAll(env: Environment, fact: Fact, discs: map<int, CacheData>, keys: seq<int>): (learned: map<int, CacheData>)
    ensures learned.Keys == discs.Keys
    decreases |keys|
  {
    if keys == [] then discs
    else
      var before := LearnAll(env, fact, discs, keys[..|keys| - 1]);
      var k := keys[|keys| - 1];
      if k in before then before[k := Learn(env, fact, before[k])] else before
  }

  /** The memo records of the state: the game's record and the disc dictionary. */
  datatype Records = Records(gameData: CacheData, discData: map<int, CacheData>)

  /** Every record of the state holds its paths as created and only true facts. */
  ghost predicate RecordsValid(game: Game, env: Environment, r: Records)
  {
    GameDataValid(game, env, r.gameData) && DiscsValid(env, DiscTable(game.discs), r.discData)
  }

  /** The records after `GetDecompressedSize(disc)`. */
  function SizeQueried(game: Game, env: Environment, disc: Option<int>, r: Records): Records
  {
    if disc.Some? && disc.value in r.discData then
      r.(discData := r.discData[disc.value := Learn(env, Size, r.discData[disc.value])])
    else if AllDiscs(game, env, disc) then
      r.(discData := LearnAll(env, Size, r.discData, DiscNumbers(game.discs)))
    else if r.gameData.decompressedSize.None? then
      r.(gameData := r.gameData.(decompressedSize := Some(GameSizeOf(game, env)),
                                 extractSingleFile := Some(ExtractSingleFileOf(game, env))))
    else r
  }

  /** The records after `GetArchiveInCache(disc)`. */
  function HitQueried(game: Game, env: Environment, disc: Option<int>, r: Records): Records
  {
    if disc.Some? && disc.value in r.discData then
      r.(discData := r.discData[disc.value := Learn(env, Hit, r.discData[disc.value])])
    else if AllDiscs(game, env, disc) then
      r.(discData := LearnAll(env, Hit, r.discData, DiscNumbers(game.discs)))
    else
      r.(gameData := r.gameData.(archiveInCache := Some(GameInCacheOf(game, env))))
  }

  /** The records after `GetDiscCountInCache()`. */
  function CountQueried(game: Game, env: Environment, r: Records): Records
  {
    if game.multiDisc then r.(discData := LearnAll(env, Hit, r.discData, DiscNumbers(game.discs)))
    else HitQueried(game, env, None, r)
  }

  /** The game info path `SaveToCache(disc)` looks at and writes. */
  function InfoPathOf(game: Game, env: Environment, disc: Option<int>): string
  {
    env.cacheInfoPath(env.archiveCachePath(ArchivePathOf(game, disc)))
  }

  /** The discs of `discs`, in list order, without a cached game info: those whose size `SaveToCache` asks for. */
  function UnsavedDiscs(game: Game, env: Environment, discs: seq<Disc>): (numbers: seq<int>)
    ensures forall i :: 0 <= i < |numbers| ==> exists j :: 0 <= j < |discs| && discs[j].disc == numbers[i]
    decreases |discs|
  {
    if discs == [] then []
    else
      var init := UnsavedDiscs(game, env, discs[..|discs| - 1]);
      var d := discs[|discs| - 1].disc;
      if env.infoLoaded(InfoPathOf(game, env, Some(d))) then init else init + [d]
  }

  /** The records after `SaveToCache(disc)`: only sizes asked for to fill a game info file are learned. */
  function SaveQueried(game: Game, env: Environment, disc: Option<int>, r: Records): Records
  {
    if AllDiscs(game, env, disc) then r.(discData := LearnAll(env, Size, r.discData, UnsavedDiscs(game, env, game.discs)))
    else if env.infoLoaded(InfoPathOf(game, env, disc)) then r
    else SizeQueried(game, env, disc, r)
  }

  /** Saving one more disc of the list learns its size exactly when its game info is not cached. */
  lemma SaveDiscStep(game: Game, env: Environment, base: Records, discs: seq<Disc>, i: nat)
    requires i < |discs| && discs[i].disc in base.discData
    ensures var before := base.(discData := LearnAll(env, Size, base.discData, UnsavedDiscs(game, env, discs[..i])));
            (if env.infoLoaded(InfoPathOf(game, env, Some(discs[i].disc))) then before
             else SizeQueried(game, env, Some(discs[i].disc), before))
              == base.(discData := LearnAll(env, Size, base.discData, UnsavedDiscs(game, env, discs[..i + 1])))
  {
    var d := discs[i].disc;
    var keys := UnsavedDiscs(game, env, discs[..i]);
    assert discs[..i + 1][..i] == discs[..i];
    if !env.infoLoaded(InfoPathOf(game, env, Some(d))) {
      LearnAllStep(env, Size, base.discData, keys, d);
    }
  }

  /** Every listed disc number has a record in the dictionary. */
  lemma ListedInTable(discs: seq<Disc>, i: nat)
    requires i < |discs|
    ensures discs[i].disc in DiscTable(discs)
  {
    DiscNumbersKeys(discs);
  }

  /** Saving one more listed disc appends that disc's one file. */
  lemma SaveEachStep(game: Game, env: Environment, discs: seq<Disc>, i: nat)
    requires i < |discs| && SaveEach(game, env, discs[..i]).Success?
    requires FindDisc(game.discs, discs[i].disc).Some?
    ensures SaveRecordOf(game, env, Some(discs[i].disc)).Success?
    ensures SaveEach(game, env, discs[..i + 1])
         == Success(SaveEach(game, env, discs[..i]).value + [SaveRecordOf(game, env, Some(discs[i].disc)).value])
  {
    assert discs[..i + 1][..i] == discs[..i];
  }

  /** Learning a fact a second time changes nothing. */
  lemma LearnTwice(env: Environment, fact: Fact, data: CacheData)
    ensures Learn(env, fact, Learn(env, fact, data)) == Learn(env, fact, data)
  {
  }

  /** Learning a fact the record already holds truly changes nothing. */
  lemma LearnKnown(env: Environment, archivePath: string, fact: Fact, data: CacheData)
    requires DiscDataValid(env, archivePath, data)
    requires fact == Size ==> data.decompressedSize.Some?
    requires fact == Hit ==> data.archiveInCache.Some?
    ensures Learn(env, fact, data) == data
  {
  }

  /** Working a fact out for one more disc is one more update of the dictionary. */
  lemma LearnAllStep(env: Environment, fact: Fact, discs: map<int, CacheData>, keys: seq<int>, k: int)
    requires k in discs
    ensures LearnAll(env, fact, discs, keys + [k])
         == LearnAll(env, fact, discs, keys)[k := Learn(env, fact, LearnAll(env, fact, discs, keys)[k])]
  {
    assert (keys + [k])[..|keys|] == keys;
  }

  /** Each record after working a fact out for `keys`: learned once if its disc is among them, else as it was. */
  lemma {:induction false} LearnAllAt(env: Environment, fact: Fact, discs: map<int, CacheData>, keys: seq<int>, k: int)
    requires k in discs
    ensures LearnAll(env, fact, discs, keys)[k] == if k in keys then Learn(env, fact, discs[k]) else discs[k]
    decreases |keys|
  {
    if keys != [] {
      var init := keys[..|keys| - 1];
      LearnAllAt(env, fact, discs, init, k);
      LearnTwice(env, fact, discs[k]);
      assert keys == init + [keys[|keys| - 1]];
    }
  }

  /** A query asked a second time changes no record: each fact is worked out at most once. */
  lemma SizeQueriedOnce(game: Game, env: Environment, disc: Option<int>, r: Records)
    ensures SizeQueried(game, env, disc, SizeQueried(game, env, disc, r)) == SizeQueried(game, env, disc, r)
  {
    var once := SizeQueried(game, env, disc, r);
    if disc.Some? && disc.value in r.discData {
      LearnTwice(env, Size, r.discData[disc.value]);
    } else if AllDiscs(game, env, disc) {
      forall k | k in r.discData
        ensures LearnAll(env, Size, once.discData, DiscNumbers(game.discs))[k] == once.discData[k]
      {
        LearnAllAt(env, Size, r.discData, DiscNumbers(game.discs), k);
        LearnAllAt(env, Size, once.discData, DiscNumbers(game.discs), k);
        LearnTwice(env, Size, r.discData[k]);
      }
    }
  }

  /** The same for `GetArchiveInCache`: a second query changes no record. */
  lemma HitQueriedOnce(game: Game, env: Environment, disc: Option<int>, r: Records)
    ensures HitQueried(game, env, disc, HitQueried(game, env, disc, r)) == HitQueried(game, env, disc, r)
  {
    var once := HitQueried(game, env, disc, r);
    if disc.Some? && disc.value in r.discData {
      LearnTwice(env, Hit, r.discData[disc.value]);
    } else if AllDiscs(game, env, disc) {
      forall k | k in r.discData
        ensures LearnAll(env, Hit, once.discData, DiscNumbers(game.discs))[k] == once.discData[k]
      {
        LearnAllAt(env, Hit, r.discData, DiscNumbers(game.discs), k);
        LearnAllAt(env, Hit, once.discData, DiscNumbers(game.discs), k);
        LearnTwice(env, Hit, r.discData[k]);
      }
    }
  }

  /**
   * On valid records, `GetDecompressedSize` leaves every record whose size is already known
   * as it was, stores the size it answers, and keeps the records valid.
   */
  lemma SizeQueriedKeepsKnown(game: Game, env: Environment, disc: Option<int>, r: Records)
    requires RecordsValid(game, env, r)
    ensures var after := SizeQueried(game, env, disc, r);
            && RecordsValid(game, env, after)
            && after.discData.Keys == r.discData.Keys
            && (r.gameData.decompressedSize.Some? ==> after.gameData == r.gameData)
            && (forall k :: k in r.discData && r.discData[k].decompressedSize.Some? ==> after.discData[k] == r.discData[k])
            && (disc.Some? && disc.value in r.discData ==>
                  after.discData[disc.value].decompressedSize == Some(DecompressedSizeOf(game, env, disc)))
            && (AllDiscs(game, env, disc) ==> forall k :: k in after.discData ==> after.discData[k].decompressedSize.Some?)
            && (!AllDiscs(game, env, disc) && !(disc.Some? && disc.value in r.discData) ==>
                  after.gameData.decompressedSize == Some(DecompressedSizeOf(game, env, disc)))
  {
    var table := DiscTable(game.discs);
    var after := SizeQueried(game, env, disc, r);
    if disc.Some? && disc.value in r.discData {
      var d := disc.value;
      DiscsValidAt(env, table, r.discData, d);
      DiscsUpdate(env, table, r.discData, d, Learn(env, Size, r.discData[d]));
      if r.discData[d].decompressedSize.Some? {
        LearnKnown(env, table[d], Size, r.discData[d]);
      }
    } else if AllDiscs(game, env, disc) {
      DiscNumbersKeys(game.discs);
      forall k | k in r.discData
        ensures DiscDataValid(env, table[k], after.discData[k])
        ensures r.discData[k].decompressedSize.Some? ==> after.discData[k] == r.discData[k]
        ensures after.discData[k].decompressedSize.Some?
      {
        LearnAllAt(env, Size, r.discData, DiscNumbers(game.discs), k);
        DiscsValidAt(env, table, r.discData, k);
        if r.discData[k].decompressedSize.Some? {
          LearnKnown(env, table[k], Size, r.discData[k]);
        }
      }
    } else {
      assert after.discData == r.discData;
    }
  }

  /** `GetArchiveInCache` stores the hit it answers: for the disc asked, for every disc, or for the game. */
  lemma HitQueriedStores(game: Game, env: Environment, disc: Option<int>, r: Records)
    requires RecordsValid(game, env, r)
    ensures var after := HitQueried(game, env, disc, r);
            && (disc.Some? && disc.value in r.discData ==>
                  after.discData[disc.value].archiveInCache == Some(ArchiveInCacheOf(game, env, disc)))
            && (AllDiscs(game, env, disc) ==> forall k :: k in after.discData ==> after.discData[k].archiveInCache.Some?)
            && (!AllDiscs(game, env, disc) && !(disc.Some? && disc.value in r.discData) ==>
                  after.gameData.archiveInCache == Some(ArchiveInCacheOf(game, env, disc)))
  {
    var table := DiscTable(game.discs);
    var after := HitQueried(game, env, disc, r);
    if disc.Some? && disc.value in r.discData {
      DiscsValidAt(env, table, r.discData, disc.value);
    } else if AllDiscs(game, env, disc) {
      forall k | k in after.discData
        ensures after.discData[k].archiveInCache.Some?
      {
        DiscNumbersKeys(game.discs);
        LearnAllAt(env, Hit, r.discData, DiscNumbers(game.discs), k);
      }
    }
  }

  /**
   * On valid records, `GetArchiveInCache` leaves every record whose hit is already known
   * as it was, and keeps the records valid.
   */
  lemma HitQueriedKeepsKnown(game: Game, env: Environment, disc: Option<int>, r: Records)
    requires RecordsValid(game, env, r)
    ensures var after := HitQueried(game, env, disc, r);
            && RecordsValid(game, env, after)
            && after.discData.Keys == r.discData.Keys
            && (r.gameData.archiveInCache.Some? ==> after.gameData == r.gameData)
            && (forall k :: k in r.discData && r.discData[k].archiveInCache.Some? ==> after.discData[k] == r.discData[k])
  {
    var table := DiscTable(game.discs);
    var after := HitQueried(game, env, disc, r);
    if disc.Some? && disc.value in r.discData {
      var d := disc.value;
      DiscsValidAt(env, table, r.discData, d);
      DiscsUpdate(env, table, r.discData, d, Learn(env, Hit, r.discData[d]));
      if r.discData[d].archiveInCache.Some? {
        LearnKnown(env, table[d], Hit, r.discData[d]);
      }
    } else if AllDiscs(game, env, disc) {
      DiscNumbersKeys(game.discs);
      forall k | k in r.discData
        ensures DiscDataValid(env, table[k], after.discData[k])
        ensures r.discData[k].archiveInCache.Some? ==> after.discData[k] == r.discData[k]
      {
        LearnAllAt(env, Hit, r.discData, DiscNumbers(game.discs), k);
        DiscsValidAt(env, table, r.discData, k);
        if r.discData[k].archiveInCache.Some? {
          LearnKnown(env, table[k], Hit, r.discData[k]);
        }
      }
    } else {
      assert after.discData == r.discData;
    }
  }

  /**
   * The static state of the source: the game (`mGame`), its record (`mGameCacheData`) and
   * the disc dictionary (`mMultiDiscCacheData`, with its key order), with the environment
   * it reads and the game info files it has written.
   */
  class LaunchGameInfo {
    const game: Game
    const env: Environment
    /** The key order of the disc dictionary. */
    const discOrder: seq<int>
    var gameData: CacheData
    var discData: map<int, CacheData>
    var saved: seq<SaveRecord>

    ghost predicate Valid()
      reads this
    {
      && discOrder == DiscNumbers(game.discs)
      && GameDataValid(game, env, gameData)
      && DiscsValid(env, DiscTable(game.discs), discData)
    }

    /** The memo records as they stand. */
    function State(): Records
      reads this
    {
      Records(gameData, discData)
    }

    /** The static constructor: one record for the game and one per disc number, every fact unknown. */
    constructor (game: Game, env: Environment)
      ensures this.game == game && this.env == env && saved == []
      ensures gameData == NewCacheData(env, game.archivePath)
      ensures forall k :: k in discData <==> k in DiscTable(game.discs)
      ensures forall k :: k in discData ==> discData[k] == NewCacheData(env, DiscTable(game.discs)[k])
      ensures Valid()
    {
      var table: map<int, CacheData> := map[];
      var order: seq<int> := [];
      for i := 0 to |game.discs|
        invariant order == DiscNumbers(game.discs[..i])
        invariant table.Keys == DiscTable(game.discs[..i]).Keys
        invariant forall k :: k in table ==> table[k] == NewCacheData(env, DiscTable(game.discs[..i])[k])
      {
        var disc := game.discs[i];
        DiscStep(game.discs, i);
        DiscNumbersKeys(game.discs[..i]);
        // Storing under a new key adds it at the end of the key order; an existing key keeps its place.
        if disc.disc !in table {
          order := order + [disc.disc];
        }
        table := table[disc.disc := NewCacheData(env, disc.archivePath)];
      }
      assert game.discs[..|game.discs|] == game.discs;
      this.game := game;
      this.env := env;
      gameData := NewCacheData(env, game.archivePath);
      discOrder := order;
      discData := table;
      saved := [];
    }

    /** `GetExtractSingleFile`: worked out on the first call, remembered afterwards. */
    method GetExtractSingleFile() returns (single: bool)
      requires Valid()
      modifies this
      ensures Valid()
      ensures single == ExtractSingleFileOf(game, env)
      ensures gameData == old(gameData).(extractSingleFile := Some(single))
      ensures discData == old(discData) && saved == old(saved)
    {
      if gameData.extractSingleFile.None? {
        gameData := gameData.(extractSingleFile := Some(false));
        if env.smartExtract && game.selectedFile != "" {
          var excludeList := MetadataFiles;
          var extension := ToLower(GetExtension(game.selectedFile));
          if extension in StandaloneFiles {
            excludeList := excludeList + StandaloneFiles;
          } else {
            excludeList := excludeList + [extension];
          }
          if |env.fileList(game.archivePath, excludeList)| == 0 {
            gameData := gameData.(extractSingleFile := Some(true));
          }
        }
      }
      single := gameData.extractSingleFile.value;
    }

    /** `GetArchivePath(disc)`. */
    function GetArchivePath(disc: Option<int>): (path: string)
      reads this
      requires Valid()
      ensures path == ArchivePathOf(game, disc)
    {
      if disc.Some? && disc.value in discData then
        DiscsValidAt(env, DiscTable(game.discs), discData, disc.value);
        discData[disc.value].archivePath
      else
        gameData.archivePath
    }

    /** `GetArchiveCachePath(disc)`: the cache directory of the archive `GetArchivePath(disc)` gives. */
    function GetArchiveCachePath(disc: Option<int>): (path: string)
      reads this
      requires Valid()
      ensures path == env.archiveCachePath(ArchivePathOf(game, disc))
    {
      if disc.Some? && disc.value in discData then
        DiscsValidAt(env, DiscTable(game.discs), discData, disc.value);
        discData[disc.value].archiveCachePath
      else gameData.archiveCachePath
    }

    /** The branch of `GetDecompressedSize(disc)` for a disc in the dictionary: its size, asked of the archive tool only the first time. */
    method DiscSize(d: int) returns (size: int)
      requires Valid() && d in discData
      modifies this
      ensures Valid() && saved == old(saved)
      ensures size == env.decompressedSize(DiscTable(game.discs)[d], None)
      ensures State() == old(State()).(discData := old(discData)[d := Learn(env, Size, old(discData)[d])])
    {
      DiscsValidAt(env, DiscTable(game.discs), discData, d);
      var data := discData[d];
      if data.decompressedSize.None? {
        data := data.(decompressedSize := Some(env.decompressedSize(data.archivePath, None)));
        DiscsUpdate(env, DiscTable(game.discs), discData, d, data);
        discData := discData[d := data];
      } else {
        LearnKnown(env, DiscTable(game.discs)[d], Size, data);
        assert discData == discData[d := data];
      }
      size := data.decompressedSize.value;
    }

    /** `GetDecompressedSize(disc)`: each size is asked of the archive tool at most once. */
    method GetDecompressedSize(disc: Option<int>) returns (size: int)
      requires Valid()
      modifies this
      ensures Valid()
      ensures size == DecompressedSizeOf(game, env, disc)
      ensures State() == SizeQueried(game, env, disc, old(State()))
      ensures saved == old(saved)
    {
      if disc.Some? && disc.value in discData {
        size := DiscSize(disc.value);
        return;
      }
      // An unknown disc (`KeyNotFoundException`) falls through to the whole game.
      if game.multiDisc && env.multiDiscSupport && disc.None? {
        size := SumDiscSizes();
        return;
      }
      if gameData.decompressedSize.None? {
        var single := GetExtractSingleFile();
        var filename := if single then Some(game.selectedFile) else None;
        gameData := gameData.(decompressedSize := Some(env.decompressedSize(gameData.archivePath, filename)));
      }
      size := gameData.decompressedSize.value;
    }

    /** The loop of `GetDecompressedSize()` for a game covering all discs: the sum over the disc dictionary. */
    method SumDiscSizes() returns (total: int)
      requires Valid()
      modifies this
      ensures Valid() && saved == old(saved)
      ensures total == SumSizes(env, DiscTable(game.discs), discOrder)
      ensures State() == old(State()).(discData := LearnAll(env, Size, old(discData), discOrder))
    {
      total := 0;
      for i := 0 to |discOrder|
        invariant Valid() && saved == old(saved)
        invariant total == SumSizes(env, DiscTable(game.discs), discOrder[..i])
        invariant State() == old(State()).(discData := LearnAll(env, Size, old(discData), discOrder[..i]))
      {
        LearnAllStep(env, Size, old(discData), discOrder[..i], discOrder[i]);
        var s := DiscSize(discOrder[i]);
        assert discOrder[..i + 1] == discOrder[..i] + [discOrder[i]];
        total := total + s;
      }
      assert discOrder[..|discOrder|] == discOrder;
    }

    /** The branch of `GetArchiveInCache(disc)` for a disc in the dictionary: its hit, checked on disk only the first time. */
    method DiscHit(d: int) returns (inCache: bool)
      requires Valid() && d in discData
      modifies this
      ensures Valid() && saved == old(saved)
      ensures inCache == DiscInCacheOf(env, DiscTable(game.discs)[d])
      ensures State() == old(State()).(discData := old(discData)[d := Learn(env, Hit, old(discData)[d])])
    {
      DiscsValidAt(env, DiscTable(game.discs), discData, d);
      var data := discData[d];
      if data.archiveInCache.None? {
        data := data.(archiveInCache := Some(env.fileExists(env.cacheInfoPath(data.archiveCachePath))));
        DiscsUpdate(env, DiscTable(game.discs), discData, d, data);
        discData := discData[d := data];
      } else {
        LearnKnown(env, DiscTable(game.discs)[d], Hit, data);
        assert discData == discData[d := data];
      }
      inCache := data.archiveInCache.value;
    }

    /** `GetArchiveInCache(disc)`: each file check is made at most once, the selected file's on every call. */
    method GetArchiveInCache(disc: Option<int>) returns (inCache: bool)
      requires Valid()
      modifies this
      ensures Valid()
      ensures inCache == ArchiveInCacheOf(game, env, disc)
      ensures State() == HitQueried(game, env, disc, old(State()))
      ensures saved == old(saved)
    {
      if disc.Some? && disc.value in discData {
        inCache := DiscHit(disc.value);
        return;
      }
      // An unknown disc (`KeyNotFoundException`) falls through to the whole game.
      if game.multiDisc && env.multiDiscSupport && disc.None? {
        inCache := AllDiscsInCache();
        return;
      }
      if gameData.archiveInCache.None? {
        gameData := gameData.(archiveInCache := Some(env.fileExists(env.cacheInfoPath(gameData.archiveCachePath))));
      }
      if env.smartExtract && game.selectedFile != "" {
        var selectedExists := env.fileExists(env.combine(gameData.archiveCachePath, game.selectedFile));
        gameData := gameData.(archiveInCache := Some(gameData.archiveInCache.value && selectedExists));
      }
      inCache := gameData.archiveInCache.value;
    }

    /**
     * The loop of `GetArchiveInCache()` for a game covering all discs: every disc's hit,
     * conjoined without short-circuit, starting from the dictionary's Count being positive.
     */
    method AllDiscsInCache() returns (all: bool)
      requires Valid()
      modifies this
      ensures Valid() && saved == old(saved)
      ensures all == (|discOrder| > 0 && AllInCache(env, DiscTable(game.discs), discOrder))
      ensures State() == old(State()).(discData := LearnAll(env, Hit, old(discData), discOrder))
    {
      all := |discOrder| > 0;
      for i := 0 to |discOrder|
        invariant Valid() && saved == old(saved)
        invariant all == (|discOrder| > 0 && AllInCache(env, DiscTable(game.discs), discOrder[..i]))
        invariant State() == old(State()).(discData := LearnAll(env, Hit, old(discData), discOrder[..i]))
      {
        LearnAllStep(env, Hit, old(discData), discOrder[..i], discOrder[i]);
        var hit := DiscHit(discOrder[i]);
        assert discOrder[..i + 1] == discOrder[..i] + [discOrder[i]];
        all := all && hit;
      }
      assert discOrder[..|discOrder|] == discOrder;
    }

    /** `GetDiscCountInCache()`. */
    method GetDiscCountInCache() returns (count: int)
      requires Valid()
      modifies this
      ensures Valid()
      ensures count == DiscCountOf(game, env)
      ensures State() == CountQueried(game, env, old(State()))
      ensures saved == old(saved)
    {
      if game.multiDisc {
        ghost var table := DiscTable(game.discs);
        count := 0;
        for i := 0 to |discOrder|
          invariant Valid() && saved == old(saved)
          invariant count == CountInCache(env, table, discOrder[..i])
          invariant State() == old(State()).(discData := LearnAll(env, Hit, old(discData), discOrder[..i]))
        {
          LearnAllStep(env, Hit, old(discData), discOrder[..i], discOrder[i]);
          var hit := DiscHit(discOrder[i]);
          assert discOrder[..i + 1] == discOrder[..i] + [discOrder[i]];
          count := count + if hit then 1 else 0;
        }
        assert discOrder[..|discOrder|] == discOrder;
        return count;
      }
      var hit := GetArchiveInCache(None);
      count := if hit then 1 else 0;
    }

    /**
     * `SaveToCache(disc)` for one query that does not cover all discs: one game info file
     * in the cache directory, with the decompressed size unless a cached game info is
     * there to merge; an unknown disc throws once the size is known.
     */
    method SaveOne(disc: Option<int>) returns (thrown: Option<string>)
      requires Valid() && !AllDiscs(game, env, disc)
      modifies this
      ensures Valid()
      ensures SaveRecordOf(game, env, disc).Success? ==> thrown.None? && saved == old(saved) + [SaveRecordOf(game, env, disc).value]
      ensures SaveRecordOf(game, env, disc).Failure? ==> thrown == Some(SaveRecordOf(game, env, disc).error) && saved == old(saved)
      ensures State() == if env.infoLoaded(InfoPathOf(game, env, disc)) then old(State()) else SizeQueried(game, env, disc, old(State()))
    {
      var path := env.cacheInfoPath(GetArchiveCachePath(disc));
      var size := None;
      if !env.infoLoaded(path) {
        var s := GetDecompressedSize(disc);
        size := Some(s);
      }
      var archivePath := game.archivePath;
      var selectedDisc := None;
      if disc.Some? {
        var found := FindDisc(game.discs, disc.value);
        if found.None? {
          return Some("NullReferenceException");
        }
        archivePath := found.value;
        selectedDisc := disc;
      }
      saved := saved + [SaveRecord(path, archivePath, selectedDisc, size)];
      thrown := None;
    }

    /** One iteration of the loop of `SaveToCache()`: the `i`-th entry of the disc list saved as one disc. */
    method SaveListedDisc(i: nat, ghost base: Records, ghost savedBefore: seq<SaveRecord>)
      requires Valid() && i < |game.discs| && DiscsValid(env, DiscTable(game.discs), base.discData)
      requires SaveEach(game, env, game.discs[..i]).Success?
      requires saved == savedBefore + SaveEach(game, env, game.discs[..i]).value
      requires State() == base.(discData := LearnAll(env, Size, base.discData, UnsavedDiscs(game, env, game.discs[..i])))
      modifies this
      ensures Valid()
      ensures SaveEach(game, env, game.discs[..i + 1]).Success?
      ensures saved == savedBefore + SaveEach(game, env, game.discs[..i + 1]).value
      ensures State() == base.(discData := LearnAll(env, Size, base.discData, UnsavedDiscs(game, env, game.discs[..i + 1])))
    {
      var d := game.discs[i].disc;
      FindDiscFound(game.discs, i);
      SaveEachStep(game, env, game.discs, i);
      ListedInTable(game.discs, i);
      SaveDiscStep(game, env, base, game.discs, i);
      ghost var prev := SaveEach(game, env, game.discs[..i]).value;
      ghost var record := SaveRecordOf(game, env, Some(d)).value;
      ghost var before := State();
      var discThrown := SaveOne(Some(d));
      assert saved == savedBefore + (prev + [record]);
      assert State() == if env.infoLoaded(InfoPathOf(game, env, Some(d))) then before else SizeQueried(game, env, Some(d), before);
    }

    /** The loop of `SaveToCache()` for a query covering all discs: each entry of the disc list saved as one disc. */
    method SaveEachDisc()
      requires Valid()
      modifies this
      ensures Valid()
      ensures SaveEach(game, env, game.discs).Success? && saved == old(saved) + SaveEach(game, env, game.discs).value
      ensures State() == old(State()).(discData := LearnAll(env, Size, old(discData), UnsavedDiscs(game, env, game.discs)))
    {
      ghost var base := State();
      ghost var savedBefore := saved;
      for i := 0 to |game.discs|
        invariant Valid()
        invariant SaveEach(game, env, game.discs[..i]).Success?
        invariant saved == savedBefore + SaveEach(game, env, game.discs[..i]).value
        invariant State() == base.(discData := LearnAll(env, Size, base.discData, UnsavedDiscs(game, env, game.discs[..i])))
      {
        SaveListedDisc(i, base, savedBefore);
      }
      assert game.discs[..|game.discs|] == game.discs;
    }

    /**
     * `SaveToCache(disc)`: for a query covering all discs, saves each entry of the disc list
     * in turn; otherwise writes the one game info file.
     */
    method SaveToCache(disc: Option<int>) returns (thrown: Option<string>)
      requires Valid()
      modifies this
      ensures Valid()
      ensures SavesOf(game, env, disc).Success? ==> thrown.None? && saved == old(saved) + SavesOf(game, env, disc).value
      ensures SavesOf(game, env, disc).Failure? ==> thrown == Some(SavesOf(game, env, disc).error) && saved == old(saved)
      ensures State() == SaveQueried(game, env, disc, old(State()))
    {
      if game.multiDisc && env.multiDiscSupport && disc.None? {
        SaveEachDisc();
        return None;
      }
      thrown := SaveOne(disc);
    }
  }
}
