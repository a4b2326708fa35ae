# Archive Cache Manager — a Dafny model of its decision core

Archive Cache Manager is a LaunchBox plugin. It sits between LaunchBox and 7-Zip. When a game
stored in an archive is launched, it extracts or copies the archive into a size-limited cache.
It reuses the cached copy on later launches. This project models the parts of the plugin that
decide and compute, and proves properties about them:

- **Policy store** (`Config`, `config.dfy`). The global settings and the per-"emulator \ platform"
  records with nine fields each. Every field lookup falls back from the exact key to "All \ All",
  then to a compiled-in default. `Load` reads the INI file and corrects out-of-range values.
  `Save` writes the store back. The store is the class `Config.GlobalConfig`. Its operations are
  proved against the pure functions `LoadSettings` and `SaveDocument`.
- **Per-launch cache state** (`LaunchGameInfo`, `launch_game_info.dfy`). The launched game, its
  discs, and the facts the plugin works out once and then remembers. These are the cache hit,
  the decompressed size and the smart single-file decision, for the game and for each disc. The
  class `LaunchGameInfo.LaunchGameInfo` keeps the memo records. Each method is proved to return
  the value of a specification function of the game and its environment.
- **7-Zip backend** (`Zip`, `zip.dfy`). The include/exclude switches, the `7z l` output parsing
  (file names at column 53, sizes at column 25), the extraction command, the supported
  extensions, and the quoting of a raw command line.
- **Launch decisions** (`GameLaunching`, `game_launching.dfy`). Whether a launch goes through the
  cache, whether the application path is redirected, and which backend's executable must be present.
- **Selection index** (`GameIndex`, `game_index.dfy`). An optional INI store of the file the user
  selected in each game's archive.

Supporting modules: `Wrappers` (`Option`, `Result`); `Text` (the .NET string operations the code
uses: `Trim`, `Split` without empty entries, `String.Join`, `Path.GetExtension`, `ToLower`,
`Int64` and `Boolean` text); `Ini` (the INI library as section names in file order plus a map of
maps).

Anything outside the plugin is a parameter. This covers the file system, the 7-Zip process, the
host's answers about the game and emulator, and the other backends' type checks. For example,
`Zip` takes `run: string -> ProcessResult` for running `7z`, and `LaunchGameInfo` takes an
`Environment` value of functions fixed for the launch.

## Model

| member | source | states |
|---|---|---|
| Config.NewEmulatorPlatformConfig | src/Core/Config.cs:71-82 | a new record holds every compiled-in default (Extract, "mds, gdi, cue, eboot.bin", Default launch path, multi-disc and smart extract on, GameId, the three tools off) |
| Config.EmulatorPlatformKeyInjective | src/Core/Config.cs:344 | for emulator names without a backslash, the key `emulator \ platform` determines both names |
| Config.FirstBackslash | src/Core/Config.cs:344 | in such a key the first backslash sits right after the emulator name and a space |
| Config.EmulatorPlatformKey | src/Core/Config.cs:344 | the key is the emulator name, " \ " and the platform name, each at its own position |
| Config.GetEmulatorPlatformConfig | src/Core/Config.cs:174-189 | the key's record if present, else the "All \ All" record if present, else a fresh default record; never fails |
| Config.GetFilenamePriority | src/Core/Config.cs:191-206 | the field of the record chosen by the same three-level fallback |
| Config.GetAction | src/Core/Config.cs:208-223 | the field of the record chosen by the same three-level fallback |
| Config.GetLaunchPath | src/Core/Config.cs:225-240 | the field of the record chosen by the same three-level fallback |
| Config.GetMultiDisc | src/Core/Config.cs:242-257 | the field of the record chosen by the same three-level fallback |
| Config.GetM3uName | src/Core/Config.cs:259-274 | the field of the record chosen by the same three-level fallback |
| Config.GetSmartExtract | src/Core/Config.cs:276-291 | the field of the record chosen by the same three-level fallback |
| Config.GetChdman | src/Core/Config.cs:293-308 | the field of the record chosen by the same three-level fallback |
| Config.GetDolphinTool | src/Core/Config.cs:310-325 | the field of the record chosen by the same three-level fallback |
| Config.GetExtractXiso | src/Core/Config.cs:327-342 | the field of the record chosen by the same three-level fallback |
| Config.ParseAction | src/Core/Config.cs:384 | `Enum.TryParse` of the trimmed text: Copy exactly for "Copy" or the number 1, ExtractCopy exactly for "ExtractCopy" or 2, and the first member, Extract, for null and anything else |
| Config.ParseLaunchPath | src/Core/Config.cs:385 | Title, Platform and Emulator exactly for their names or the numbers 1, 2 and 3 after trimming; the first member, Default, for null and anything else |
| Config.ParseM3uName | src/Core/Config.cs:387 | TitleVersion and DiscOneFilename exactly for their names or the numbers 1 and 2 after trimming; the first member, GameId, for null and anything else |
| Config.NameValue | src/Core/Config.cs:384-387 | the number of the member a name denotes, and 0 when no member has that name |
| Config.EnumValue | src/Core/Config.cs:384-387 | `Enum.TryParse` as a number: null is 0, integer text gives its value when it fits in 32 bits (else 0), a member name its number, anything else 0 |
| Config.EnumValueIs | src/Core/Config.cs:384-387 | when no member name is integer text, member `i` is read exactly from its name or from the text of `i` |
| Config.ActionNamesWords | src/Core/Config.cs:384 | no Action member name parses as an integer |
| Config.LaunchPathNamesWords | src/Core/Config.cs:385 | no LaunchPath member name parses as an integer |
| Config.M3uNameNamesWords | src/Core/Config.cs:387 | no M3uName member name parses as an integer |
| Config.ReadBool | src/Core/Config.cs:367 | `Convert.ToBoolean` of null is false |
| Config.ReadInt64 | src/Core/Config.cs:365-366 | `Convert.ToInt64` of null is 0; a converted value is a 64-bit integer |
| Config.ActionRoundTrip | src/Core/Config.cs:477 | the name `Save` writes for an action reads back as that action |
| Config.LaunchPathRoundTrip | src/Core/Config.cs:478 | the name written for a launch path reads back as that launch path |
| Config.M3uNameRoundTrip | src/Core/Config.cs:480 | the name written for an m3u naming reads back as that naming |
| Config.ActionNameTrimmed | src/Core/Config.cs:477 | an action name has no surrounding white space |
| Config.LaunchPathNameTrimmed | src/Core/Config.cs:478 | a launch-path name has no surrounding white space |
| Config.M3uNameNameTrimmed | src/Core/Config.cs:480 | an m3u-naming name has no surrounding white space |
| Config.EntryPairsSection | src/Core/Config.cs:476-484 | the nine `SetValue` calls for one key build exactly that key's section, because the nine keys are distinct |
| Config.EntrySectionValues | src/Core/Config.cs:383-391 | each of the nine values read from a saved section is the text `Save` wrote for that field |
| Config.EntryRoundTrip | src/Core/Config.cs:383-391 | a section written for a record is read back as that record, field for field |
| Config.DefaultSettings | src/Core/Config.cs:501-515 | after `SetDefaultConfig` the dictionary holds exactly "All \ All" with defaults and "PCSX2 \ Sony Playstation 2" differing only in "bin, iso"; the cache path is "ArchiveCache" and the sizes are in range; UpdateCheck, SkipUpdate, MultiDiscSupport and UseGameIdAsM3uFilename are kept |
| Config.ReadGlobalSection | src/Core/Config.cs:364-373 | converted sizes are 64-bit integers |
| Config.AssignGlobals | src/Core/Config.cs:364-373 | the global branch leaves the dictionary alone and succeeds exactly when every conversion succeeds |
| Config.ReadSection | src/Core/Config.cs:360-392 | the global branch is taken exactly for the "Archive Cache Manager" section; a policy branch reads the section it is named after |
| Config.ReadSections | src/Core/Config.cs:360 | the sections are read in file order, one reading per section |
| Config.ParseSectionsStuck | src/Core/Config.cs:357-416 | once a section throws, later sections change nothing |
| Config.ParseSectionsNext | src/Core/Config.cs:360-393 | while no section has thrown, one more iteration applies the next section to the store read so far |
| Config.ApplySectionWellformed | src/Core/Config.cs:376-392 | a policy section adds its key to the dictionary once, keeping the dictionary and its enumeration order in step |
| Config.ParseSectionsWellformed | src/Core/Config.cs:359-393 | the whole first loop keeps the store well formed |
| Config.AddDefaultKey | src/Core/Config.cs:404-407 | afterwards "All \ All" is a key; an existing "All \ All" record is kept |
| Config.Validate | src/Core/Config.cs:417-436 | an unsafe path becomes "ArchiveCache", a non-positive cache size 20000, a negative minimum 100; nothing else changes, and afterwards size > 0 and minimum >= 0 |
| Config.LoadEstablishes | src/Core/Config.cs:349-450 | whatever the file holds, `Load` leaves a well-formed store with the corrected bounds and an "All \ All" key |
| Config.LoadSettings | src/Core/Config.cs:349-450 | a missing file gives the defaults and a save; no save happens unless the file has an "All \ All" section; the result always has size > 0, minimum >= 0, a safe or default path and an "All \ All" key |
| Config.AddDefaultKeyWellformed | src/Core/Config.cs:404-407 | adding "All \ All" keeps the dictionary and its enumeration order in step |
| Config.EntrySections | src/Core/Config.cs:474-485 | `Save` writes one section per dictionary key |
| Config.GlobalSectionValues | src/Core/Config.cs:459-472 | the global section's keys and texts; UpdateCheck only when set, SkipUpdate only when non-empty, MultiDiscSupport and UseGameIdAsM3uFilename never |
| Config.SaveDocument | src/Core/Config.cs:455-485 | the saved document has the global section followed by every key in dictionary order, no other section, the global values, and each key's record as its section |
| Config.SavedPrefixStep | src/Core/Config.cs:474-485 | each iteration of the save loop appends the next key's section |
| Config.EntrySectionOf | src/Core/Config.cs:476-484 | the section written for a key is the nine values of its record, and there is at least one |
| Config.PolicyPrefixStep | src/Core/Config.cs:474 | each next key of the enumeration order is new and adds its own record |
| Config.PolicyPrefixAll | src/Core/Config.cs:474 | the records of all keys in enumeration order make up the whole dictionary |
| Config.ReadSavedGlobals | src/Core/Config.cs:364-373 | a saved global section reads back as the saved values |
| Config.ReadSavedEntries | src/Core/Config.cs:383-391 | every saved key's section reads back as the key's record |
| Config.ReadSavedDocument | src/Core/Config.cs:360-393 | a saved document's sections are read as the global values followed by the records |
| Config.GlobalRoundTrip | src/Core/Config.cs:364-373 | reading a saved global section restores the saved values; the two flags not written become false |
| Config.PolicyPrefixRoundTrip | src/Core/Config.cs:359-393 | reading the saved sections one by one rebuilds the dictionary and its order key by key |
| Config.SavedSectionsParse | src/Core/Config.cs:359-393 | the first loop over a saved document succeeds and rebuilds the store, except the two flags `Save` omits |
| Config.SaveLoadRoundTrip | src/Core/Config.cs:349-496 | loading what `Save` wrote restores every record field for field and every global value `Save` writes, and does not save again |
| Config.CacheSizeOnlyGlobals | src/Core/Config.cs:364-373 | a global section holding only CacheSize reads every missing key as null |
| Config.CacheSizeOnlyEntry | src/Core/Config.cs:383-391 | an empty "All \ All" section reads as the record of null values |
| Config.CorrectionNotPersisted | src/Core/Config.cs:415-449 | a non-positive CacheSize is corrected in memory, but with an "All \ All" section present the file is not saved again |
| Config.GlobalConfig.constructor | src/Core/Config.cs:101-105 | the static constructor sets the defaults and loads; the file is rewritten only when `Load` saves and the write goes through |
| Config.GlobalConfig.SetDefaultConfig | src/Core/Config.cs:501-515 | the new state is `DefaultSettings` of the old one; the file is untouched |
| Config.GlobalConfig.LoadGlobalSection | src/Core/Config.cs:362-374 | the global branch assigns each converted value in order and stops at the first that throws |
| Config.GlobalConfig.LoadPolicySection | src/Core/Config.cs:376-392 | the policy branch creates the key's record if new and assigns the nine fields in order |
| Config.GlobalConfig.LoadSection | src/Core/Config.cs:361-392 | one iteration of the first loop is `ApplySection` of the section read from the file; the file is untouched |
| Config.GlobalConfig.LoadSections | src/Core/Config.cs:359-393 | the first loop is the section-by-section fold `ParseSections` |
| Config.GlobalConfig.HasDefaultSection | src/Core/Config.cs:396-403 | the second loop finds "All \ All" exactly when it is a section of the file |
| Config.GlobalConfig.ValidateGlobals | src/Core/Config.cs:417-436 | the corrections are `Validate` |
| Config.GlobalConfig.Load | src/Core/Config.cs:349-450 | the new state is `LoadSettings` of the old state and the file; the file becomes the saved document only when `Load` saves and the write goes through |
| Config.GlobalConfig.SaveGlobalSection | src/Core/Config.cs:457-472 | the document before the loop is the global section alone |
| Config.GlobalConfig.Save | src/Core/Config.cs:455-496 | the file becomes `SaveDocument` of the state when the write goes through, and stays as it was when the write fails; the state is unchanged |
| LaunchGameInfo.DiscNumbersKeys | src/Core/LaunchGameInfo.cs:55-64 | the disc dictionary's keys are exactly the listed disc numbers, enumerated once each in first-appearance order |
| LaunchGameInfo.DiscNumbers | src/Core/LaunchGameInfo.cs:55-64 | every enumerated disc number has a record in the disc dictionary |
| LaunchGameInfo.DiscStep | src/Core/LaunchGameInfo.cs:56-58 | one more list entry adds its number to the key order if new and overwrites that number's archive |
| LaunchGameInfo.DiscTableLast | src/Core/LaunchGameInfo.cs:58-59 | a disc number's record is for the archive of the last entry with that number |
| LaunchGameInfo.FindDiscFirst | src/Core/LaunchGameInfo.cs:293 | `List.Find` returns the archive of the first entry with the number |
| LaunchGameInfo.FindDiscFound | src/Core/LaunchGameInfo.cs:293 | `List.Find` always finds a listed number |
| LaunchGameInfo.FindDiscSome | src/Core/LaunchGameInfo.cs:293 | `List.Find` only finds an entry with that number |
| LaunchGameInfo.SavedPathIsCachedPath | src/Core/LaunchGameInfo.cs:58-59 | without repeated numbers, the archive saved for a disc is the one its cache record was made for |
| LaunchGameInfo.UnknownDisc | src/Core/LaunchGameInfo.cs:160-170 | an unknown disc number answers the path, size and cache queries like the whole game, and makes `SaveToCache` throw |
| LaunchGameInfo.DecompressedSizeOf | src/Core/LaunchGameInfo.cs:72-118 | a known disc's size as 7-Zip reports it; the game's size for an unknown disc or a single query; 0 for a multi-disc query over no discs |
| LaunchGameInfo.ArchiveInCacheOf | src/Core/LaunchGameInfo.cs:200-243 | a known disc's hit; the game's hit for an unknown disc or a single query; false for a multi-disc query over no discs |
| LaunchGameInfo.SavesOf | src/Core/LaunchGameInfo.cs:266-298 | a multi-disc query writes one file per listed disc and never throws; otherwise one file for the requested disc, and it throws exactly for a disc number that is not listed |
| LaunchGameInfo.ExcludeListMembers | src/Core/LaunchGameInfo.cs:128-138 | the exclude list is the metadata list plus the whole standalone list for a standalone extension, else plus that extension alone |
| LaunchGameInfo.AllInCacheIff | src/Core/LaunchGameInfo.cs:221-227 | the `&=` fold is true exactly when every disc is cached |
| LaunchGameInfo.CountInCacheBounds | src/Core/LaunchGameInfo.cs:255-261 | the count lies between 0 and the number of discs and reaches it exactly when every disc is cached |
| LaunchGameInfo.AllKeys | src/Core/LaunchGameInfo.cs:221 | folding over the key order covers exactly the discs of the dictionary, and the order is empty exactly for an empty list |
| LaunchGameInfo.MultiDiscInCache | src/Core/LaunchGameInfo.cs:219-230 | a multi-disc game is cached exactly when it has discs and every disc is cached |
| LaunchGameInfo.DiscCountBounds | src/Core/LaunchGameInfo.cs:249-264 | the count is at most the number of discs (at most 1 for a single game), and equals it exactly when every disc is cached |
| LaunchGameInfo.SaveEachSucceeds | src/Core/LaunchGameInfo.cs:268-276 | saving each disc in turn never throws and writes one file per entry, for that entry's disc |
| LaunchGameInfo.SaveEachStep | src/Core/LaunchGameInfo.cs:270-273 | each iteration of the multi-disc save loop appends the record of its disc |
| LaunchGameInfo.UnsavedDiscs | src/Core/LaunchGameInfo.cs:282-289 | the discs whose size a save queries are among the listed discs |
| LaunchGameInfo.SaveDiscStep | src/Core/LaunchGameInfo.cs:270-289 | each iteration of the multi-disc save loop learns the size of its disc exactly when no game info file is cached for it |
| LaunchGameInfo.ListedInTable | src/Core/LaunchGameInfo.cs:55-58 | every listed disc number has a record in the disc dictionary |
| LaunchGameInfo.DiscsUpdate | src/Core/LaunchGameInfo.cs:78-80 | recording a true fact about one disc keeps every disc record valid |
| LaunchGameInfo.DiscsValidAt | src/Core/LaunchGameInfo.cs:55-64 | every disc record is for the archive the disc dictionary lists for its number |
| LaunchGameInfo.Learn | src/Core/LaunchGameInfo.cs:78-81 | learning a fact fills that fact and keeps the paths and the other fact |
| LaunchGameInfo.LearnAll | src/Core/LaunchGameInfo.cs:96-99 | a loop over the disc dictionary keeps its keys |
| LaunchGameInfo.LearnTwice | src/Core/LaunchGameInfo.cs:78-81 | learning a fact twice is learning it once |
| LaunchGameInfo.LearnKnown | src/Core/LaunchGameInfo.cs:78 | a record that already holds the fact is left as it is |
| LaunchGameInfo.LearnAllStep | src/Core/LaunchGameInfo.cs:96-99 | one more key learns the fact for that key's record |
| LaunchGameInfo.LearnAllAt | src/Core/LaunchGameInfo.cs:96-99 | after the loop a record has learned the fact exactly when its key was visited |
| LaunchGameInfo.SizeQueriedOnce | src/Core/LaunchGameInfo.cs:72-118 | asking for a size twice changes the memo records no more than asking once |
| LaunchGameInfo.HitQueriedOnce | src/Core/LaunchGameInfo.cs:200-243 | asking for a cache hit twice changes the memo records no more than asking once |
| LaunchGameInfo.SizeQueriedKeepsKnown | src/Core/LaunchGameInfo.cs:72-118 | a size query keeps the records valid and their keys, keeps every size already known, and stores the size it answered |
| LaunchGameInfo.HitQueriedStores | src/Core/LaunchGameInfo.cs:200-243 | a cache query stores the hit it answered, for the disc, for every disc, or for the game |
| LaunchGameInfo.HitQueriedKeepsKnown | src/Core/LaunchGameInfo.cs:200-243 | a cache query keeps the records valid and their keys, and keeps every hit already known |
| LaunchGameInfo.LaunchGameInfo.constructor | src/Core/LaunchGameInfo.cs:43-65 | one fresh record for the game and one per disc number, for the last archive listed with it, every fact unknown |
| LaunchGameInfo.LaunchGameInfo.GetExtractSingleFile | src/Core/LaunchGameInfo.cs:120-149 | the answer is true exactly when smart extraction is on, a file is selected, and the listing minus the exclude list is empty; it is remembered |
| LaunchGameInfo.LaunchGameInfo.GetArchivePath | src/Core/LaunchGameInfo.cs:156-171 | a known disc's archive, otherwise the game's |
| LaunchGameInfo.LaunchGameInfo.GetArchiveCachePath | src/Core/LaunchGameInfo.cs:178-193 | the cache directory of the archive `GetArchivePath` gives |
| LaunchGameInfo.LaunchGameInfo.DiscSize | src/Core/LaunchGameInfo.cs:76-84 | a known disc's size as 7-Zip reports it; only that disc's record changes, and it learns its size |
| LaunchGameInfo.LaunchGameInfo.GetDecompressedSize | src/Core/LaunchGameInfo.cs:72-118 | the answer is `DecompressedSizeOf` the game and the query, and the memo records become `SizeQueried` of the old ones |
| LaunchGameInfo.LaunchGameInfo.SumDiscSizes | src/Core/LaunchGameInfo.cs:94-101 | the loop returns the sum of the disc sizes in dictionary order, and every disc record learns its size |
| LaunchGameInfo.LaunchGameInfo.DiscHit | src/Core/LaunchGameInfo.cs:204-211 | a known disc's cache hit; only that disc's record changes, and it learns its hit |
| LaunchGameInfo.LaunchGameInfo.GetArchiveInCache | src/Core/LaunchGameInfo.cs:200-243 | the answer is `ArchiveInCacheOf` the game and the query, and the memo records become `HitQueried` of the old ones |
| LaunchGameInfo.LaunchGameInfo.AllDiscsInCache | src/Core/LaunchGameInfo.cs:219-230 | the loop returns "has discs" and the hit of every disc, and every disc record learns its hit |
| LaunchGameInfo.LaunchGameInfo.GetDiscCountInCache | src/Core/LaunchGameInfo.cs:249-264 | the number of cached discs of a multi-disc game, else 1 or 0 for the game; the memo records become `CountQueried` of the old ones |
| LaunchGameInfo.LaunchGameInfo.SaveOne | src/Core/LaunchGameInfo.cs:278-297 | one game info file for the query, or the exception of an unknown disc with nothing written; the size is queried only when no file is cached |
| LaunchGameInfo.LaunchGameInfo.SaveListedDisc | src/Core/LaunchGameInfo.cs:270-273 | one iteration of the multi-disc save loop adds its disc's record and learns its size when needed |
| LaunchGameInfo.LaunchGameInfo.SaveEachDisc | src/Core/LaunchGameInfo.cs:268-276 | the multi-disc save loop writes one record per listed disc in list order and never throws |
| LaunchGameInfo.LaunchGameInfo.SaveToCache | src/Core/LaunchGameInfo.cs:266-298 | one game info file per disc for a multi-disc query, else one file, or the exception of an unknown disc with nothing written |
| Zip.Switch | src/Core/Extractors/Zip.cs:179 | a switch starts with a double quote |
| Zip.IncludeExcludeArgs | src/Core/Extractors/Zip.cs:169-197 | empty exactly when both lists are absent or empty; otherwise it ends with " -r" |
| Zip.TrimmedSwitches | src/Core/Extractors/Zip.cs:191-196 | trimming the accumulated string leaves the switches joined by single blanks followed by "-r" |
| Zip.SpacedAppend | src/Core/Extractors/Zip.cs:175-189 | appending the exclude switches after the include switches is the switches of both lists in order |
| Zip.AppendSwitches | src/Core/Extractors/Zip.cs:177-180 | the loop appends a blank and each switch in list order |
| Zip.GetIncludeExcludeArgs | src/Core/Extractors/Zip.cs:169-197 | the method's result is `IncludeExcludeArgs` |
| Zip.ParseSize | src/Core/Extractors/Zip.cs:48-61 | 0 for a line shorter than 25 characters, with no number after column 25, or whose first word there does not parse; otherwise that word's 64-bit value |
| Zip.ParseSizeReads | src/Core/Extractors/Zip.cs:48-61 | a row with 25 characters of details, blanks and a number reads as that number |
| Zip.ParseArchiveSize | src/Core/Extractors/Zip.cs:33-46 | the size read from the last piece after splitting on the dashes, or 0 when there is no piece |
| Zip.ArchiveSizeOfSplit | src/Core/Extractors/Zip.cs:37-38 | the size is read from the last piece after splitting on the dashes |
| Zip.ArchiveSizeReadsTotal | src/Core/Extractors/Zip.cs:33-61 | output whose last dash-separated piece is a totals row reads as the total |
| Zip.GetSize | src/Core/Extractors/Zip.cs:21-31 | 0 when `7z l` fails; otherwise the size `ParseArchiveSize` reads from its output |
| Zip.EntryNames | src/Core/Extractors/Zip.cs:128-132 | one name per line when no line is shorter than 53 characters |
| Zip.ListResult | src/Core/Extractors/Zip.cs:117-141 | no names when `7z` fails |
| Zip.RewriteEntries | src/Core/Extractors/Zip.cs:128-132 | the loop rewrites the array in place to the entry names, and fails exactly when a line is too short |
| Zip.List | src/Core/Extractors/Zip.cs:77-142 | the method's result is `ListResult` of the `7z l` run |
| Zip.ListResultOfSections | src/Core/Extractors/Zip.cs:122-127 | with three divider-separated sections the names come from the lines of the second |
| Zip.ListingLines | src/Core/Extractors/Zip.cs:127 | rows joined by line breaks split back into the rows |
| Zip.RowsEntryNames | src/Core/Extractors/Zip.cs:131 | rows of 53 characters of details followed by a name give back the names |
| Zip.ListRoundTrip | src/Core/Extractors/Zip.cs:77-142 | a listing of rows of details and names between two dividers lists exactly those names |
| Zip.ExtractHead | src/Core/Extractors/Zip.cs:71 | the fixed part of the `7z x` command ends with a blank |
| Zip.ExtractArgsEnd | src/Core/Extractors/Zip.cs:63-75 | the extraction command ends with " -r" exactly when some file is included or excluded, and is the fixed head alone otherwise |
| Zip.Extract | src/Core/Extractors/Zip.cs:63-75 | extraction succeeds exactly when `7z` exits with 0 on the fixed head followed by the include/exclude switches |
| Zip.SupportedType | src/Core/Extractors/Zip.cs:150-153 | a name without an extension is never supported; a supported name ends with one of the five extensions, in any case |
| Zip.SupportedTypeIff | src/Core/Extractors/Zip.cs:150-153 | a name ending in a real extension is supported exactly when that extension, lower-cased, is .zip, .7z, .rar, .gz or .gzip |
| Zip.QuoteArgs | src/Core/Extractors/Zip.cs:209-215 | one quoted argument per argument |
| Zip.QuoteArg | src/Core/Extractors/Zip.cs:211-214 | an argument is wrapped in double quotes exactly when it holds a blank and neither starts nor ends with a quote; a result holding a blank starts or ends with one |
| Zip.QuoteArgStable | src/Core/Extractors/Zip.cs:211-214 | quoting an argument twice is quoting it once |
| Zip.Call7z | src/Core/Extractors/Zip.cs:203-226 | the arguments are quoted in place, joined by blanks, and the run's exit code is returned |
| GameLaunching.ExtractMode | src/Plugin/GameLaunching.cs:38 | extraction is wanted for every action except Copy |
| GameLaunching.CopyMode | src/Plugin/GameLaunching.cs:39 | copying is wanted for every action except Extract |
| GameLaunching.UseArchiveCacheManager | src/Plugin/GameLaunching.cs:21-54 | used exactly when auto-extract is on, the host is not building its own m3u file, and the action copies or an enabled backend supports the file |
| GameLaunching.RedirectApplicationPath | src/Plugin/GameLaunching.cs:56-89 | redirected exactly when the path check is bypassed, or the file is not zip/7z/rar and the action copies or an enabled backend supports it |
| GameLaunching.SelectExtractor | src/Plugin/GameLaunching.cs:99-122 | a backend other than 7-Zip is chosen only when its condition holds; the 7-Zip fallback without a type match only when no condition holds |
| GameLaunching.GetExtractorExists | src/Plugin/GameLaunching.cs:91-128 | an extractor with an empty path counts as present; otherwise it is present exactly when its file exists |
| GameLaunching.FirstMatchIsFirst | src/Plugin/GameLaunching.cs:99-122 | the reference first-match picks the candidate at the first set flag, or the fallback |
| GameLaunching.Candidates | src/Plugin/GameLaunching.cs:99-118 | five candidates in priority order, each flagged with its own condition |
| GameLaunching.SelectIsFirstMatch | src/Plugin/GameLaunching.cs:99-122 | the selection equals the first match over Chdman, DolphinTool, extract-xiso, 7-Zip, Robocopy, with 7-Zip as fallback |
| GameLaunching.UsedSelectsEligible | src/Plugin/GameLaunching.cs:41-53 | whenever the launch goes through the cache, the chosen backend's condition holds |
| GameLaunching.RedirectMatchesUse | src/Plugin/GameLaunching.cs:73-88 | for a file that is not zip/7z/rar, a cached launch is always redirected, and without bypass the two decisions agree |
| GameLaunching.HostArchiveUsedNotRedirected | src/Plugin/GameLaunching.cs:64-67 | a zip/7z/rar file is supported by 7-Zip and so goes through the cache, yet is redirected only under bypass |
| GameLaunching.UnsupportedExtractOnly | src/Plugin/GameLaunching.cs:87-88 | in extract-only mode, a file no enabled backend supports is neither cached nor redirected, and 7-Zip is the backend looked for |
| GameIndex.LoadedIndex | src/Core/GameIndex.cs:20-39 | the store is present exactly when the file exists and parses, and it is the parsed file |
| GameIndex.Quoted | src/Core/GameIndex.cs:79 | the stored value is the file name between double quotes |
| GameIndex.SelectedFileOf | src/Core/GameIndex.cs:59-70 | the empty string without a store; otherwise the stored value |
| GameIndex.WithSelectedFile | src/Core/GameIndex.cs:72-82 | the written selection reads back, quoted, for its game; the game's section is appended only when it is new |
| GameIndex.OtherSelectionsKept | src/Core/GameIndex.cs:79 | writing one game's selection leaves every other game's selection unchanged |
| GameIndex.FreshIndexForgetsOthers | src/Core/GameIndex.cs:74-77 | writing without a loaded store starts from an empty one, so every other game reads as having no selection |
| GameIndex.SaveLoadRoundTrip | src/Core/GameIndex.cs:41-57 | a saved store loads back unchanged, so the selection survives a reload |
| GameIndex.GameIndex.constructor | src/Core/GameIndex.cs:15-18 | the static constructor loads from the file |
| GameIndex.GameIndex.Load | src/Core/GameIndex.cs:20-39 | the store is dropped, then set from the file when it exists and parses; the file is never deleted |
| GameIndex.GameIndex.Save | src/Core/GameIndex.cs:41-57 | without a store nothing is written; a failed write leaves the file as it was |
| GameIndex.GameIndex.GetSelectedFile | src/Core/GameIndex.cs:59-70 | the selection read for the game, the empty string without a store |
| GameIndex.GameIndex.SetSelectedFile | src/Core/GameIndex.cs:72-82 | creates the store when absent, stores the quoted file under the game id, then saves, and the selection reads back |

## Left out

- Logging, console output, message boxes and `Environment.ExitCode` are not modelled. `Run7z` and `ProcessUtils.RunProcess` are the `run` parameter. `Call7z` returns the exit code instead of setting it.
- `Zip.Get7zVersion` and `Zip.GetExtractorPath` are not modelled. Both only ask the host or the process for a string. `Zip.Name` is the constant `Zip.Name`.
- The other backends (Chdman, DolphinTool, extract-xiso, Robocopy) are not part of this model. Their `SupportedType` checks and executable paths are parameters of `GameLaunching.Tools`. `Name()` is represented by the `Extractor` value itself.
- `PathUtils` and `PluginUtils` are not part of this model. `PathUtils.HasExtension` is modelled as "the lower-cased extension is in the list" (`Text.HasExtension`). `IsPathSafe`, `ArchiveCachePath`, `IsPathCompressedArchive` and the host's auto-extract, multi-disc and m3u answers are parameters. `ToSingleArray` is `Zip.SingleList`.
- `GameInfo` is not part of this model. In `SaveToCache`, the merge with an already cached file and the writing of the file are recorded as a `SaveRecord`. The write of `mGame.DecompressedSize` (LaunchGameInfo.cs:113) is left out, because no modelled operation reads it.
- The file system is a snapshot fixed for the whole launch. So the files `SaveToCache` writes do not change later answers of `GetArchiveInCache`. The `Environment` functions are pure.
- `CacheData` records are values in a map, not shared objects. This is faithful because the source never hands a record out.
- LaunchGameInfo.LaunchGameInfo.SumDiscSizes: the sum is over unbounded integers. 64-bit overflow of `long` addition is not modelled.
- The OnBeforeGameLaunching, OnAfterGameLaunched, OnGameExited and SaveGameInfo bodies are not modelled. They change host settings, write temporary files and start a 5-second restore timer.
- INI syntax (parsing and writing text, comments, quoting) belongs to the INI library and is not modelled. A saved document is taken to load back as the same document. A value is read back exactly as written, so the quotes `SetSelectedFile` adds stay in the value `GetSelectedFile` returns.
- A null string is modelled as "". This covers a missing key in `GetValue`, a null `SkipUpdate`, and `GetSelectedFile` for a game without a selection.
- Config.GlobalConfig.Save: `Save` never writes MultiDiscSupport or UseGameIdAsM3uFilename, and writes UpdateCheck only when it is set. After a save and a load these read back as false, false and false. `Config.SaveLoadRoundTrip` states this rather than full equality, as the code behaves.
- Config.CorrectionNotPersisted: in `Load`, `confignotMissing |= false` changes nothing. So a corrected value is saved only when the file lacks an "All \ All" section. The model follows the code.
- Zip.ListResult: `Substring(53)` in `List` is not inside a `try`. A short non-empty line of the file section therefore throws out of `List` (a `Failure`), rather than giving an empty list.
- Config.ParseAction: `Enum.TryParse` accepts integer text that names no member (for example "5") and stores that undefined value in the field. The model has no undefined members, so such a value reads as the first member, Extract. A comma-separated list of names, which .NET combines bit by bit, is not modelled either; it reads as Extract.
- Config.ParseLaunchPath: as for `ParseAction`, an undefined number such as "7" and a comma-separated list read as the first member, Default.
- Config.ParseM3uName: as for `ParseAction`, an undefined number such as "5" and a comma-separated list read as the first member, GameId.
- Config.GlobalConfig.Load: the `ConfigParser` is built before the `try` (Config.cs:355). A file the INI library cannot parse therefore throws out of `Load` without loading the defaults or saving. The model takes the file as a parsed document or as missing, so it does not capture that exception.
- Text.Trim: white space is the ASCII blank, tab, line feed, vertical tab, form feed and carriage return. .NET `Trim` also strips other Unicode white space, such as the no-break space U+00A0, and `Char.IsWhiteSpace` agrees with it.
- Text.ToLower: only the ASCII letters A to Z are lowered. .NET `ToLower` uses the current culture, so under a Turkish culture ".ISO" lowers to ".ıso" with a dotless i, and non-ASCII letters are lowered too. The model's extension checks therefore match the invariant culture on ASCII names only.
