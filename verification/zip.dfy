/**
 * The 7-Zip backend: the include/exclude switches passed to `7z`, reading the
 * archive listing and the archive size out of `7z l` output, extraction, the
 * supported archive types, and the quoting of a raw `7z` command line.
 *
 * Running `7z` is outside the model: every operation that runs it takes a
 * function `run` from the argument string to the process outcome.
 */
module Zip {
  import opened Wrappers
  import opened Text

  /** What one `7z` run yields: its standard output, its standard error and its exit code. */
  datatype ProcessResult = ProcessResult(stdout: string, stderr: string, exitCode: int)

  /** The backend's display name. */
  const Name: string := "7-Zip"

  /** The run of dashes under the size column of `7z l`, on which the archive size is found. */
  const SizeDivider: string := "------------------------"
  /** The full divider line of `7z l`, above and below the file rows. */
  const ListDivider: string := "------------------- ----- ------------ ------------  ------------------------"
  const LineBreak: string := "\r\n"
  /** A size row holds the date, time and attributes before this column. */
  const SizeColumn: nat := 25
  /** A file row holds the date, time, attributes, size and compressed size before this column. */
  const NameColumn: nat := 53

  const ZipExtensions: seq<string> := [".zip", ".7z", ".rar", ".gz", ".gzip"]

  // ---- Include and exclude switches -----------------------------------------------

  /** The items of an optional list; a null list and an empty one both contribute nothing. */
  function Items(list: Option<seq<string>>): seq<string>
  {
    if list.Some? then list.value else []
  }

  function Wildcard(prefixWildcard: bool): string
  {
    if prefixWildcard then "*" else ""
  }

  /** One switch, `"-i!pattern"` or `"-x!pattern"`, quotes included. */
  function Switch(flag: char, prefixWildcard: bool, item: string): (r: string)
    ensures r != [] && r[0] == '"'
  {
    "\"-" + [flag] + "!" + Wildcard(prefixWildcard) + item + "\""
  }

  function Switches(flag: char, prefixWildcard: bool, items: seq<string>): (r: seq<string>)
    ensures |r| == |items|
  {
    seq(|items|, i requires 0 <= i < |items| => Switch(flag, prefixWildcard, items[i]))
  }

  /**
   * The switches of a listing or extraction: every include switch, then every exclude
   * switch, then the recursion switch `-r`, separated by single blanks; or nothing
   * at all when there is neither an include nor an exclude.
   */
  function IncludeExcludeArgs(includeList: Option<seq<string>>, excludeList: Option<seq<string>>,
                              prefixWildcard: bool): (r: string)
    ensures r == [] <==> Items(includeList) == [] && Items(excludeList) == []
    ensures r != [] ==> EndsWith(r, " -r")
  {
    var switches := Switches('i', prefixWildcard, Items(includeList))
                  + Switches('x', prefixWildcard, Items(excludeList));
    if switches == [] then ""
    else
      JoinSnoc(" ", switches, "-r");
      Join(" ", switches + ["-r"])
  }

  /** The text the source's loops accumulate: each part preceded by a blank. */
  function Spaced(parts: seq<string>): string
    decreases |parts|
  {
    if parts == [] then "" else Spaced(parts[..|parts| - 1]) + " " + parts[|parts| - 1]
  }

  lemma {:induction false} SpacedJoin(parts: seq<string>)
    ensures Spaced(parts) == if parts == [] then "" else " " + Join(" ", parts)
    decreases |parts|
  {
    if parts != [] {
      var init := parts[..|parts| - 1];
      var last := parts[|parts| - 1];
      assert parts == init + [last];
      SpacedJoin(init);
      if init != [] {
        JoinSnoc(" ", init, last);
      }
    }
  }

  lemma SpacedSnoc(parts: seq<string>, part: string)
    ensures Spaced(parts + [part]) == Spaced(parts) + " " + part
  {
    assert (parts + [part])[..|parts|] == parts;
  }

  /** One more part extends the accumulated text by a blank and that part. */
  lemma SpacedStep(parts: seq<string>, i: nat)
    requires i < |parts|
    ensures Spaced(parts[..i + 1]) == Spaced(parts[..i]) + " " + parts[i]
  {
    assert parts[..i + 1] == parts[..i] + [parts[i]];
    SpacedSnoc(parts[..i], parts[i]);
  }

  /** Trimming the accumulated switches removes exactly the leading blank. */
  lemma SpacedTrim(switches: seq<string>)
    requires switches != [] && switches[0] != [] && switches[0][0] == '"'
    ensures Trim(Spaced(switches + ["-r"])) == Join(" ", switches + ["-r"])
  {
    var all := switches + ["-r"];
    SpacedJoin(all);
    JoinSnoc(" ", switches, "-r");
    var j := Join(" ", all);
    assert j[0] == '"' by {
      if |switches| > 1 {
        assert j == switches[0] + " " + Join(" ", all[1..]);
      }
    }
    assert j[|j| - 1] == 'r';
    assert (" " + j)[1..] == j;
    assert Trim(" " + j) == Trim(j);
    TrimNoop(j);
  }

  /** What the loops accumulate, with ` -r` appended when it is not empty, trims to the switches. */
  lemma TrimmedSwitches(includeList: Option<seq<string>>, excludeList: Option<seq<string>>, prefixWildcard: bool)
    ensures var switches := Switches('i', prefixWildcard, Items(includeList))
                          + Switches('x', prefixWildcard, Items(excludeList));
            var acc := Spaced(switches);
            Trim(if acc != "" then acc + " -r" else acc) == IncludeExcludeArgs(includeList, excludeList, prefixWildcard)
  {
    var includes := Switches('i', prefixWildcard, Items(includeList));
    var switches := includes + Switches('x', prefixWildcard, Items(excludeList));
    if switches == [] {
      assert Spaced(switches) == "";
    } else {
      assert switches[0] != [] && switches[0][0] == '"' by {
        if includes != [] {
          assert switches[0] == includes[0];
        }
      }
      SpacedSnoc(switches, "-r");
      assert Spaced(switches) + " -r" == Spaced(switches + ["-r"]);
      SpacedTrim(switches);
      assert Spaced(switches) != "" by {
        SpacedJoin(switches);
      }
    }
  }

  /** The accumulated text of two runs of parts is the text of the first followed by that of the second. */
  lemma {:induction false} SpacedAppend(a: seq<string>, b: seq<string>)
    ensures Spaced(a + b) == Spaced(a) + Spaced(b)
    decreases |b|
  {
    if b == [] {
      assert a + b == a;
    } else {
      var init := b[..|b| - 1];
      SpacedAppend(a, init);
      assert a + b == (a + init) + [b[|b| - 1]];
      SpacedSnoc(a + init, b[|b| - 1]);
      SpacedSnoc(init, b[|b| - 1]);
      assert init + [b[|b| - 1]] == b;
    }
  }

  /** One loop of the source: appends a blank and a switch for each item, in order. */
  method AppendSwitches(acc: string, flag: char, prefixWildcard: bool, items: seq<string>) returns (r: string)
    ensures r == acc + Spaced(Switches(flag, prefixWildcard, items))
  {
    ghost var switches := Switches(flag, prefixWildcard, items);
    r := acc;
    for i := 0 to |items|
      invariant r == acc + Spaced(switches[..i])
    {
      SpacedStep(switches, i);
      r := r + " " + Switch(flag, prefixWildcard, items[i]);
    }
    assert switches[..|items|] == switches;
  }

  /** The loops of the source, accumulating one switch at a time and trimming at the end. */
  method GetIncludeExcludeArgs(includeList: Option<seq<string>>, excludeList: Option<seq<string>>,
                               prefixWildcard: bool) returns (args: string)
    ensures args == IncludeExcludeArgs(includeList, excludeList, prefixWildcard)
  {
    ghost var includes := Switches('i', prefixWildcard, Items(includeList));
    ghost var excludes := Switches('x', prefixWildcard, Items(excludeList));
    var acc := "";
    if includeList.Some? && |includeList.value| > 0 {
      acc := AppendSwitches(acc, 'i', prefixWildcard, includeList.value);
    }
    assert acc == Spaced(includes);
    if excludeList.Some? && |excludeList.value| > 0 {
      acc := AppendSwitches(acc, 'x', prefixWildcard, excludeList.value);
    }
    assert acc == Spaced(includes) + Spaced(excludes);
    SpacedAppend(includes, excludes);
    TrimmedSwitches(includeList, excludeList, prefixWildcard);
    if acc != "" {
      acc := acc + " -r";
    }
    args := Trim(acc);
  }

  /** The arguments of `7z l` on an archive, restricted by the given lists. */
  function ListArgs(archivePath: string, includeList: Option<seq<string>>, excludeList: Option<seq<string>>,
                    prefixWildcard: bool): string
  {
    "l \"" + archivePath + "\" " + IncludeExcludeArgs(includeList, excludeList, prefixWildcard)
  }

  // ---- Archive size ----------------------------------------------------------------

  /** The number after the size column of a row, or 0 when the row is short or holds no number there. */
  function ParseSize(line: string): (size: int)
    ensures IsInt64(size)
    ensures |line| < SizeColumn ==> size == 0
    ensures |line| >= SizeColumn && Split(line[SizeColumn..], " ") == [] ==> size == 0
    ensures |line| >= SizeColumn && Split(line[SizeColumn..], " ") != [] ==>
              var first := Split(line[SizeColumn..], " ")[0];
              (ParseInt64(first).Failure? ==> size == 0) && (ParseInt64(first).Success? ==> size == ParseInt64(first).value)
  {
    if |line| < SizeColumn then 0
    else
      var tokens := Split(line[SizeColumn..], " ");
      if tokens == [] then 0
      else
        match ParseInt64(tokens[0])
        case Success(v) => v
        case Failure(_) => 0
  }

  /** The size read from the last piece of the output after splitting on dashes, or 0 when there is none. */
  function ParseArchiveSize(stdout: string): (size: int)
    ensures IsInt64(size)
    ensures Split(stdout, SizeDivider) == [] ==> size == 0
    ensures Split(stdout, SizeDivider) != [] ==> size == ParseSize(Split(stdout, SizeDivider)[|Split(stdout, SizeDivider)| - 1])
  {
    var pieces := Split(stdout, SizeDivider);
    if pieces == [] then 0 else ParseSize(pieces[|pieces| - 1])
  }

  /** The one-element list of a file in the archive, or no list when there is none. */
  function SingleList(fileInArchive: Option<string>): Option<seq<string>>
  {
    if fileInArchive.Some? then Some([fileInArchive.value]) else None
  }

  /** The decompressed size of an archive, or of one file in it; 0 when `7z` fails. */
  function GetSize(run: string -> ProcessResult, archivePath: string, fileInArchive: Option<string>): (size: int)
    ensures run(ListArgs(archivePath, SingleList(fileInArchive), None, false)).exitCode != 0 ==> size == 0
    ensures run(ListArgs(archivePath, SingleList(fileInArchive), None, false)).exitCode == 0 ==>
              size == ParseArchiveSize(run(ListArgs(archivePath, SingleList(fileInArchive), None, false)).stdout)
    ensures IsInt64(size)
  {
    var p := run(ListArgs(archivePath, SingleList(fileInArchive), None, false));
    if p.exitCode == 0 then ParseArchiveSize(p.stdout) else 0
  }

  lemma Int64TextBlankFree(n: int)
    ensures forall k :: 0 <= k < |Int64ToString(n)| ==> Int64ToString(n)[k] != ' '
  {
    if n < 0 {
      var digits := NatToDigits(-n);
      assert forall k :: 1 <= k < |Int64ToString(n)| ==> Int64ToString(n)[k] == digits[k - 1];
    }
  }

  /** A row whose size column is followed by blanks and a 64-bit number, ending there or at a blank, yields that number. */
  lemma ParseSizeReads(info: string, pad: string, n: int, tail: string)
    requires |info| == SizeColumn
    requires forall k :: 0 <= k < |pad| ==> pad[k] == ' '
    requires IsInt64(n) && (tail == [] || tail[0] == ' ')
    ensures ParseSize(info + pad + Int64ToString(n) + tail) == n
  {
    var line := info + pad + Int64ToString(n) + tail;
    assert line[SizeColumn..] == pad + Int64ToString(n) + tail;
    Int64TextBlankFree(n);
    FirstToken(pad, Int64ToString(n), tail);
    Int64RoundTrip(n);
  }

  /** Output made of non-empty pieces separated by the dashes is read at its last piece. */
  lemma ArchiveSizeOfPieces(stdout: string, pieces: seq<string>)
    requires stdout == Join(SizeDivider, pieces)
    requires pieces != [] && forall i :: 0 <= i < |pieces| ==> pieces[i] != []
    requires forall i :: 0 <= i < |pieces| - 1 ==> Piece(pieces[i], SizeDivider)
    requires IndexOf(pieces[|pieces| - 1], SizeDivider).None?
    ensures ParseArchiveSize(stdout) == ParseSize(pieces[|pieces| - 1])
  {
    SplitJoin(pieces, SizeDivider);
    ArchiveSizeOfSplit(stdout, pieces);
  }

  lemma ArchiveSizeOfSplit(stdout: string, pieces: seq<string>)
    requires pieces != [] && Split(stdout, SizeDivider) == pieces
    ensures ParseArchiveSize(stdout) == ParseSize(pieces[|pieces| - 1])
  {
  }

  /** Output whose last dash-separated piece is a total row has that row's total as its size. */
  lemma ArchiveSizeReadsTotal(stdout: string, pieces: seq<string>, total: string,
                              info: string, pad: string, n: int, tail: string)
    requires stdout == Join(SizeDivider, pieces + [total])
    requires forall i :: 0 <= i < |pieces| ==> pieces[i] != [] && Piece(pieces[i], SizeDivider)
    requires total == info + pad + Int64ToString(n) + tail && IndexOf(total, SizeDivider).None?
    requires |info| == SizeColumn
    requires forall k :: 0 <= k < |pad| ==> pad[k] == ' '
    requires IsInt64(n) && (tail == [] || tail[0] == ' ')
    ensures ParseArchiveSize(stdout) == n
  {
    var all := pieces + [total];
    assert forall i :: 0 <= i < |all| - 1 ==> all[i] == pieces[i];
    ArchiveSizeOfPieces(stdout, all);
    ParseSizeReads(info, pad, n, tail);
  }

  // ---- Listing ---------------------------------------------------------------------

  /** Each line without its first 53 characters, trimmed; `Substring` throws on a shorter line. */
  function EntryNames(lines: seq<string>): (r: Result<seq<string>>)
    ensures r.Success? ==> |r.value| == |lines|
  {
    if exists i :: 0 <= i < |lines| && |lines[i]| < NameColumn then Failure("ArgumentOutOfRangeException")
    else Success(seq(|lines|, i requires 0 <= i < |lines| && |lines[i]| >= NameColumn => Trim(lines[i][NameColumn..])))
  }

  /**
   * The names listed by `7z l`: nothing when `7z` fails or the output has fewer than three
   * divider-separated sections; otherwise the entry names of the non-empty lines of the
   * second section, in order. Nothing in `List` catches the exception of a short line.
   */
  function ListResult(p: ProcessResult): (r: Result<seq<string>>)
    ensures p.exitCode != 0 ==> r == Success([])
  {
    if p.exitCode != 0 then Success([])
    else
      var sections := Split(p.stdout, ListDivider);
      if |sections| <= 2 then Success([]) else EntryNames(Split(sections[1], LineBreak))
  }

  /** The loop of `List`: rewrites every line of `fileList` in place to its entry name, stopping at a short line. */
  method RewriteEntries(fileList: array<string>) returns (ok: bool)
    modifies fileList
    ensures ok <==> EntryNames(old(fileList[..])).Success?
    ensures ok ==> fileList[..] == EntryNames(old(fileList[..])).value
  {
    ghost var lines := fileList[..];
    for i := 0 to fileList.Length
      invariant forall k :: 0 <= k < i ==> |lines[k]| >= NameColumn && fileList[k] == Trim(lines[k][NameColumn..])
      invariant forall k :: i <= k < fileList.Length ==> fileList[k] == lines[k]
    {
      if |fileList[i]| < NameColumn {
        return false;
      }
      fileList[i] := Trim(fileList[i][NameColumn..]);
    }
    return true;
  }

  /** `fileList` starts as the lines of the second section and is rewritten in place. */
  method List(run: string -> ProcessResult, archivePath: string) returns (r: Result<seq<string>>)
    ensures r == ListResult(run(ListArgs(archivePath, None, None, false)))
  {
    var p := run(ListArgs(archivePath, None, None, false));
    if p.exitCode == 0 {
      var sections := Split(p.stdout, ListDivider);
      if |sections| > 2 {
        var lines := Split(sections[1], LineBreak);
        var fileList := new string[|lines|](i requires 0 <= i < |lines| => lines[i]);
        assert fileList[..] == lines;
        var ok := RewriteEntries(fileList);
        if !ok {
          return Failure("ArgumentOutOfRangeException");
        }
        return Success(fileList[..]);
      }
    }
    return Success([]);
  }

  /** The file rows between the dividers: each row on its own line, with a line break after the divider and before the next. */
  function Rows(infos: seq<string>, names: seq<string>): (rows: seq<string>)
    requires |infos| == |names|
    ensures |rows| == |names|
  {
    seq(|names|, i requires 0 <= i < |names| => infos[i] + names[i])
  }

  function Listing(rows: seq<string>): string
  {
    Join(LineBreak, [""] + rows + [""])
  }

  lemma ListingLines(rows: seq<string>)
    requires forall i :: 0 <= i < |rows| ==> rows[i] != [] && '\r' !in rows[i]
    ensures |Listing(rows)| >= 2
    ensures Split(Listing(rows), LineBreak) == rows
  {
    var parts := [""] + rows + [""];
    JoinSnoc(LineBreak, [""] + rows, "");
    SepFree("", LineBreak);
    forall i | 0 <= i < |parts| - 1
      ensures Piece(parts[i], LineBreak)
    {
      if i > 0 {
        assert parts[i] == rows[i - 1];
        SepFree(rows[i - 1], LineBreak);
      }
    }
    SplitAllJoin(parts, LineBreak);
    RemoveEmptyAppend([""] + rows, [""]);
    RemoveEmptyAppend([""], rows);
    RemoveEmptyKeeps(rows);
  }

  /** Names following 53 characters of details on each row are the rows' entry names. */
  lemma RowsEntryNames(infos: seq<string>, names: seq<string>)
    requires |infos| == |names|
    requires forall i :: 0 <= i < |names| ==> |infos[i]| == NameColumn && Trim(names[i]) == names[i]
    ensures EntryNames(Rows(infos, names)) == Success(names)
  {
    var rows := Rows(infos, names);
    forall i | 0 <= i < |rows|
      ensures |rows[i]| >= NameColumn && Trim(rows[i][NameColumn..]) == names[i]
    {
      assert rows[i][NameColumn..] == names[i];
    }
    var r := EntryNames(rows);
    assert r.Success?;
    assert |r.value| == |names|;
    assert forall i :: 0 <= i < |names| ==> r.value[i] == names[i];
    assert r.value == names;
  }

  /** The listing is read from the second of three divider-separated sections. */
  lemma ListResultOfSections(p: ProcessResult, header: string, body: string, footer: string)
    requires p.exitCode == 0 && Split(p.stdout, ListDivider) == [header, body, footer]
    ensures ListResult(p) == EntryNames(Split(body, LineBreak))
  {
  }

  /**
   * Output with a header, the divider, the file rows, the divider and a footer lists exactly
   * the file names, when every row holds 53 characters of details before its name.
   */
  lemma ListRoundTrip(p: ProcessResult, header: string, footer: string, infos: seq<string>, names: seq<string>)
    requires |infos| == |names|
    requires forall i :: 0 <= i < |names| ==> |infos[i]| == NameColumn && '\r' !in infos[i] + names[i]
    requires forall i :: 0 <= i < |names| ==> Trim(names[i]) == names[i]
    requires header != [] && Piece(header, ListDivider)
    requires Piece(Listing(Rows(infos, names)), ListDivider)
    requires footer != [] && IndexOf(footer, ListDivider).None?
    requires p.exitCode == 0 && p.stdout == Join(ListDivider, [header, Listing(Rows(infos, names)), footer])
    ensures ListResult(p) == Success(names)
  {
    var rows := Rows(infos, names);
    var body := Listing(rows);
    forall i | 0 <= i < |rows|
      ensures rows[i] != [] && '\r' !in rows[i]
    {
    }
    ListingLines(rows);
    SplitJoin3(header, body, footer, ListDivider);
    ListResultOfSections(p, header, body, footer);
    RowsEntryNames(infos, names);
  }

  // ---- Extraction and supported types ------------------------------------------------

  /** The arguments of `7z x`: the archive, the output directory, assume yes, overwrite, progress to stdout, and the switches. */
  function ExtractArgs(archivePath: string, cachePath: string, includeList: Option<seq<string>>,
                       excludeList: Option<seq<string>>): string
  {
    ExtractHead(archivePath, cachePath) + IncludeExcludeArgs(includeList, excludeList, false)
  }

  /** Extraction succeeds exactly when `7z x` exits with 0. */
  function Extract(run: string -> ProcessResult, archivePath: string, cachePath: string,
                   includeList: Option<seq<string>>, excludeList: Option<seq<string>>): (ok: bool)
    ensures ok <==> run(ExtractHead(archivePath, cachePath) + IncludeExcludeArgs(includeList, excludeList, false)).exitCode == 0
  {
    run(ExtractArgs(archivePath, cachePath, includeList, excludeList)).exitCode == 0
  }

  /** The fixed head of the `7z x` command, ending with the progress switch and a blank. */
  function ExtractHead(archivePath: string, cachePath: string): (head: string)
    ensures |head| >= 3 && head[|head| - 1] == ' '
  {
    "x \"" + archivePath + "\" \"-o" + cachePath + "\" -y -aoa -bsp1 "
  }

  /**
   * The extraction command ends with the recursion switch exactly when some file is
   * included or excluded; with neither, the command is its fixed head alone.
   */
  lemma ExtractArgsEnd(archivePath: string, cachePath: string, includeList: Option<seq<string>>,
                       excludeList: Option<seq<string>>)
    ensures var args := ExtractArgs(archivePath, cachePath, includeList, excludeList);
            EndsWith(args, " -r") <==> Items(includeList) != [] || Items(excludeList) != []
    ensures Items(includeList) == [] && Items(excludeList) == [] ==>
              ExtractArgs(archivePath, cachePath, includeList, excludeList) == ExtractHead(archivePath, cachePath)
  {
    var head := ExtractHead(archivePath, cachePath);
    var switches := IncludeExcludeArgs(includeList, excludeList, false);
    var args := head + switches;
    if switches == [] {
      assert args == head;
      assert args[|args| - 1] != "-r"[1];
    } else {
      assert args[|args| - 3..] == switches[|switches| - 3..];
    }
  }

  /** `SupportedType`: the path's extension, lower-cased, is one of the 7-Zip extensions. */
  predicate SupportedType(archivePath: string): (supported: bool)
    ensures GetExtension(archivePath) == [] ==> !supported
    ensures supported ==> exists e :: EndsWith(archivePath, e) && ToLower(e) in ZipExtensions
  {
    assert HasExtension(archivePath, ZipExtensions) ==> EndsWith(archivePath, GetExtension(archivePath)) by {
      if HasExtension(archivePath, ZipExtensions) {
        assert GetExtension(archivePath) != [];
      }
    }
    HasExtension(archivePath, ZipExtensions)
  }

  /** A path is supported exactly when it ends in a supported extension, in any letter case. */
  lemma SupportedTypeIff(name: string, ext: string)
    requires |ext| >= 2 && ext[0] == '.'
    requires forall k :: 1 <= k < |ext| ==> ext[k] != '.' && !IsSeparator(ext[k])
    ensures SupportedType(name + ext) <==> ToLower(ext) in ZipExtensions
  {
    ExtensionOf(name, ext);
  }

  // ---- Raw command lines ---------------------------------------------------------------

  /** An argument holding a blank is put in double quotes unless it already starts or ends with one. */
  function QuoteArg(arg: string): (q: string)
    ensures q == arg || q == "\"" + arg + "\""
    ensures ' ' !in arg || StartsWith(arg, "\"") || EndsWith(arg, "\"") ==> q == arg
    ensures ' ' in q ==> StartsWith(q, "\"") || EndsWith(q, "\"")
  {
    if ' ' in arg && !StartsWith(arg, "\"") && !EndsWith(arg, "\"") then "\"" + arg + "\"" else arg
  }

  function QuoteArgs(args: seq<string>): (r: seq<string>)
    ensures |r| == |args|
  {
    seq(|args|, i requires 0 <= i < |args| => QuoteArg(args[i]))
  }

  /** Quoting twice is quoting once. */
  lemma QuoteArgStable(arg: string)
    ensures QuoteArg(QuoteArg(arg)) == QuoteArg(arg)
  {
    var q := QuoteArg(arg);
    if q != arg {
      assert q[..1] == "\"";
    }
  }

  /**
   * Quotes the arguments in place (the caller's array is the one rewritten), runs `7z` on
   * them joined by blanks, and hands its exit code on as the process exit code.
   */
  method Call7z(run: string -> ProcessResult, args: array<string>) returns (exitCode: int)
    modifies args
    ensures args[..] == QuoteArgs(old(args[..]))
    ensures exitCode == run(Join(" ", args[..])).exitCode
  {
    for i := 0 to args.Length
      invariant forall k :: 0 <= k < i ==> args[k] == QuoteArg(old(args[k]))
      invariant forall k :: i <= k < args.Length ==> args[k] == old(args[k])
    {
      if ' ' in args[i] && !StartsWith(args[i], "\"") && !EndsWith(args[i], "\"") {
        args[i] := "\"" + args[i] + "\"";
      }
    }
    var argString := Join(" ", args[..]);
    var p := run(argString);
    exitCode := p.exitCode;
  }
}
