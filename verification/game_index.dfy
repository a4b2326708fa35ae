/**
 * The selection index: an INI store, kept in memory and on disk, holding per game id
 * the file the user last selected inside that game's archive. The in-memory store is
 * absent until it loads from disk or a first selection is written.
 */
module GameIndex {
  import opened Wrappers
  import Ini

  /** What is at the index path on disk: nothing, a file the INI parser rejects, or a parsed store. */
  datatype IndexFile = Missing | Unparsable | Stored(doc: Ini.Document)

  const SelectedFileKey: string := "SelectedFile"

  /** The in-memory store `Load` leaves: the parsed file, or none when there is no file or it does not parse. */
  function LoadedIndex(file: IndexFile): (index: Option<Ini.Document>)
    ensures index.Some? <==> file.Stored?
    ensures index.Some? ==> index.value == file.doc
  {
    match file
    case Stored(doc) => Some(doc)
    case _ => None
  }

  /** A selected file as it is written: between double quotes. */
  function Quoted(selectedFile: string): (q: string)
    ensures |q| == |selectedFile| + 2 && q[0] == '"' && q[|q| - 1] == '"'
    ensures q[1..|q| - 1] == selectedFile
  {
    "\"" + selectedFile + "\""
  }

  /** The selection read for `gameId`: empty without a store, and empty (a null string) when the game has none. */
  function SelectedFileOf(index: Option<Ini.Document>, gameId: string): (selected: string)
    ensures index.None? ==> selected == ""
    ensures index.Some? && Ini.GetValue(index.value, gameId, SelectedFileKey).Some? ==>
              selected == index.value.values[gameId][SelectedFileKey]
  {
    match index
    case None => ""
    case Some(doc) => Ini.GetValue(doc, gameId, SelectedFileKey).GetOr("")
  }

  /** The store after a selection is written: created empty when absent, then the quoted file under the game id. */
  function WithSelectedFile(index: Option<Ini.Document>, gameId: string, selectedFile: string): (written: Ini.Document)
    ensures Ini.GetValue(written, gameId, SelectedFileKey) == Some(Quoted(selectedFile))
    ensures written.sections == if gameId in index.GetOr(Ini.Empty).sections then index.GetOr(Ini.Empty).sections
                                else index.GetOr(Ini.Empty).sections + [gameId]
  {
    Ini.GetAfterSet(index.GetOr(Ini.Empty), gameId, SelectedFileKey, Quoted(selectedFile));
    Ini.SetValue(index.GetOr(Ini.Empty), gameId, SelectedFileKey, Quoted(selectedFile))
  }

  /** Writing a selection into a loaded store leaves every other game's selection as it was. */
  lemma OtherSelectionsKept(doc: Ini.Document, gameId: string, selectedFile: string, other: string)
    requires other != gameId
    ensures SelectedFileOf(Some(WithSelectedFile(Some(doc), gameId, selectedFile)), other) == SelectedFileOf(Some(doc), other)
  {
    Ini.GetAfterSet(doc, gameId, SelectedFileKey, Quoted(selectedFile));
  }

  /**
   * Writing a selection when no store is loaded starts from an empty store: every
   * other game then reads as having no selection, so selections in a file that did
   * not parse are lost once the new store is saved over it.
   */
  lemma FreshIndexForgetsOthers(gameId: string, selectedFile: string, other: string)
    requires other != gameId
    ensures SelectedFileOf(Some(WithSelectedFile(None, gameId, selectedFile)), other) == ""
    ensures WithSelectedFile(None, gameId, selectedFile).sections == [gameId]
  {
    Ini.GetAfterSet(Ini.Empty, gameId, SelectedFileKey, Quoted(selectedFile));
  }

  /** A saved store loads back unchanged, so a selection survives a save followed by a load. */
  lemma SaveLoadRoundTrip(index: Option<Ini.Document>, gameId: string, selectedFile: string)
    ensures LoadedIndex(Stored(WithSelectedFile(index, gameId, selectedFile))) == Some(WithSelectedFile(index, gameId, selectedFile))
    ensures SelectedFileOf(LoadedIndex(Stored(WithSelectedFile(index, gameId, selectedFile))), gameId) == Quoted(selectedFile)
  {
    Ini.GetAfterSet(index.GetOr(Ini.Empty), gameId, SelectedFileKey, Quoted(selectedFile));
  }

  /** The static store and the file behind it. */
  class GameIndex {
    /** The in-memory store; `None` is the null reference. */
    var index: Option<Ini.Document>
    /** The file at the plugin's game-index path. */
    var file: IndexFile

    /** The static constructor: loads from the file on disk. */
    constructor (onDisk: IndexFile)
      ensures file == onDisk && index == LoadedIndex(onDisk)
    {
      file := onDisk;
      index := LoadedIndex(onDisk);
    }

    /** Drops the store, then parses the file when there is one; a parse failure leaves the store absent and the file in place. */
    method Load()
      modifies this
      ensures file == old(file)
      ensures index == LoadedIndex(file)
    {
      index := None;
      match file {
        case Missing =>
        case Unparsable =>
        case Stored(doc) => index := Some(doc);
      }
    }

    /**
     * Writes the store to the file when there is a store; `written` says whether the
     * write went through (a failed write is logged and leaves the file as it was).
     */
    method Save(written: bool)
      modifies this
      ensures index == old(index)
      ensures file == if index.Some? && written then Stored(index.value) else old(file)
    {
      if index.Some? {
        if written {
          file := Stored(index.value);
        }
      }
    }

    /** The file selected for `gameId`, the empty string without a store. */
    method GetSelectedFile(gameId: string) returns (selected: string)
      ensures selected == SelectedFileOf(index, gameId)
      ensures index.None? ==> selected == ""
    {
      selected := "";
      if index.Some? {
        selected := Ini.GetValue(index.value, gameId, SelectedFileKey).GetOr("");
      }
    }

    /** Stores the quoted file under `gameId`, creating an empty store first when there is none, then saves. */
    method SetSelectedFile(gameId: string, selectedFile: string, written: bool)
      modifies this
      ensures index == Some(WithSelectedFile(old(index), gameId, selectedFile))
      ensures file == if written then Stored(index.value) else old(file)
      ensures SelectedFileOf(index, gameId) == Quoted(selectedFile)
    {
      if index.None? {
        index := Some(Ini.Empty);
      }
      index := Some(Ini.SetValue(index.value, gameId, SelectedFileKey, Quoted(selectedFile)));
      Save(written);
    }
  }
}
