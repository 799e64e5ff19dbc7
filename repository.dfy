/**
 * FileRepository: drawings stored as files in one directory, here a map from file name
 * to content. The Gson encoding is abstracted: a file holds either a stroke list that
 * parses back, or content that does not parse into one.
 */
module Repository {
  import opened Wrappers
  import opened Text
  import opened Strokes

  datatype FileContent = Drawing(strokes: seq<StrokeValue>) | Unparsable

  type Store = map<string, FileContent>

  /** name.toLowerCase().endsWith(".json") */
  predicate IsJsonName(name: string) {
    EndsWith(Lower(name), ".json")
  }

  /** The file name saveDrawing writes to: ".json" is appended unless already there in any case. */
  function JsonName(name: string): (r: string)
    ensures IsJsonName(r)
    ensures |name| <= |r| && r[..|name|] == name
    ensures r == name <==> IsJsonName(name)
    ensures r != name ==> r[|name|..] == ".json"
  {
    if IsJsonName(name) then name
    else
      LowerAppend(name, ".json");
      assert Lower(".json") == ".json";
      assert (name + ".json")[..|name|] == name;
      name + ".json"
  }

  /** Normalising a name that is already normalised changes nothing. */
  lemma JsonNameIdempotent(name: string)
    ensures JsonName(JsonName(name)) == JsonName(name)
  {
  }

  /** The store after saveDrawing; a failed write leaves it as it was. */
  function AfterSave(store: Store, strokes: seq<StrokeValue>, fileName: string, writeSucceeds: bool): Store {
    if writeSucceeds then store[JsonName(fileName) := Drawing(strokes)] else store
  }

  /** loadDrawing's result: the strokes, or null (None) for a missing or unparsable file. */
  function LoadResult(store: Store, fileName: string): (r: Option<seq<StrokeValue>>)
    ensures r.Some? <==> fileName in store && store[fileName].Drawing?
    ensures r.Some? ==> r.value == store[fileName].strokes
  {
    if fileName in store && store[fileName].Drawing? then Some(store[fileName].strokes) else None
  }

  /** The store after deleteDrawing; only an existing file can be removed. */
  function AfterDelete(store: Store, fileName: string, deleteSucceeds: bool): Store {
    if fileName in store && deleteSucceeds then store - {fileName} else store
  }

  /** A successful save under any name can be loaded back under the normalised name. */
  lemma SaveThenLoad(store: Store, strokes: seq<StrokeValue>, fileName: string)
    ensures LoadResult(AfterSave(store, strokes, fileName, true), JsonName(fileName)) == Some(strokes)
  {
  }

  /**
   * Loading uses the name verbatim: saving under a name without ".json" does not change
   * what loading that same name gives, so a drawing saved as "sketch" is not found under "sketch".
   */
  lemma LoadDoesNotNormalise(store: Store, strokes: seq<StrokeValue>, name: string)
    requires !IsJsonName(name)
    ensures LoadResult(AfterSave(store, strokes, name, true), name) == LoadResult(store, name)
  {
  }

  class FileRepository {
    var store: Store

    constructor (store: Store)
      ensures this.store == store
    {
      this.store := store;
    }

    /** The write's outcome is the file system's; it is a parameter here. */
    method SaveDrawing(strokes: seq<StrokeValue>, fileName: string, writeSucceeds: bool) returns (success: bool)
      modifies this
      ensures success == writeSucceeds
      ensures store == AfterSave(old(store), strokes, fileName, writeSucceeds)
    {
      var finalFileName := if IsJsonName(fileName) then fileName else fileName + ".json";
      success := false;
      if writeSucceeds {
        store := store[finalFileName := Drawing(strokes)];
        success := true;
      }
    }

    method LoadDrawing(fileName: string) returns (strokes: Option<seq<StrokeValue>>)
      ensures strokes == LoadResult(store, fileName)
    {
      if fileName !in store {
        return None;
      }
      strokes := None;
      match store[fileName] {
        case Drawing(s) => strokes := Some(s);
        case Unparsable =>
      }
    }

    /** The names of the stored files that end in ".json", each once, in the directory's own order. */
    method ListDrawingFiles() returns (names: seq<string>)
      ensures forall n :: n in names <==> n in store && IsJsonName(n)
      ensures forall i, j :: 0 <= i < j < |names| ==> names[i] != names[j]
    {
      names := [];
      var remaining := store.Keys;
      while remaining != {}
        invariant remaining <= store.Keys
        invariant forall n :: n in names <==> n in store && IsJsonName(n) && n !in remaining
        invariant forall i, j :: 0 <= i < j < |names| ==> names[i] != names[j]
        decreases |remaining|
      {
        var n :| n in remaining;
        if IsJsonName(n) {
          names := names + [n];
        }
        remaining := remaining - {n};
      }
    }

    /** The deletion's outcome is the file system's; it is a parameter here. */
    method DeleteDrawing(fileName: string, deleteSucceeds: bool) returns (success: bool)
      modifies this
      ensures success <==> fileName in old(store) && deleteSucceeds
      ensures store == AfterDelete(old(store), fileName, deleteSucceeds)
    {
      success := false;
      if fileName in store {
        success := deleteSucceeds;
        if success {
          store := store - {fileName};
        }
      }
    }
  }
}
