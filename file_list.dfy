/** FileListAdapter: the list of drawing names shown on the file list screen. */
module FileList {
  import opened Wrappers

  /** The list without the element at position i. */
  function RemoveAt(s: seq<string>, i: nat): (r: seq<string>)
    requires i < |s|
    ensures |r| == |s| - 1
    ensures forall k :: 0 <= k < i ==> r[k] == s[k]
    ensures forall k :: i <= k < |r| ==> r[k] == s[k + 1]
  {
    s[..i] + s[i + 1..]
  }

  class FileListAdapter {
    var fileList: seq<string>

    constructor ()
      ensures fileList == []
    {
      fileList := [];
    }

    method GetItemCount() returns (n: int)
      ensures n == |fileList|
    {
      n := |fileList|;
    }

    /** Clear the list, then add the given names one by one; a null array (None) leaves it empty. */
    method SetFiles(files: Option<seq<string>>)
      modifies this
      ensures fileList == if files.Some? then files.value else []
    {
      fileList := [];
      if files.Some? {
        var names := files.value;
        for i := 0 to |names|
          invariant fileList == names[..i]
        {
          fileList := fileList + [names[i]];
        }
        assert names[..|names|] == names;
      }
    }

    /** Remove the element at an in-range position; any other position changes nothing. */
    method RemoveItem(position: int)
      modifies this
      ensures 0 <= position < |old(fileList)| ==> fileList == RemoveAt(old(fileList), position)
      ensures !(0 <= position < |old(fileList)|) ==> fileList == old(fileList)
    {
      if position >= 0 && position < |fileList| {
        fileList := fileList[..position] + fileList[position + 1..];
      }
    }
  }
}
