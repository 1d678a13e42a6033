/**
 * The composer's image attachments: the ordered file list (`imageFiles`, a FileList or null)
 * and its encoding into the strings shown as thumbnails and sent as `images`.
 * The React state updaters of `appendFiles` and `removeImageFile` and the
 * `imageToBase64` pass are methods with their loops; their meaning is given by
 * the functions and lemmas beside them.
 */
module Attachments {
  import opened Wrappers

  /** A browser `File`; nothing about its content is modelled. */
  type File

  /** A null file list counts as empty. */
  function FilesOf(list: Option<seq<File>>): (r: seq<File>)
    ensures list == None ==> r == []
    ensures list.Some? ==> r == list.value
  {
    if list.Some? then list.value else []
  }

  /** The list after an append: the earlier files in order, then the new ones in order. */
  function Appended(prev: Option<seq<File>>, files: seq<File>): (r: seq<File>)
    ensures |r| == |FilesOf(prev)| + |files|
    ensures forall i :: 0 <= i < |FilesOf(prev)| ==> r[i] == FilesOf(prev)[i]
    ensures forall j :: 0 <= j < |files| ==> r[|FilesOf(prev)| + j] == files[j]
  {
    FilesOf(prev) + files
  }

  /** The updater `appendFiles` hands to `setImageFiles`: copy the previous files, then the new ones, into a fresh list. */
  method AppendUpdater(prevFiles: Option<seq<File>>, files: seq<File>) returns (r: seq<File>)
    ensures r == Appended(prevFiles, files)
  {
    var dataTransfer: seq<File> := [];
    if prevFiles.Some? {
      var prev := prevFiles.value;
      var i := 0;
      while i < |prev|
        invariant 0 <= i <= |prev|
        invariant dataTransfer == prev[..i]
      {
        dataTransfer := dataTransfer + [prev[i]];
        i := i + 1;
      }
      assert prev[..|prev|] == prev;
    }
    var j := 0;
    while j < |files|
      invariant 0 <= j <= |files|
      invariant dataTransfer == FilesOf(prevFiles) + files[..j]
    {
      assert files[..j + 1] == files[..j] + [files[j]];
      dataTransfer := dataTransfer + [files[j]];
      j := j + 1;
    }
    assert files[..|files|] == files;
    r := dataTransfer;
  }

  /** The list after appending several batches, one call after another. */
  function AppendAll(prev: Option<seq<File>>, batches: seq<seq<File>>): seq<File>
    decreases |batches|
  {
    if |batches| == 0 then FilesOf(prev) else AppendAll(Some(Appended(prev, batches[0])), batches[1..])
  }

  function Flatten(batches: seq<seq<File>>): seq<File>
    decreases |batches|
  {
    if |batches| == 0 then [] else batches[0] + Flatten(batches[1..])
  }

  /** Successive appends give the concatenation of all inputs in call order; nothing earlier is dropped or reordered. */
  lemma {:induction false} AppendAllIsConcatenation(prev: Option<seq<File>>, batches: seq<seq<File>>)
    ensures AppendAll(prev, batches) == FilesOf(prev) + Flatten(batches)
    decreases |batches|
  {
    if |batches| > 0 {
      var first, rest := batches[0], batches[1..];
      var next := Appended(prev, first);
      AppendAllIsConcatenation(Some(next), rest);
      assert AppendAll(prev, batches) == next + Flatten(rest);
      assert Flatten(batches) == first + Flatten(rest);
      assert next + Flatten(rest) == FilesOf(prev) + (first + Flatten(rest));
    }
  }

  /** Where `Array.prototype.splice` starts for a list of length `len`: a negative index counts from the end, and both directions are clamped. */
  function SpliceStart(len: nat, index: int): (k: nat)
    ensures k <= len
    ensures 0 <= index < len ==> k == index
    ensures index >= len ==> k == len
    ensures -(len as int) <= index < 0 ==> k == len + index
    ensures index < -(len as int) ==> k == 0
  {
    if index < 0 then (if len + index < 0 then 0 else len + index)
    else if index < len then index
    else len
  }

  /** `splice(index, 1)` on a copy of `a`, as a value. */
  function Spliced<T>(a: seq<T>, index: int): (r: seq<T>)
    ensures |r| == if SpliceStart(|a|, index) < |a| then |a| - 1 else |a|
    ensures forall j :: 0 <= j < |r| && j < SpliceStart(|a|, index) ==> r[j] == a[j]
    ensures forall j :: SpliceStart(|a|, index) <= j < |r| ==> r[j] == a[j + 1]
  {
    var k := SpliceStart(|a|, index);
    if k < |a| then a[..k] + a[k + 1..] else a
  }

  /** An index inside the list removes exactly that entry and keeps every other one in place, in order. */
  lemma SplicedInRange<T>(a: seq<T>, i: int)
    requires 0 <= i < |a|
    ensures Spliced(a, i) == a[..i] + a[i + 1..]
    ensures |Spliced(a, i)| == |a| - 1
    ensures forall j :: 0 <= j < i ==> Spliced(a, i)[j] == a[j]
    ensures forall j :: i <= j < |a| - 1 ==> Spliced(a, i)[j] == a[j + 1]
  {
  }

  /** An index at or past the end removes nothing. */
  lemma SplicedPastEnd<T>(a: seq<T>, i: int)
    requires i >= |a|
    ensures Spliced(a, i) == a
  {
  }

  /** A negative index removes counting from the end: -1 is the last entry. */
  lemma SplicedNegative<T>(a: seq<T>, i: int)
    requires -|a| <= i < 0
    ensures Spliced(a, i) == a[..|a| + i] + a[|a| + i + 1..]
  {
  }

  /**
   * The computation inside `removeImageFile` once `imageFiles` is non-null:
   * `Array.from` into an array, `splice(index, 1)` in place (shift the tail left by one),
   * then copy the remaining entries into a fresh list.
   */
  method RemoveUpdater(files: seq<File>, index: int) returns (r: seq<File>)
    ensures r == Spliced(files, index)
  {
    var n := |files|;
    var fileArray := new File[n](i requires 0 <= i < n => files[i]);
    var length := n;
    var start := SpliceStart(n, index);
    if start < n {
      var j := start;
      while j < n - 1
        invariant start <= j <= n - 1
        invariant forall t :: 0 <= t < start ==> fileArray[t] == files[t]
        invariant forall t :: start <= t < j ==> fileArray[t] == files[t + 1]
        invariant forall t :: j <= t < n ==> fileArray[t] == files[t]
      {
        fileArray[j] := fileArray[j + 1];
        j := j + 1;
      }
      length := n - 1;
    }
    var newFileList: seq<File> := [];
    var t := 0;
    while t < length
      invariant 0 <= t <= length
      invariant newFileList == fileArray[..t]
    {
      newFileList := newFileList + [fileArray[t]];
      t := t + 1;
    }
    assert newFileList == fileArray[..length];
    r := newFileList;
  }

  /** The encoding of every file, position by position. */
  function EncodeAll(files: seq<File>, toBase64: File -> string): (r: seq<string>)
    ensures |r| == |files|
    ensures forall k :: 0 <= k < |r| ==> r[k] == toBase64(files[k])
  {
    seq(|files|, k requires 0 <= k < |files| => toBase64(files[k]))
  }

  /** `imageToBase64`: encode each file in order; a null list gives the empty list. */
  method ImageToBase64(files: Option<seq<File>>, toBase64: File -> string) returns (base64List: seq<string>)
    ensures |base64List| == |FilesOf(files)|
    ensures forall k :: 0 <= k < |base64List| ==> base64List[k] == toBase64(FilesOf(files)[k])
  {
    base64List := [];
    if files.Some? {
      var fs := files.value;
      var i := 0;
      while i < |fs|
        invariant 0 <= i <= |fs|
        invariant |base64List| == i
        invariant forall k :: 0 <= k < i ==> base64List[k] == toBase64(fs[k])
      {
        var base64 := toBase64(fs[i]);
        base64List := base64List + [base64];
        i := i + 1;
      }
    }
  }

  /** Encoding an appended list is appending the encodings. */
  lemma EncodeAllAppend(a: seq<File>, b: seq<File>, toBase64: File -> string)
    ensures EncodeAll(a + b, toBase64) == EncodeAll(a, toBase64) + EncodeAll(b, toBase64)
  {
    var l, r := EncodeAll(a + b, toBase64), EncodeAll(a, toBase64) + EncodeAll(b, toBase64);
    forall k | 0 <= k < |l| ensures l[k] == r[k] {
      if k < |a| {
        assert (a + b)[k] == a[k];
      } else {
        assert (a + b)[k] == b[k - |a|];
      }
    }
  }

  /** Removing entry i from the files and re-encoding gives the encoded list with entry i removed: a thumbnail's index names its own file. */
  lemma EncodeAllSpliced(files: seq<File>, i: int, toBase64: File -> string)
    ensures EncodeAll(Spliced(files, i), toBase64) == Spliced(EncodeAll(files, toBase64), i)
  {
    var k := SpliceStart(|files|, i);
    if k < |files| {
      var l, r := EncodeAll(Spliced(files, i), toBase64), Spliced(EncodeAll(files, toBase64), i);
      assert |l| == |r|;
      forall j | 0 <= j < |l| ensures l[j] == r[j] {
        if j < k {
          assert Spliced(files, i)[j] == files[j];
        } else {
          assert Spliced(files, i)[j] == files[j + 1];
        }
      }
    }
  }
}
