/**
 * `FileOperations.GetFilesFromDir`, over a directory listing given as a list
 * of path strings. When an extension list is passed, the source keeps a file
 * when the path contains its own lower-cased extension; the list's contents
 * are never looked at.
 */
module FileOperations {
  import opened Wrappers
  import opened Strings

  /** The per-file test of the filter: the path contains its own extension, lower-cased. */
  predicate KeepFile(file: string) {
    Contains(file, ToLower(GetExtension(file)))
  }

  /** `r` is `s` with some elements left out, the rest in their original order. */
  predicate IsSubsequence<T(==)>(r: seq<T>, s: seq<T>)
    decreases |s|
  {
    if r == [] then true
    else if s == [] then false
    else (r[0] == s[0] && IsSubsequence(r[1..], s[1..])) || IsSubsequence(r, s[1..])
  }

  /** The `Where` clause: the kept files, in directory order. */
  function Filter(files: seq<string>): seq<string>
  {
    if files == [] then []
    else if KeepFile(files[0]) then [files[0]] + Filter(files[1..])
    else Filter(files[1..])
  }

  /** The filter keeps exactly the files that pass the test, in directory order. */
  lemma {:induction false} FilterKeepsPassingFiles(files: seq<string>)
    ensures IsSubsequence(Filter(files), files)
    ensures forall f :: f in Filter(files) <==> f in files && KeepFile(f)
    decreases |files|
  {
    if files != [] {
      FilterKeepsPassingFiles(files[1..]);
      assert forall f :: f in files <==> f == files[0] || f in files[1..];
    }
  }

  /** `GetFilesFromDir(dir, extensions)` with the directory's listing given as `files`; `None` is a null list. */
  function GetFilesFromDir(files: seq<string>, extensions: Option<seq<string>>): (r: seq<string>)
    ensures extensions.None? ==> r == files
    ensures extensions.Some? ==> IsSubsequence(r, files)
    ensures extensions.Some? ==> forall f :: f in r <==> f in files && KeepFile(f)
  {
    match extensions
    case None => files
    case Some(_) => FilterKeepsPassingFiles(files); Filter(files)
  }

  /** Filtering a listing in two pieces gives the two filtered pieces, one after the other. */
  lemma {:induction false} FilterAppend(a: seq<string>, b: seq<string>)
    ensures Filter(a + b) == Filter(a) + Filter(b)
    decreases |a|
  {
    if a != [] {
      assert (a + b)[0] == a[0] && (a + b)[1..] == a[1..] + b;
      FilterAppend(a[1..], b);
    } else {
      assert a + b == b;
    }
  }

  /** Together with FilterAppend, this fixes the result for every listing. */
  lemma FilterSingle(f: string)
    ensures Filter([f]) == if KeepFile(f) then [f] else []
  {
    assert [f][1..] == [];
  }

  /** The result does not depend on which extensions are passed. */
  lemma ExtensionsIgnored(files: seq<string>, e1: seq<string>, e2: seq<string>)
    ensures GetFilesFromDir(files, Some(e1)) == GetFilesFromDir(files, Some(e2))
  {
  }

  /** A file whose extension has no upper-case letter (an empty extension included) is always kept. */
  lemma LowerCaseExtensionKept(file: string)
    requires IsLowerCase(GetExtension(file))
    ensures KeepFile(file)
  {
    var ext := GetExtension(file);
    ToLowerOfLowerCase(ext);
    ContainsSuffix(file, |file| - |ext|);
  }

  lemma NotesExtension()
    ensures GetExtension("notes.txt") == ".txt"
  {
    var notes := "notes.txt";
    assert notes[5] == '.' && NoDotOrSeparator(notes[6..]);
    assert forall k :: 0 <= k < |notes| && notes[k] == '.' ==> k == 5;
    assert notes[|notes| - |GetExtension(notes)|] == '.';
  }

  /** A text file passes although ".txt" is in no format list. */
  lemma TextFileKept()
    ensures KeepFile("notes.txt")
  {
    NotesExtension();
    assert IsLowerCase(".txt");
    LowerCaseExtensionKept("notes.txt");
  }

  /** "IMG.JPG" is dropped: its lower-cased extension ".jpg" does not occur in it. */
  lemma UpperCaseExtensionDropped()
    ensures GetExtension("IMG.JPG") == ".JPG"
    ensures !KeepFile("IMG.JPG")
  {
    var img := "IMG.JPG";
    var ext := GetExtension(img);
    assert img[3] == '.' && NoDotOrSeparator(img[4..]);
    assert forall k :: 0 <= k < |img| && img[k] == '.' ==> k == 3;
    assert img[|img| - |ext|] == '.';
    assert ToLower(ext) == ".jpg";
    if Contains(img, ".jpg") {
      ContainedCharsOccur(img, ".jpg", 1);
      assert false;
    }
  }
}
