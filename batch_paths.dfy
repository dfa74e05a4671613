/** The pure part of the batch driver: which directory entries are images, what
    each one's output is called, and what counts as a confirmation. */
module BatchPaths {
  import opened Text

  /** One entry of the input folder's listing: its file name and whether it is a
      regular file. */
  datatype Entry = Entry(name: string, isFile: bool)

  /** A path as the driver builds it: a folder joined with one file name. */
  datatype Path = Path(folder: string, name: string)

  /** The extensions the driver accepts, all lower case. */
  const ImageExtensions: set<string> := {".jpg", ".jpeg", ".png", ".tif", ".tiff", ".bmp"}

  /** Index of the last '.' in `s`, or -1 (Python `s.rfind('.')`). */
  function LastDot(s: string): (r: int)
    ensures -1 <= r < |s|
    ensures r >= 0 ==> s[r] == '.'
    ensures forall j :: r < j < |s| ==> s[j] != '.'
  {
    if s == [] then -1
    else if s[|s| - 1] == '.' then |s| - 1
    else LastDot(s[..|s| - 1])
  }

  /** What pathlib accepts as a suffix: a dot followed by at least one character,
      none of them a dot. */
  predicate IsExtension(e: string)
  {
    |e| >= 2 && e[0] == '.' && forall j :: 1 <= j < |e| ==> e[j] != '.'
  }

  /** pathlib's `PurePath.suffix`: the part from the last dot, provided that dot
      is neither the first nor the last character of the name. */
  function Suffix(name: string): (r: string)
    ensures r == "" || IsExtension(r)
    ensures |r| <= |name| && r == name[|name| - |r|..]
  {
    var i := LastDot(name);
    if 0 < i < |name| - 1 then name[i..] else ""
  }

  /** pathlib's `PurePath.stem`: the name without its suffix. */
  function Stem(name: string): (r: string)
    ensures r + Suffix(name) == name
    ensures Suffix(name) != "" ==> r != ""
  {
    var i := LastDot(name);
    if 0 < i < |name| - 1 then name[..i] else name
  }

  /** The extension filter of the listing comprehension. */
  predicate IsImage(e: Entry)
  {
    e.isFile && Lower(Suffix(e.name)) in ImageExtensions
  }

  /** The listing filtered to image files, in listing order. */
  function ImageFiles(listing: seq<Entry>): (r: seq<Entry>)
    ensures |r| <= |listing|
    ensures forall e :: e in r ==> IsImage(e) && e in listing
  {
    if listing == [] then []
    else (if IsImage(listing[0]) then [listing[0]] else []) + ImageFiles(listing[1..])
  }

  /** The output of an input file: `<stem>.png` in the output folder. */
  function OutputPath(outputFolder: string, name: string): Path
  {
    Path(outputFolder, Stem(name) + ".png")
  }

  /** The confirmation gate: the answer, stripped and lower-cased, is "y". */
  predicate Confirmed(answer: string)
  {
    Lower(Strip(answer)) == "y"
  }

  /** A stem followed by an extension splits back into the two. */
  lemma StemOfExtended(s: string, ext: string)
    requires s != "" && IsExtension(ext)
    ensures Suffix(s + ext) == ext && Stem(s + ext) == s
  {
    var n := s + ext;
    var i := LastDot(n);
    assert n[|s|] == '.';
    assert i >= |s|;
  }

  /** Selection: an entry is kept iff it is listed, is a regular file and its
      lower-cased suffix is one of the image extensions. */
  lemma {:induction false} ImageFilesMembers(listing: seq<Entry>, e: Entry)
    ensures e in ImageFiles(listing) <==> e in listing && e.isFile && Lower(Suffix(e.name)) in ImageExtensions
  {
    if listing != [] {
      ImageFilesMembers(listing[1..], e);
      assert e in listing <==> e == listing[0] || e in listing[1..];
    }
  }

  /** Order: filtering a listing made of two parts keeps the first part's images
      before the second part's. */
  lemma {:induction false} ImageFilesAppend(a: seq<Entry>, b: seq<Entry>)
    ensures ImageFiles(a + b) == ImageFiles(a) + ImageFiles(b)
  {
    if a == [] {
      assert a + b == b;
    } else {
      assert (a + b)[0] == a[0];
      assert (a + b)[1..] == a[1..] + b;
      ImageFilesAppend(a[1..], b);
    }
  }

  /** The output name depends on the stem only: the extension, and its case,
      do not matter. */
  lemma OutputIgnoresExtension(folder: string, stem: string, e1: string, e2: string)
    requires stem != "" && IsExtension(e1) && IsExtension(e2)
    ensures OutputPath(folder, stem + e1) == OutputPath(folder, stem + e2) == Path(folder, stem + ".png")
  {
    StemOfExtended(stem, e1);
    StemOfExtended(stem, e2);
  }

  /** A name with a non-empty stem is written as a `.png` file in the output
      folder with that same stem. */
  lemma OutputPathShape(outputFolder: string, name: string)
    requires Stem(name) != ""
    ensures OutputPath(outputFolder, name).folder == outputFolder
    ensures Suffix(OutputPath(outputFolder, name).name) == ".png"
    ensures Stem(OutputPath(outputFolder, name).name) == Stem(name)
  {
    StemOfExtended(Stem(name), ".png");
  }

  /** Two inputs with the same stem share one output path. */
  lemma SameStemSameOutput(folder: string, a: string, b: string)
    requires Stem(a) == Stem(b)
    ensures OutputPath(folder, a) == OutputPath(folder, b)
  {
  }

  /** Every selected file has a suffix, so its output is a `.png` with the same stem. */
  lemma SelectedOutput(folder: string, e: Entry)
    requires IsImage(e)
    ensures Suffix(OutputPath(folder, e.name).name) == ".png"
    ensures Stem(OutputPath(folder, e.name).name) == Stem(e.name)
    ensures e.name == Stem(e.name) + Suffix(e.name)
  {
    assert Suffix(e.name) != "";
    OutputPathShape(folder, e.name);
  }

  /** `photo.JPG` is written as `photo.png`. */
  lemma PhotoJpgIsPhotoPng(folder: string)
    ensures OutputPath(folder, "photo.JPG") == Path(folder, "photo.png")
  {
    assert "photo.JPG" == "photo" + ".JPG";
    StemOfExtended("photo", ".JPG");
  }

  /** Only a lone `y` or `Y`, possibly surrounded by whitespace, confirms. */
  lemma ConfirmedIff(answer: string)
    ensures Confirmed(answer) <==> Strip(answer) == "y" || Strip(answer) == "Y"
  {
    var s := Strip(answer);
    if Lower(s) == "y" {
      assert |s| == 1 && LowerChar(s[0]) == 'y';
      assert s == [s[0]];
    }
  }
}
