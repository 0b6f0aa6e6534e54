/**
 * The upload side of the product collection: multer's disk-storage filename
 * callback names each stored file after the clock and the client's file name,
 * and the handlers refer to a stored file as `images/<filename>`.
 */
module Assets {
  import opened Wrappers
  import Decimal

  /** One file received by multer, already written to the images directory under `filename`. */
  datatype UploadedFile = UploadedFile(originalName: string, filename: string)

  const Separator: char := '-'
  const ImagesPrefix: string := "images/"

  /** `Date.now() + "-" + file.originalname`, with the clock reading `now` passed in. */
  function StoredName(now: nat, originalName: string): (r: string)
    ensures |r| > |originalName| + 1
    ensures r[|r| - |originalName| - 1..] == [Separator] + originalName
    ensures Decimal.AllDigits(r[..|r| - |originalName| - 1])
  {
    var stamp := Decimal.Render(now);
    assert (stamp + [Separator] + originalName)[..|stamp|] == stamp;
    stamp + [Separator] + originalName
  }

  /** The file multer stores for an upload named `originalName` at clock reading `now`. */
  function Upload(now: nat, originalName: string): (f: UploadedFile)
    ensures f.originalName == originalName
    ensures f.filename == StoredName(now, originalName)
  {
    UploadedFile(originalName, StoredName(now, originalName))
  }

  /** Position of the first `c` in `s`, if any. */
  function FirstIndexOf(s: string, c: char): (r: Option<nat>)
    ensures r.Some? ==> r.value < |s| && s[r.value] == c
    ensures r.Some? ==> forall k :: 0 <= k < r.value ==> s[k] != c
    ensures r.None? ==> forall k :: 0 <= k < |s| ==> s[k] != c
  {
    if s == [] then None
    else if s[0] == c then Some(0)
    else match FirstIndexOf(s[1..], c)
      case None => None
      case Some(k) => Some(k + 1)
  }

  /**
   * Recover the clock reading and the client's file name from a stored name:
   * the part before the first separator must be a decimal rendering as
   * `Date.now()` produces it (non-empty digits, no leading zero).
   */
  function SplitStoredName(name: string): (r: Option<(nat, string)>)
    ensures r.Some? ==> StoredName(r.value.0, r.value.1) == name
  {
    match FirstIndexOf(name, Separator)
    case None => None
    case Some(k) =>
      var stamp := name[..k];
      if k == 0 || !Decimal.AllDigits(stamp) || (k > 1 && stamp[0] == '0') then None
      else
        Decimal.RenderParse(stamp);
        assert name == stamp + [Separator] + name[k + 1..];
        Some((Decimal.Parse(stamp), name[k + 1..]))
  }

  /** The first separator in a stored name is the one after the stamp. */
  lemma {:induction false} FirstSeparatorAfterStamp(stamp: string, rest: string)
    requires Decimal.AllDigits(stamp)
    ensures FirstIndexOf(stamp + [Separator] + rest, Separator) == Some(|stamp|)
    decreases |stamp|
  {
    var s := stamp + [Separator] + rest;
    if stamp != [] {
      assert s[1..] == stamp[1..] + [Separator] + rest;
      FirstSeparatorAfterStamp(stamp[1..], rest);
    }
  }

  /** A stored name determines the clock reading and the original name it was made from. */
  lemma StoredNameRoundTrip(now: nat, originalName: string)
    ensures SplitStoredName(StoredName(now, originalName)) == Some((now, originalName))
  {
    var stamp := Decimal.Render(now);
    var name := StoredName(now, originalName);
    FirstSeparatorAfterStamp(stamp, originalName);
    assert name[..|stamp|] == stamp;
    assert name[|stamp| + 1..] == originalName;
    Decimal.ParseRender(now);
    assert |stamp| > 1 ==> stamp[0] != '0';
  }

  /** `"images/" + file.filename`: the reference a product keeps to a stored file. */
  function ImageRef(filename: string): (r: string)
    ensures |r| == |ImagesPrefix| + |filename|
    ensures r[..|ImagesPrefix|] == ImagesPrefix && r[|ImagesPrefix|..] == filename
  {
    ImagesPrefix + filename
  }

  /** The stored file a reference points to, if it is an image reference. */
  function FileOfRef(ref: string): (r: Option<string>)
    ensures r.Some? ==> ImageRef(r.value) == ref
  {
    if |ref| >= |ImagesPrefix| && ref[..|ImagesPrefix|] == ImagesPrefix
    then Some(ref[|ImagesPrefix|..])
    else None
  }

  lemma ImageRefRoundTrip(filename: string)
    ensures FileOfRef(ImageRef(filename)) == Some(filename)
  {
  }

  /** `files.map((file) => "images/" + file.filename)`. */
  function ImageRefs(files: seq<UploadedFile>): (refs: seq<string>)
    ensures |refs| == |files|
    ensures forall i :: 0 <= i < |files| ==> refs[i] == ImageRef(files[i].filename)
  {
    if files == [] then [] else [ImageRef(files[0].filename)] + ImageRefs(files[1..])
  }

  /** `req.files || []`: a request without a multipart body has no file list at all. */
  function Uploaded(files: Option<seq<UploadedFile>>): (r: seq<UploadedFile>)
    ensures files.None? ==> r == []
    ensures files.Some? ==> r == files.value
  {
    files.GetOr([])
  }

  /** Mapping preserves upload order across any split of the upload list. */
  lemma ImageRefsConcat(a: seq<UploadedFile>, b: seq<UploadedFile>)
    ensures ImageRefs(a + b) == ImageRefs(a) + ImageRefs(b)
  {
  }

  /** Every reference names its file: stripping the prefix recovers the stored file names in upload order. */
  lemma ImageRefsNameFiles(files: seq<UploadedFile>, i: nat)
    requires i < |files|
    ensures FileOfRef(ImageRefs(files)[i]) == Some(files[i].filename)
  {
    ImageRefRoundTrip(files[i].filename);
  }
}
