/** Image uploads as the lost-item and notice routes handle them: the file-name
    filter `allowed_file`, the loop that collects the URLs of the accepted files,
    and the single text column that stores them, joined with "," and split on ","
    when read back. */
module Uploads {
  import opened Common

  /** `ALLOWED_EXTENSIONS`. */
  const AllowedExtensions: set<string> := {"png", "jpg", "jpeg", "gif"}

  /** Where a saved file is served from. */
  const UploadPrefix: string := "/static/uploads/"

  /** The position of the last `ch` in `s`, if any. */
  function LastIndexOf(s: string, ch: char): (r: Option<nat>)
    ensures r.Some? ==> r.value < |s| && s[r.value] == ch && forall j :: r.value < j < |s| ==> s[j] != ch
    ensures r.None? ==> forall j :: 0 <= j < |s| ==> s[j] != ch
  {
    if s == [] then None
    else if s[|s| - 1] == ch then Some(|s| - 1)
    else LastIndexOf(s[..|s| - 1], ch)
  }

  /** `i` is the position of the last dot of `f`. */
  predicate LastDotAt(f: string, i: int) {
    0 <= i < |f| && f[i] == '.' && forall j :: i < j < |f| ==> f[j] != '.'
  }

  /** `allowed_file(filename)`: there is a dot, and the text after the last dot,
      lower-cased, is one of the allowed extensions. */
  function AllowedFile(filename: string): (b: bool)
    ensures b <==> exists i :: LastDotAt(filename, i) && Lower(filename[i + 1..]) in AllowedExtensions
  {
    LastDotFound(filename);
    match LastIndexOf(filename, '.')
    case None => false
    case Some(i) =>
      assert LastDotAt(filename, i);
      Lower(filename[i + 1..]) in AllowedExtensions
  }

  /** `LastIndexOf` finds the last dot exactly when there is one. */
  lemma LastDotFound(f: string)
    ensures LastIndexOf(f, '.').None? ==> forall i :: !LastDotAt(f, i)
    ensures LastIndexOf(f, '.').Some? ==> forall i :: LastDotAt(f, i) <==> i == LastIndexOf(f, '.').value
  {
  }

  /** The extension test is case-blind. */
  lemma UpperCaseExtensionAllowed()
    ensures AllowedFile("photo.PNG")
  {
    assert LastDotAt("photo.PNG", 5);
    assert "photo.PNG"[6..] == "PNG";
    assert Lower("PNG") == "png";
  }

  /** Only the text after the last dot counts. */
  lemma InnerExtensionIgnored()
    ensures !AllowedFile("a.png.zip")
  {
    assert LastDotAt("a.png.zip", 5);
    assert forall k :: LastDotAt("a.png.zip", k) ==> k == 5;
    assert "a.png.zip"[6..] == "zip";
    assert Lower("zip") == "zip";
  }

  // ---------------------------------------------------------------------------
  // ",".join(urls) and text.split(",")
  // ---------------------------------------------------------------------------

  predicate CommaFree(s: string) {
    forall i :: 0 <= i < |s| ==> s[i] != ','
  }

  /** Python's `",".join(parts)`. */
  function Join(parts: seq<string>): string {
    if |parts| == 0 then ""
    else if |parts| == 1 then parts[0]
    else parts[0] + "," + Join(parts[1..])
  }

  /** Python's `s.split(",")`: the pieces between commas, always at least one. */
  function Split(s: string): (r: seq<string>)
    ensures |r| >= 1
    ensures forall k :: 0 <= k < |r| ==> CommaFree(r[k])
  {
    if s == [] then [""]
    else if s[0] == ',' then [""] + Split(s[1..])
    else
      var rest := Split(s[1..]);
      [[s[0]] + rest[0]] + rest[1..]
  }

  lemma {:induction false} SplitCommaFreeThen(a: string, tail: string)
    requires CommaFree(a)
    ensures Split(a + tail)[0] == a + Split(tail)[0]
    ensures Split(a + tail)[1..] == Split(tail)[1..]
  {
    if a == [] {
      assert a + tail == tail;
    } else {
      assert (a + tail)[1..] == a[1..] + tail;
      assert (a + tail)[0] == a[0];
      SplitCommaFreeThen(a[1..], tail);
      assert [a[0]] + (a[1..] + Split(tail)[0]) == a + Split(tail)[0];
    }
  }

  /** Splitting a join of comma-free pieces gives the pieces back. */
  lemma {:induction false} SplitJoin(parts: seq<string>)
    requires |parts| >= 1
    requires forall k :: 0 <= k < |parts| ==> CommaFree(parts[k])
    ensures Split(Join(parts)) == parts
  {
    if |parts| == 1 {
      SplitCommaFreeThen(parts[0], "");
      assert parts[0] + "" == parts[0];
    } else {
      var tail := "," + Join(parts[1..]);
      assert Join(parts) == parts[0] + tail;
      SplitCommaFreeThen(parts[0], tail);
      assert tail[1..] == Join(parts[1..]);
      SplitJoin(parts[1..]);
      assert Split(tail) == [""] + parts[1..];
      var r := Split(Join(parts));
      assert r[0] == parts[0] + "" == parts[0];
      assert r[1..] == parts[1..];
      assert r == [r[0]] + r[1..];
      assert parts == [parts[0]] + parts[1..];
    }
  }

  /** Joining the pieces of a split gives the text back. */
  lemma {:induction false} JoinSplit(s: string)
    ensures Join(Split(s)) == s
  {
    if s != [] {
      JoinSplit(s[1..]);
      var rest := Split(s[1..]);
      if s[0] == ',' {
        assert Split(s) == [""] + rest;
        assert Join(Split(s)) == "" + "," + Join(rest);
        assert s == [','] + s[1..];
      } else {
        assert Split(s) == [[s[0]] + rest[0]] + rest[1..];
        JoinExtendFirst(s[0], rest);
        assert s == [s[0]] + s[1..];
      }
    }
  }

  lemma ConcatAssoc(a: string, b: string, d: string)
    ensures (a + b) + d == a + (b + d)
  {
  }

  /** Prefixing the first piece with a character prefixes the join with it. */
  lemma JoinExtendFirst(c: char, rest: seq<string>)
    requires |rest| >= 1
    ensures Join([[c] + rest[0]] + rest[1..]) == [c] + Join(rest)
  {
    var head := [c] + rest[0];
    var r := [head] + rest[1..];
    assert |r| == |rest| && r[0] == head && r[1..] == rest[1..];
    if |rest| > 1 {
      var tail := Join(rest[1..]);
      calc {
        Join(r);
        head + "," + Join(r[1..]);
        ([c] + rest[0]) + "," + tail;
        { ConcatAssoc([c], rest[0], ",");
          ConcatAssoc([c], rest[0] + ",", tail); }
        [c] + (rest[0] + "," + tail);
        [c] + Join(rest);
      }
    } else {
      assert Join(r) == head && Join(rest) == rest[0];
    }
  }

  /** A piece that itself holds a comma does not survive the round trip. */
  lemma CommaInUrlSplits()
    ensures Split(Join(["a,b"])) == ["a", "b"]
  {
    assert Join(["a,b"]) == "a,b";
    assert Join(["a", "b"]) == "a" + "," + "b" == "a,b";
    assert CommaFree("a") && CommaFree("b");
    SplitJoin(["a", "b"]);
  }

  // ---------------------------------------------------------------------------
  // The image_urls column
  // ---------------------------------------------------------------------------

  /** `",".join(image_urls) if image_urls else None`. */
  function EncodeUrls(urls: seq<string>): (r: Option<string>)
    ensures r.None? <==> urls == []
  {
    if urls == [] then None else Some(Join(urls))
  }

  /** `post.image_urls.split(",") if post.image_urls else []`: NULL and the empty
      text both read back as no images. */
  function DecodeUrls(stored: Option<string>): (r: seq<string>)
    ensures stored.Some? && stored.value != "" ==> |r| >= 1
  {
    if stored.None? || stored.value == "" then [] else Split(stored.value)
  }

  /** Stored URLs read back as written: no images read back as none, and a list of
      non-empty comma-free URLs reads back as the same list. */
  lemma {:induction false} UrlsRoundTrip(urls: seq<string>)
    requires forall k :: 0 <= k < |urls| ==> urls[k] != "" && CommaFree(urls[k])
    ensures DecodeUrls(EncodeUrls(urls)) == urls
  {
    if urls != [] {
      JoinNonEmpty(urls);
      SplitJoin(urls);
    }
  }

  lemma {:induction false} JoinNonEmpty(parts: seq<string>)
    requires |parts| >= 1 && parts[0] != ""
    ensures Join(parts) != ""
  {
    if |parts| > 1 {
      assert |Join(parts)| >= |parts[0]|;
    }
  }

  /** A single empty URL is the one comma-free list that does not survive: it is
      stored as the empty text, which reads back as no images. */
  lemma EmptyUrlIsLost()
    ensures EncodeUrls([""]) == Some("") && DecodeUrls(EncodeUrls([""])) == []
  {
  }

  // ---------------------------------------------------------------------------
  // Collecting the uploaded files
  // ---------------------------------------------------------------------------

  /** One entry of `request.files.getlist("images")`: the client's file name and
      the name the file is saved under (what `secure_filename` makes of it, with a
      random prefix in the notice routes). */
  datatype Upload = Upload(filename: string, savedAs: string)

  function UrlOf(u: Upload): string {
    UploadPrefix + u.savedAs
  }

  /** The URLs of the accepted uploads, in upload order. */
  function AcceptedUrls(files: seq<Upload>): (r: seq<string>)
    ensures |r| <= |files|
    ensures forall url :: url in r ==> exists f :: f in files && AllowedFile(f.filename) && url == UrlOf(f)
  {
    if files == [] then []
    else (if AllowedFile(files[0].filename) then [UrlOf(files[0])] else []) + AcceptedUrls(files[1..])
  }

  /** Accepted files keep their order: the URLs of two batches of uploads are the
      URLs of the first batch followed by those of the second. */
  lemma {:induction false} AcceptedUrlsAppend(a: seq<Upload>, b: seq<Upload>)
    ensures AcceptedUrls(a + b) == AcceptedUrls(a) + AcceptedUrls(b)
  {
    if a == [] {
      assert a + b == b;
    } else {
      var head := if AllowedFile(a[0].filename) then [UrlOf(a[0])] else [];
      assert (a + b)[0] == a[0] && (a + b)[1..] == a[1..] + b;
      assert AcceptedUrls(a + b) == head + AcceptedUrls(a[1..] + b);
      assert AcceptedUrls(a) == head + AcceptedUrls(a[1..]);
      AcceptedUrlsAppend(a[1..], b);
    }
  }

  /** A file that fails `allowed_file` adds no URL. */
  lemma RejectedFileSkipped(files: seq<Upload>, f: Upload)
    requires !AllowedFile(f.filename)
    ensures AcceptedUrls(files + [f]) == AcceptedUrls(files)
  {
    AcceptedUrlsAppend(files, [f]);
  }

  /** The converse of `AcceptedUrls`' ensures: every uploaded file that passes
      `allowed_file` has its URL among the accepted ones. */
  lemma {:induction false} AcceptedUrlsComplete(files: seq<Upload>, f: Upload)
    requires f in files && AllowedFile(f.filename)
    ensures UrlOf(f) in AcceptedUrls(files)
  {
    if files[0] != f {
      AcceptedUrlsComplete(files[1..], f);
    }
  }

  /** A file that passes `allowed_file` adds its URL after those of the files
      before it. */
  lemma AcceptedFileKept(files: seq<Upload>, f: Upload)
    requires AllowedFile(f.filename)
    ensures AcceptedUrls(files + [f]) == AcceptedUrls(files) + [UrlOf(f)]
  {
    AcceptedUrlsAppend(files, [f]);
  }

  /** One more file of the upload list, as the loop below takes them. */
  lemma AcceptedUrlsStep(files: seq<Upload>, i: nat)
    requires i < |files|
    ensures AcceptedUrls(files[..i + 1])
         == AcceptedUrls(files[..i]) + (if AllowedFile(files[i].filename) then [UrlOf(files[i])] else [])
  {
    assert files[..i + 1] == files[..i] + [files[i]];
    AcceptedUrlsAppend(files[..i], [files[i]]);
    assert [files[i]][1..] == [];
  }

  /** The upload loop of `create_lost_item` / `create_notice`. */
  method CollectImageUrls(files: seq<Upload>) returns (urls: seq<string>)
    ensures urls == AcceptedUrls(files)
  {
    urls := [];
    var i := 0;
    while i < |files|
      invariant 0 <= i <= |files|
      invariant urls == AcceptedUrls(files[..i])
    {
      AcceptedUrlsStep(files, i);
      if AllowedFile(files[i].filename) {
        urls := urls + [UrlOf(files[i])];
      }
      i := i + 1;
    }
    assert files[..i] == files;
  }
}
