/** How an uploaded file's name becomes the Cloudinary public id and the temporary file. */
module FileService {
  import opened Wrappers
  import opened Entities
  import opened JavaText

  /** What `uploadToCloudinary` prepares before handing the file to Cloudinary. */
  datatype UploadPlan = UploadPlan(
    publicId: string,     // the `public_id` option
    pdfToImage: bool,     // whether the first page is rendered to PNG before upload
    tempSuffix: string)   // the suffix of the temporary copy on disk

  /** `getFileName`. */
  function GetFileName(originalName: string): (r: seq<string>)
    ensures forall k :: 0 <= k < |r| ==> '.' !in r[k]
  {
    SplitOnDot(originalName)
  }

  /**
   * `getFileName(name)[1].toLowerCase()`: the SECOND segment, lower-cased; a name with fewer than
   * two segments makes the index throw.
   */
  function Extension(originalName: string): (r: Result<string, Error>)
    ensures r.Err? <==> |GetFileName(originalName)| < 2
    ensures r.Ok? ==> r.value == ToLowerCase(GetFileName(originalName)[1]) && '.' !in r.value
  {
    var parts := GetFileName(originalName);
    if |parts| < 2 then Err(NoExtension)
    else
      assert forall k :: 0 <= k < |parts[1]| ==> ToLowerCase(parts[1])[k] != '.';
      Ok(ToLowerCase(parts[1]))
  }

  /** `generatePublicValue`: the UUID, '_' and the first segment; `None` when there is no segment. */
  function GeneratePublicValue(uuid: string, originalName: string): (r: Option<string>)
    ensures r.None? <==> GetFileName(originalName) == []
    ensures r.Some? ==> |r.value| == |uuid| + 1 + |GetFileName(originalName)[0]|
    ensures r.Some? ==> r.value[..|uuid|] == uuid && r.value[|uuid|] == '_'
                        && r.value[|uuid| + 1..] == GetFileName(originalName)[0]
  {
    var parts := GetFileName(originalName);
    if parts == [] then None else Some(uuid + "_" + parts[0])
  }

  /**
   * `uploadToCloudinary` up to the upload itself: the extension picks the PDF branch, the public id
   * comes from the first segment and `convert` names the temporary file after the second segment
   * as written, without lower-casing.
   */
  function PlanUpload(uuid: string, originalName: string): (r: Result<UploadPlan, Error>)
    ensures r.Err? <==> |GetFileName(originalName)| < 2
    ensures r.Ok? ==>
              Some(r.value.publicId) == GeneratePublicValue(uuid, originalName)
              && (r.value.pdfToImage <==> Extension(originalName) == Ok("pdf"))
              && r.value.tempSuffix == "." + GetFileName(originalName)[1]
  {
    match Extension(originalName)
    case Err(e) => Err(e)
    case Ok(extension) =>
      var parts := GetFileName(originalName);
      Ok(UploadPlan(uuid + "_" + parts[0], extension == "pdf", "." + parts[1]))
  }
}

/** The `/files` upload endpoint's checks. */
module FileController {
  import opened Wrappers
  import opened Entities
  import opened JavaText
  import FileService

  /** The part of a `MultipartFile` the checks look at. */
  datatype MultipartFile = MultipartFile(originalFilename: Option<string>, size: nat)

  const AllowedExtensions: seq<string> := ["pdf", "jpg", "jpeg", "png", "doc", "docx"]

  /** The whitelist test: the lower-cased name ends with one of the allowed extensions. */
  predicate HasAllowedEnding(fileName: string) {
    exists k :: 0 <= k < |AllowedExtensions| && EndsWith(ToLowerCase(fileName), AllowedExtensions[k])
  }

  /**
   * `upload`: an absent or empty file is refused, a name without an allowed ending is refused,
   * and the rest goes to `uploadToCloudinary`; a missing name makes `toLowerCase` throw.
   */
  function Upload(file: Option<MultipartFile>, uuid: string): (r: Result<FileService.UploadPlan, Error>)
    ensures (file.None? || file.value.size == 0) ==> r == Err(EmptyFile)
    ensures file.Some? && file.value.size > 0 && file.value.originalFilename.None? ==> r == Err(MissingReference)
    ensures file.Some? && file.value.size > 0 && file.value.originalFilename.Some? ==>
              if HasAllowedEnding(file.value.originalFilename.value)
              then r == FileService.PlanUpload(uuid, file.value.originalFilename.value)
              else r == Err(BadExtension)
    ensures r.Ok? ==> file.Some? && file.value.originalFilename.Some?
                      && HasAllowedEnding(file.value.originalFilename.value)
  {
    if file.None? || file.value.size == 0 then Err(EmptyFile)
    else if file.value.originalFilename.None? then Err(MissingReference)
    else
      var fileName := file.value.originalFilename.value;
      if !HasAllowedEnding(fileName) then Err(BadExtension)
      else FileService.PlanUpload(uuid, fileName)
  }

  /** Lower-casing commutes with appending. */
  lemma ToLowerCaseAppend(a: string, b: string)
    ensures ToLowerCase(a + b) == ToLowerCase(a) + ToLowerCase(b)
  {
    assert forall k :: 0 <= k < |a + b| ==> ToLowerCase(a + b)[k] == (ToLowerCase(a) + ToLowerCase(b))[k];
  }

  /**
   * A name `base.ext` with one dot and an allowed extension in any letter case is accepted: the
   * public id is built from `base`, and the PDF branch is taken exactly for "pdf".
   */
  lemma {:induction false} AcceptsSingleDotName(base: string, ext: string, size: nat, uuid: string)
    requires '.' !in base && '.' !in ext
    requires ToLowerCase(ext) in AllowedExtensions
    requires size > 0
    ensures Upload(Some(MultipartFile(Some(base + "." + ext), size)), uuid)
            == Ok(FileService.UploadPlan(uuid + "_" + base, ToLowerCase(ext) == "pdf", "." + ext))
  {
    var name := base + "." + ext;
    SegmentsAfterDot(base, ext);
    SegmentsNoDot(ext);
    assert Segments(name) == [base, ext];
    assert |ToLowerCase(ext)| == |ext|;
    assert '.' in name by { assert name[|base|] == '.'; }
    assert DropTrailingEmpty([base, ext]) == [base, ext];
    assert FileService.GetFileName(name) == [base, ext];
    ToLowerCaseAppend(base + ".", ext);
    var k :| 0 <= k < |AllowedExtensions| && AllowedExtensions[k] == ToLowerCase(ext);
    assert EndsWith(ToLowerCase(name), AllowedExtensions[k]);
  }

  /** The segments of `a.b` when `a` has no dot: `a`, then the segments of `b`. */
  lemma {:induction false} SegmentsAfterDot(a: string, b: string)
    requires '.' !in a
    ensures Segments(a + "." + b) == [a] + Segments(b)
  {
    if a == [] {
      assert a + "." + b == ['.'] + b;
      assert (['.'] + b)[1..] == b;
    } else {
      SegmentsAfterDot(a[1..], b);
      assert (a + "." + b)[1..] == a[1..] + "." + b;
      assert [a[0]] + a[1..] == a;
    }
  }

  /** A string without a dot is its own single segment. */
  lemma {:induction false} SegmentsNoDot(s: string)
    requires '.' !in s
    ensures Segments(s) == [s]
  {
    if s != [] {
      SegmentsNoDot(s[1..]);
      assert [s[0]] + s[1..] == s;
    }
  }

  /** "CV.PDF" passes in upper case and takes the PDF branch. */
  lemma UpperCasePdfAccepted(uuid: string)
    ensures Upload(Some(MultipartFile(Some("CV.PDF"), 1)), uuid)
            == Ok(FileService.UploadPlan(uuid + "_CV", true, ".PDF"))
  {
    assert ToLowerCase("PDF") == "pdf";
    AcceptsSingleDotName("CV", "PDF", 1, uuid);
    assert "CV" + "." + "PDF" == "CV.PDF";
    assert uuid + "_" + "CV" == uuid + "_CV";
    assert "." + "PDF" == ".PDF";
  }

  /** "resumepdf" passes the ending test, but without a dot the extension lookup throws. */
  lemma DotlessNameFailsAfterWhitelist(uuid: string)
    ensures HasAllowedEnding("resumepdf")
    ensures Upload(Some(MultipartFile(Some("resumepdf"), 1)), uuid) == Err(NoExtension)
  {
    assert ToLowerCase("resumepdf") == "resumepdf";
    assert EndsWith("resumepdf", AllowedExtensions[0]);
    assert '.' !in "resumepdf";
  }

  /** "photo.gif" is refused by the whitelist. */
  lemma GifRefused(uuid: string)
    ensures Upload(Some(MultipartFile(Some("photo.gif"), 1)), uuid) == Err(BadExtension)
  {
    assert ToLowerCase("photo.gif") == "photo.gif";
    forall k | 0 <= k < |AllowedExtensions|
      ensures !EndsWith("photo.gif", AllowedExtensions[k])
    {
      var e := AllowedExtensions[k];
      assert "photo.gif"[9 - |e|..][|e| - 2] == 'i';
      assert e[|e| - 2] != 'i' by {
        assert k == 0 || k == 1 || k == 2 || k == 3 || k == 4 || k == 5;
      }
    }
  }

  /**
   * A name `a.b.c` with an allowed ending passes the whitelist, but the extension read is the
   * SECOND segment `b`, so "my.cv.pdf" is not rendered to PNG and is copied to a ".cv" file.
   */
  lemma {:induction false} MultiDotNameUsesSecondSegment(a: string, b: string, c: string, size: nat, uuid: string)
    requires '.' !in a && '.' !in b && '.' !in c
    requires ToLowerCase(c) in AllowedExtensions
    requires size > 0
    ensures Upload(Some(MultipartFile(Some(a + "." + b + "." + c), size)), uuid)
            == Ok(FileService.UploadPlan(uuid + "_" + a, ToLowerCase(b) == "pdf", "." + b))
  {
    var name := a + "." + b + "." + c;
    assert |ToLowerCase(c)| == |c|;
    ThreeSegments(a, b, c);
    ToLowerCaseAppend(a + "." + b + ".", c);
    var k :| 0 <= k < |AllowedExtensions| && AllowedExtensions[k] == ToLowerCase(c);
    assert EndsWith(ToLowerCase(name), AllowedExtensions[k]);
  }

  /** The name `a.b.c` splits into its three dot-free, non-empty parts. */
  lemma ThreeSegments(a: string, b: string, c: string)
    requires '.' !in a && '.' !in b && '.' !in c && c != ""
    ensures FileService.GetFileName(a + "." + b + "." + c) == [a, b, c]
  {
    var name := a + "." + b + "." + c;
    assert name == a + "." + (b + "." + c);
    SegmentsAfterDot(a, b + "." + c);
    SegmentsAfterDot(b, c);
    SegmentsNoDot(c);
    assert name[|a|] == '.';
    assert DropTrailingEmpty([a, b, c]) == [a, b, c];
  }
}
