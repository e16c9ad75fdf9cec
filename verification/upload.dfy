/**
 * Upload acceptance: the `multerFilter` file predicate and the slot
 * configuration `upload.fields([photo, cv, licensedID], maxCount 1)`.
 *
 * The multipart parser (multer's use of busboy) is not modelled; a request's
 * file parts arrive as a sequence in stream order. For each part the
 * configuration's per-field allowance is checked first (an unknown field or
 * one whose allowance is used up ends the request with
 * LIMIT_UNEXPECTED_FILE), then the allowance is spent and the file predicate
 * runs; the first error ends the whole request.
 */
module Upload {
  import opened Wrappers
  import opened JsValues
  import opened AppErrors

  /** A file part as the file predicate sees it. */
  datatype FilePart = FilePart(fieldname: string, originalname: string, mimetype: string)

  /** The two outcomes of the predicate's callback: `cb(null, true)` or `cb(error, false)`. */
  datatype FileVerdict = Accept | Reject(error: AppError)
  {
    /** The boolean passed to the callback. */
    predicate Accepted() { Accept? }
  }

  /** One entry of the `fields` configuration. */
  datatype FieldSpec = FieldSpec(name: string, maxCount: nat)

  /** Why an upload ended the request. */
  datatype UploadError =
    | UnexpectedField(field: string)   // multer's LIMIT_UNEXPECTED_FILE for that field name
    | FilterError(error: AppError)     // the error the file predicate passed to its callback

  /** Files kept per field name, as on `req.files`. */
  type Files = map<string, seq<FilePart>>

  const NotAnImage: AppError := AppError("Not an image! Please upload only images.", 400)

  /** The three upload slots of a user, each taking at most one file. */
  const UserPhotoFields: seq<FieldSpec> :=
    [FieldSpec("photo", 1), FieldSpec("cv", 1), FieldSpec("licensedID", 1)]

  const SlotNames: set<string> := {"photo", "cv", "licensedID"}

  /**
   * `multerFilter`: a file is accepted exactly when its MIME type begins with
   * "image"; otherwise the request fails with a 400 "Not an image!" error.
   */
  function MulterFilter(file: FilePart): (v: FileVerdict)
    ensures v.Accepted() <==> |file.mimetype| >= 5 && file.mimetype[..5] == "image"
    ensures !v.Accepted() ==> v.error == NotAnImage && IsClientError(v.error)
  {
    if StartsWith(file.mimetype, "image") then Accept else Reject(NotAnImage)
  }

  /** The per-field allowance table built from the configuration; a later entry for a name wins. */
  function Allowances(fields: seq<FieldSpec>): map<string, nat>
    decreases |fields|
  {
    if fields == [] then map[]
    else
      var last := fields[|fields| - 1];
      Allowances(fields[..|fields| - 1])[last.name := last.maxCount]
  }

  /** Files still allowed under a field name; a name outside the table has none. */
  function Allowance(left: map<string, nat>, name: string): nat {
    if name in left then left[name] else 0
  }

  /** The files already kept under a field name. */
  function FilesOf(files: Files, name: string): seq<FilePart> {
    if name in files then files[name] else []
  }

  /** The parts submitted under a field name, in order. */
  function PartsNamed(parts: seq<FilePart>, name: string): seq<FilePart>
  {
    if parts == [] then []
    else (if parts[0].fieldname == name then [parts[0]] else []) + PartsNamed(parts[1..], name)
  }

  /** Process the remaining parts with the allowances left and the files kept so far. */
  function ReceiveFrom(left: map<string, nat>, parts: seq<FilePart>, files: Files): Result<Files, UploadError>
    decreases |parts|
  {
    if parts == [] then Ok(files)
    else
      var f := parts[0];
      var n := Allowance(left, f.fieldname);
      if n == 0 then Err(UnexpectedField(f.fieldname))
      else
        match MulterFilter(f)
        case Reject(e) => Err(FilterError(e))
        case Accept =>
          ReceiveFrom(left[f.fieldname := n - 1], parts[1..], files[f.fieldname := FilesOf(files, f.fieldname) + [f]])
  }

  /**
   * The upload middleware for a `fields` configuration, over one request's
   * file parts: it succeeds exactly when the parts are admissible, and a
   * refusal is the error of the first part that breaks admissibility.
   */
  function Receive(fields: seq<FieldSpec>, parts: seq<FilePart>): (r: Result<Files, UploadError>)
    ensures r.Ok? <==> Admissible(Allowances(fields), parts)
    ensures r.Err? ==> exists i :: FirstFailureAt(Allowances(fields), parts, i, r.error)
  {
    var left := Allowances(fields);
    ReceiveFromAccepts(left, parts, map[]);
    var r := ReceiveFrom(left, parts, map[]);
    if r.Ok? then r else ReceiveFromFirstFailure(left, parts, map[]); r
  }

  /**
   * The error raised by the last part of a prefix: LIMIT_UNEXPECTED_FILE when
   * its field name is used beyond its allowance, the file predicate's error
   * otherwise.
   */
  function ErrorOfLast(left: map<string, nat>, prefix: seq<FilePart>): UploadError
    requires prefix != []
  {
    var f := prefix[|prefix| - 1];
    if |PartsNamed(prefix, f.fieldname)| > Allowance(left, f.fieldname) then UnexpectedField(f.fieldname)
    else FilterError(NotAnImage)
  }

  /** Part `i` is the first that breaks admissibility, and `e` is the error it raises. */
  ghost predicate FirstFailureAt(left: map<string, nat>, parts: seq<FilePart>, i: int, e: UploadError) {
    && 0 <= i < |parts|
    && Admissible(left, parts[..i])
    && !Admissible(left, parts[..i + 1])
    && e == ErrorOfLast(left, parts[..i + 1])
  }

  /**
   * The condition under which a sequence of parts goes through: every part is
   * an image and no field name is used more often than its allowance.
   */
  ghost predicate Admissible(left: map<string, nat>, parts: seq<FilePart>) {
    forall i | 0 <= i < |parts| ::
      StartsWith(parts[i].mimetype, "image")
      && |PartsNamed(parts, parts[i].fieldname)| <= Allowance(left, parts[i].fieldname)
  }

  /** A name has submitted parts exactly when some part carries it. */
  lemma {:induction false} PartsNamedNonEmpty(parts: seq<FilePart>, name: string)
    ensures PartsNamed(parts, name) != [] <==> exists i :: 0 <= i < |parts| && parts[i].fieldname == name
  {
    if parts != [] {
      PartsNamedNonEmpty(parts[1..], name);
      if parts[0].fieldname != name && PartsNamed(parts, name) == [] {
        assert PartsNamed(parts[1..], name) == [];
        forall i | 0 <= i < |parts| ensures parts[i].fieldname != name {
          if i > 0 { assert parts[i] == parts[1..][i - 1]; }
        }
      }
      if PartsNamed(parts[1..], name) != [] {
        var j :| 0 <= j < |parts[1..]| && parts[1..][j].fieldname == name;
        assert parts[j + 1].fieldname == name;
      }
    }
  }

  /** Every part submitted under a name is one of the parts and carries that name. */
  lemma {:induction false} PartsNamedMembers(parts: seq<FilePart>, name: string)
    ensures forall x :: x in PartsNamed(parts, name) ==> x in parts && x.fieldname == name
  {
    if parts != [] {
      PartsNamedMembers(parts[1..], name);
    }
  }

  /** Accepting the first part spends one allowance under its name and leaves the rest to decide. */
  lemma AdmissibleStep(left: map<string, nat>, parts: seq<FilePart>)
    requires parts != []
    requires Allowance(left, parts[0].fieldname) > 0
    requires StartsWith(parts[0].mimetype, "image")
    ensures Admissible(left, parts)
        <==> Admissible(left[parts[0].fieldname := Allowance(left, parts[0].fieldname) - 1], parts[1..])
  {
    var f, rest := parts[0], parts[1..];
    var left' := left[f.fieldname := Allowance(left, f.fieldname) - 1];
    forall n
      ensures |PartsNamed(parts, n)| <= Allowance(left, n) <==> |PartsNamed(rest, n)| <= Allowance(left', n)
    {
      assert |PartsNamed(parts, n)| == (if n == f.fieldname then 1 else 0) + |PartsNamed(rest, n)|;
    }
    if Admissible(left, parts) {
      forall j | 0 <= j < |rest|
        ensures StartsWith(rest[j].mimetype, "image")
        ensures |PartsNamed(rest, rest[j].fieldname)| <= Allowance(left', rest[j].fieldname)
      {
        assert rest[j] == parts[j + 1];
      }
    }
    if Admissible(left', rest) {
      forall i | 0 <= i < |parts|
        ensures StartsWith(parts[i].mimetype, "image")
        ensures |PartsNamed(parts, parts[i].fieldname)| <= Allowance(left, parts[i].fieldname)
      {
        if i > 0 {
          assert parts[i] == rest[i - 1];
        } else if PartsNamed(rest, f.fieldname) != [] {
          PartsNamedNonEmpty(rest, f.fieldname);
        }
      }
    }
  }

  /** The upload goes through exactly when the parts are admissible; the order of errors does not matter. */
  lemma {:induction false} ReceiveFromAccepts(left: map<string, nat>, parts: seq<FilePart>, files: Files)
    ensures ReceiveFrom(left, parts, files).Ok? <==> Admissible(left, parts)
    decreases |parts|
  {
    if parts != [] {
      var f := parts[0];
      var n := Allowance(left, f.fieldname);
      if n == 0 {
        assert |PartsNamed(parts, f.fieldname)| >= 1;
        assert !Admissible(left, parts);
      } else if !StartsWith(f.mimetype, "image") {
        assert !Admissible(left, parts);
      } else {
        AdmissibleStep(left, parts);
        ReceiveFromAccepts(left[f.fieldname := n - 1], parts[1..], files[f.fieldname := FilesOf(files, f.fieldname) + [f]]);
      }
    }
  }

  /** Counting a name over parts: the first part contributes one when it carries the name. */
  lemma PartsNamedHead(parts: seq<FilePart>, name: string)
    requires parts != []
    ensures |PartsNamed(parts, name)| == (if parts[0].fieldname == name then 1 else 0) + |PartsNamed(parts[1..], name)|
  {
  }

  /** A refused upload fails with the error of the first part that breaks admissibility. */
  lemma {:induction false} ReceiveFromFirstFailure(left: map<string, nat>, parts: seq<FilePart>, files: Files)
    requires ReceiveFrom(left, parts, files).Err?
    ensures exists i :: FirstFailureAt(left, parts, i, ReceiveFrom(left, parts, files).error)
    decreases |parts|
  {
    var f, rest := parts[0], parts[1..];
    var n := Allowance(left, f.fieldname);
    var e := ReceiveFrom(left, parts, files).error;
    assert parts[..0] == [] && parts[..1] == [f];
    if n == 0 || !StartsWith(f.mimetype, "image") {
      PartsNamedHead([f], f.fieldname);
      assert !Admissible(left, parts[..1]);
      assert FirstFailureAt(left, parts, 0, e);
    } else {
      var left' := left[f.fieldname := n - 1];
      var files' := files[f.fieldname := FilesOf(files, f.fieldname) + [f]];
      assert ReceiveFrom(left', rest, files') == ReceiveFrom(left, parts, files);
      ReceiveFromFirstFailure(left', rest, files');
      var j :| FirstFailureAt(left', rest, j, e);
      var before, upto := parts[..j + 1], parts[..j + 2];
      assert before[0] == f && before[1..] == rest[..j];
      assert upto[0] == f && upto[1..] == rest[..j + 1];
      AdmissibleStep(left, before);
      AdmissibleStep(left, upto);
      var g := upto[|upto| - 1];
      assert g == rest[..j + 1][j];
      PartsNamedHead(upto, g.fieldname);
      assert ErrorOfLast(left, upto) == ErrorOfLast(left', rest[..j + 1]);
      assert FirstFailureAt(left, parts, j + 1, e);
    }
  }

  /**
   * A refused upload fails either with the 400 "Not an image!" error or with
   * LIMIT_UNEXPECTED_FILE for a field name that was submitted.
   */
  lemma ReceiveFromErrorKinds(left: map<string, nat>, parts: seq<FilePart>, files: Files)
    requires ReceiveFrom(left, parts, files).Err?
    ensures ReceiveFrom(left, parts, files).error == FilterError(NotAnImage)
         || exists i :: 0 <= i < |parts| && ReceiveFrom(left, parts, files).error == UnexpectedField(parts[i].fieldname)
  {
    ReceiveFromFirstFailure(left, parts, files);
    var i :| FirstFailureAt(left, parts, i, ReceiveFrom(left, parts, files).error);
    assert parts[..i + 1][i] == parts[i];
  }

  /** On success a field name holds the files it had plus, in order, every part submitted under it. */
  lemma {:induction false} ReceiveFromFilesAt(left: map<string, nat>, parts: seq<FilePart>, files: Files, out: Files, name: string)
    requires ReceiveFrom(left, parts, files) == Ok(out)
    ensures FilesOf(out, name) == FilesOf(files, name) + PartsNamed(parts, name)
    ensures name in out <==> name in files || PartsNamed(parts, name) != []
    decreases |parts|
  {
    if parts != [] {
      var f, rest := parts[0], parts[1..];
      var n := Allowance(left, f.fieldname);
      var files' := files[f.fieldname := FilesOf(files, f.fieldname) + [f]];
      assert ReceiveFrom(left[f.fieldname := n - 1], rest, files') == Ok(out);
      ReceiveFromFilesAt(left[f.fieldname := n - 1], rest, files', out, name);
      assert PartsNamed(parts, name) == (if name == f.fieldname then [f] else []) + PartsNamed(rest, name);
    }
  }

  /** The allowance table of the user upload configuration. */
  lemma UserAllowances()
    ensures Allowances(UserPhotoFields) == map["photo" := 1, "cv" := 1, "licensedID" := 1]
  {
    var one, two := UserPhotoFields[..1], UserPhotoFields[..2];
    assert one[..0] == [];
    assert Allowances(one) == map["photo" := 1];
    assert two[..1] == one;
    assert Allowances(two) == map["photo" := 1, "cv" := 1];
    assert UserPhotoFields[..2] == two;
  }

  /**
   * A user upload goes through exactly when every part is under `photo`, `cv`
   * or `licensedID`, is an image, and no slot is used twice.
   */
  lemma UserUploadAccepted(parts: seq<FilePart>)
    ensures Receive(UserPhotoFields, parts).Ok? <==>
      forall i | 0 <= i < |parts| ::
        parts[i].fieldname in SlotNames
        && StartsWith(parts[i].mimetype, "image")
        && |PartsNamed(parts, parts[i].fieldname)| <= 1
  {
    var left := Allowances(UserPhotoFields);
    UserAllowances();
    ReceiveFromAccepts(left, parts, map[]);
    forall i | 0 <= i < |parts|
      ensures |PartsNamed(parts, parts[i].fieldname)| <= Allowance(left, parts[i].fieldname)
          <==> parts[i].fieldname in SlotNames && |PartsNamed(parts, parts[i].fieldname)| <= 1
    {
      PartsNamedNonEmpty(parts, parts[i].fieldname);
    }
  }

  /**
   * After a successful user upload every slot that holds files is one of the
   * three, holds exactly one file, and that file is an image part submitted
   * under that slot.
   */
  lemma UserUploadSlots(parts: seq<FilePart>, files: Files)
    requires Receive(UserPhotoFields, parts) == Ok(files)
    ensures forall n :: n in files ==> n in SlotNames && |files[n]| == 1
    ensures forall n :: n in files ==>
      files[n][0] in parts && files[n][0].fieldname == n && StartsWith(files[n][0].mimetype, "image")
  {
    var left := Allowances(UserPhotoFields);
    UserUploadAccepted(parts);
    forall n | n in files
      ensures n in SlotNames && |files[n]| == 1
      ensures files[n][0] in parts && files[n][0].fieldname == n && StartsWith(files[n][0].mimetype, "image")
    {
      ReceiveFromFilesAt(left, parts, map[], files, n);
      assert files[n] == PartsNamed(parts, n);
      PartsNamedNonEmpty(parts, n);
      PartsNamedMembers(parts, n);
      var i :| 0 <= i < |parts| && parts[i].fieldname == n;
      var x := files[n][0];
      assert x in PartsNamed(parts, n);
      var j :| 0 <= j < |parts| && parts[j] == x;
    }
  }

  /** A text file under `photo` is refused with the 400 "Not an image!" error and nothing is kept. */
  lemma PlainTextPhotoRejected()
    ensures Receive(UserPhotoFields, [FilePart("photo", "notes.txt", "text/plain")]) == Err(FilterError(NotAnImage))
  {
    UserAllowances();
  }

  /** The image-only predicate applies to every slot: a PDF under `cv` is refused as well. */
  lemma PdfCvRejected()
    ensures Receive(UserPhotoFields, [FilePart("cv", "cv.pdf", "application/pdf")]) == Err(FilterError(NotAnImage))
  {
    UserAllowances();
  }

  /** A second file under `photo` exceeds that slot's maxCount. */
  lemma SecondPhotoRejected()
    ensures Receive(UserPhotoFields, [FilePart("photo", "a.png", "image/png"), FilePart("photo", "b.png", "image/png")])
         == Err(UnexpectedField("photo"))
  {
    UserAllowances();
  }
}
