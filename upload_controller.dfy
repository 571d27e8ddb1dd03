/** The upload handlers: which files are accepted, the name and URL an accepted file gets, and
    the directory of uploaded files, which uploads add to and deletes remove from. */
module UploadController {
  import opened Js
  import opened Http
  import opened Decimal

  /** The `file` part of a multipart request: its original name, mime type and size in bytes. */
  datatype UploadedFile = UploadedFile(name: string, mimetype: string, size: nat)

  /** The `{ url, filename }` of a successful upload. */
  datatype Uploaded = Uploaded(url: string, filename: string)

  const AllowedTypes: seq<string> := ["image/jpeg", "image/jpg", "image/png", "image/gif"]

  /** 5 MiB, the largest size accepted. */
  const MaxSize: nat := 5 * 1024 * 1024

  const DefaultUploadType := "screenshots"
  const DefaultBackendUrl := "http://localhost:3001"

  /** The 400 an upload is refused with, checked in order: no file, a type outside the allow-list,
      a size over 5 MiB; `None` for an accepted file. */
  function Rejection(file: Option<UploadedFile>): (r: Option<ErrorBody>)
    ensures r.None? <==> file.Some? && file.value.mimetype in AllowedTypes && file.value.size <= MaxSize
    ensures file.None? ==> r == Some(BadRequest("No file uploaded"))
    ensures file.Some? && file.value.mimetype !in AllowedTypes ==>
      r == Some(BadRequest("Invalid file type. Only JPEG, PNG, and GIF images are allowed"))
    ensures file.Some? && file.value.mimetype in AllowedTypes && file.value.size > MaxSize ==>
      r == Some(BadRequest("File size too large. Maximum size is 5MB"))
  {
    if file.None? then Some(BadRequest("No file uploaded"))
    else if file.value.mimetype !in AllowedTypes then
      Some(BadRequest("Invalid file type. Only JPEG, PNG, and GIF images are allowed"))
    else if file.value.size > MaxSize then Some(BadRequest("File size too large. Maximum size is 5MB"))
    else None
  }

  /** The bound is inclusive: an image of exactly 5 MiB is accepted and one byte more is not. */
  lemma SizeBoundInclusive(name: string)
    ensures Rejection(Some(UploadedFile(name, "image/png", 5242880))).None?
    ensures Rejection(Some(UploadedFile(name, "image/png", 5242881))) == Some(BadRequest("File size too large. Maximum size is 5MB"))
  {
  }

  /** `s.replace(/\s+/g, '_')`: every maximal run of white space becomes one `_`. */
  function CollapseSpaces(s: string): (r: string)
    ensures |r| <= |s|
    decreases |s|
  {
    if s == [] then []
    else if IsSpace(s[0]) then
      TrimStartSpec(s[1..]);
      "_" + CollapseSpaces(TrimStart(s[1..]))
    else [s[0]] + CollapseSpaces(s[1..])
  }

  /** No white space survives the replacement. */
  lemma {:induction false} CollapseNoSpace(s: string)
    ensures NoSpace(CollapseSpaces(s))
    decreases |s|
  {
    if s != [] {
      if IsSpace(s[0]) {
        TrimStartSpec(s[1..]);
        CollapseNoSpace(TrimStart(s[1..]));
      } else {
        CollapseNoSpace(s[1..]);
      }
    }
  }

  /** A name without white space is kept as it is. */
  lemma {:induction false} CollapseKeepsSpaceless(s: string)
    requires NoSpace(s)
    ensures CollapseSpaces(s) == s
  {
    if s != [] {
      CollapseKeepsSpaceless(s[1..]);
    }
  }

  /** Applying the replacement twice changes nothing more. */
  lemma CollapseIdempotent(s: string)
    ensures CollapseSpaces(CollapseSpaces(s)) == CollapseSpaces(s)
  {
    CollapseNoSpace(s);
    CollapseKeepsSpaceless(CollapseSpaces(s));
  }

  /** A whole run of white space, however long, becomes a single `_`. */
  lemma CollapseRun(w: string)
    requires w != [] && AllSpace(w)
    ensures CollapseSpaces(w) == "_"
  {
    TrimStartAllSpace(w[1..]);
  }

  /** White space alone is removed entirely. */
  lemma {:induction false} TrimStartAllSpace(s: string)
    requires AllSpace(s)
    ensures TrimStart(s) == []
  {
    if s != [] {
      TrimStartAllSpace(s[1..]);
    }
  }

  /** Leading white space of `a + b` is that of `a` when `a` ends in a non-space character. */
  lemma {:induction false} TrimStartAppend(a: string, b: string)
    requires a != [] && !IsSpace(a[|a| - 1])
    ensures TrimStart(a + b) == TrimStart(a) + b
  {
    if IsSpace(a[0]) {
      assert (a + b)[1..] == a[1..] + b;
      TrimStartAppend(a[1..], b);
    }
  }

  /** What is left of `a` after its leading white space still ends with `a`'s last character. */
  lemma {:induction false} TrimStartKeepsLast(a: string)
    requires a != [] && !IsSpace(a[|a| - 1])
    ensures TrimStart(a) != [] && TrimStart(a)[|TrimStart(a)| - 1] == a[|a| - 1]
  {
    if IsSpace(a[0]) {
      TrimStartKeepsLast(a[1..]);
    }
  }

  /** The replacement works run by run: cutting a name after a non-space character and
      replacing in the two parts gives the same result. */
  lemma {:induction false} CollapseAppend(a: string, b: string)
    requires a == [] || !IsSpace(a[|a| - 1])
    ensures CollapseSpaces(a + b) == CollapseSpaces(a) + CollapseSpaces(b)
    decreases |a|, 1
  {
    if a == [] {
      assert a + b == b;
    } else if IsSpace(a[0]) {
      CollapseAppendRun(a, b);
    } else {
      assert (a + b)[1..] == a[1..] + b;
      CollapseAppend(a[1..], b);
      assert CollapseSpaces(a + b) == [a[0]] + CollapseSpaces(a[1..] + b);
    }
  }

  /** The case of `CollapseAppend` where `a` starts with white space. */
  lemma {:induction false} CollapseAppendRun(a: string, b: string)
    requires a != [] && IsSpace(a[0]) && !IsSpace(a[|a| - 1])
    ensures CollapseSpaces(a + b) == CollapseSpaces(a) + CollapseSpaces(b)
    decreases |a|, 0
  {
    var rest := a[1..];
    assert (a + b)[1..] == rest + b;
    assert rest != [] && rest[|rest| - 1] == a[|a| - 1];
    TrimStartAppend(rest, b);
    TrimStartKeepsLast(rest);
    TrimStartSpec(rest);
    var t := TrimStart(rest);
    CollapseAppend(t, b);
    assert CollapseSpaces(a + b) == "_" + CollapseSpaces(t + b);
  }

  /** `${Date.now()}_${originalName}` with white space runs replaced. */
  function Filename(now: nat, name: string): (f: string)
    ensures NoSpace(f)
  {
    CollapseNoSpace(name);
    Digits(now) + "_" + CollapseSpaces(name)
  }

  /** A filename gives back the timestamp it was made at and the replaced name: files uploaded
      at different milliseconds never share a name. */
  lemma FilenameInjective(n1: nat, a: string, n2: nat, b: string)
    requires Filename(n1, a) == Filename(n2, b)
    ensures n1 == n2 && CollapseSpaces(a) == CollapseSpaces(b)
  {
    var d1, d2 := Digits(n1), Digits(n2);
    var f := Filename(n1, a);
    assert f == d1 + ("_" + CollapseSpaces(a)) == d2 + ("_" + CollapseSpaces(b));
    assert forall i :: 0 <= i < |d1| ==> f[i] == d1[i] != '_';
    assert forall i :: 0 <= i < |d2| ==> f[i] == d2[i] != '_';
    assert f[|d1|] == '_' && f[|d2|] == '_';
    assert d1 == f[..|d1|] == d2;
    ParseDigits(n1);
    ParseDigits(n2);
    assert CollapseSpaces(a) == f[|d1| + 1..] == CollapseSpaces(b);
  }

  /** `req.body.type || 'screenshots'`. */
  function UploadType(typeField: Field<JsStr>): (t: string)
    ensures TruthyField(typeField) ==> t == typeField.value.text
    ensures !TruthyField(typeField) ==> t == DefaultUploadType
  {
    OrString(typeField, DefaultUploadType)
  }

  /** `process.env.BACKEND_URL || 'http://localhost:3001'`. */
  function BaseUrl(backendUrl: Field<JsStr>): (u: string)
    ensures TruthyField(backendUrl) ==> u == backendUrl.value.text
    ensures !TruthyField(backendUrl) ==> u == DefaultBackendUrl
  {
    OrString(backendUrl, DefaultBackendUrl)
  }

  /** Where an uploaded file is written, relative to the server's directory. */
  function StoredPath(uploadType: string, filename: string): string {
    "uploads/" + uploadType + "/" + filename
  }

  /** Two files of one upload type are stored at different paths unless their names are equal. */
  lemma StoredPathInjective(uploadType: string, f1: string, f2: string)
    requires StoredPath(uploadType, f1) == StoredPath(uploadType, f2)
    ensures f1 == f2
  {
    var k := |"uploads/" + uploadType + "/"|;
    assert f1 == StoredPath(uploadType, f1)[k..];
    assert f2 == StoredPath(uploadType, f2)[k..];
  }

  /** The public URL of an uploaded file: the static route `/uploads` under the base URL. */
  function Url(baseUrl: string, uploadType: string, filename: string): (u: string)
    ensures u == baseUrl + "/" + StoredPath(uploadType, filename)
  {
    baseUrl + "/uploads/" + uploadType + "/" + filename
  }

  /** Where `deleteFile` looks: always the screenshots directory. */
  function DeletePath(filename: string): string {
    StoredPath(DefaultUploadType, filename)
  }

  /** A screenshot is deleted by the filename its upload returned. */
  lemma DeleteFindsScreenshot(typeField: Field<JsStr>, now: nat, name: string)
    requires !TruthyField(typeField) || typeField.value.text == DefaultUploadType
    ensures DeletePath(Filename(now, name)) == StoredPath(UploadType(typeField), Filename(now, name))
  {
  }

  /** The files under the server's `uploads` directory, by path. */
  class Disk {
    var files: set<string>

    constructor()
      ensures files == {}
    {
      files := {};
    }

    /** `uploadFile`: a refused file is a 400 and writes nothing; an accepted one is written
        under its upload type with a timestamped name, and its URL and name are returned. */
    method UploadFile(file: Option<UploadedFile>, typeField: Field<JsStr>, now: nat, backendUrl: Field<JsStr>)
      returns (r: Reply<Uploaded>)
      modifies this
      ensures Rejection(file).Some? ==> r == Failure(Rejection(file).value) && files == old(files)
      ensures Rejection(file).None? ==>
        var name := Filename(now, file.value.name);
        r == Success(200, "File uploaded successfully", Uploaded(Url(BaseUrl(backendUrl), UploadType(typeField), name), name))
        && files == old(files) + {StoredPath(UploadType(typeField), name)}
      ensures r.Success? ==> StoredPath(UploadType(typeField), r.data.filename) in files
      ensures r.Success? ==> r.data.url == BaseUrl(backendUrl) + "/" + StoredPath(UploadType(typeField), r.data.filename)
      ensures r.Success? ==> NoSpace(r.data.filename)
    {
      var refused := Rejection(file);
      if refused.Some? {
        return Failure(refused.value);
      }
      var uploadType := UploadType(typeField);
      var filename := Filename(now, file.value.name);
      files := files + {StoredPath(uploadType, filename)};
      r := Success(200, "File uploaded successfully", Uploaded(Url(BaseUrl(backendUrl), uploadType, filename), filename));
    }

    /** `deleteFile`: a file missing from the screenshots directory is a 404; otherwise exactly
        that file is removed. */
    method DeleteFile(filename: string) returns (r: Reply<()>)
      modifies this
      ensures r.Success? <==> DeletePath(filename) in old(files)
      ensures r.Success? ==> r == Success(200, "File deleted successfully", ())
      ensures !r.Success? ==> r == Failure(NotFound("File not found"))
      ensures files == old(files) - {DeletePath(filename)}
    {
      var path := DeletePath(filename);
      if path in files {
        files := files - {path};
        r := Success(200, "File deleted successfully", ());
      } else {
        r := Failure(NotFound("File not found"));
      }
    }
  }
}
