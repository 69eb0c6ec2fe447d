/** The file upload route: the checks an upload must pass, the name it is
    stored under, the signature setting it updates, and the content type it
    is served back with. */
module Upload {
  import opened Text
  import opened Http
  import Receipt

  /** The signed-in user, as far as the route looks at it. */
  datatype User = User(role: string)

  /** An uploaded file: client file name, declared MIME type, size in bytes and contents. */
  datatype UploadFile = UploadFile(name: string, mimeType: string, size: nat, bytes: seq<bv8>)

  /** What `formData.get('file')` returns when the field is present: a file,
      or the text of a plain field sent under that name. */
  datatype FormValue = FileField(file: UploadFile) | TextField(text: string)

  /** `!file` is false: the field is there and is not the empty text. */
  predicate Present(v: Option<FormValue>) {
    v.Some? && v.value != TextField("")
  }

  /** `allowedTypes.includes(file.type)`: a text has no `type`, so it is never allowed. */
  predicate AllowedType(v: FormValue) {
    v.FileField? && v.file.mimeType in AllowedTypes
  }

  const AllowedTypes: seq<string> := ["image/png", "image/jpeg", "image/jpg"]

  /** 2 MiB. */
  const MaxSize: nat := 2 * 1024 * 1024

  predicate IsAdmin(user: Option<User>) {
    user.Some? && user.value.role == "ADMIN"
  }

  // ---------------------------------------------------------------------------
  // Checks

  /** The checks in the order the route makes them: an admin user, a file,
      an allowed MIME type, then the size limit. */
  function Validate(user: Option<User>, file: Option<FormValue>): (r: Outcome<UploadFile>)
    ensures r.Accepted? <==>
      (&& IsAdmin(user) && file.Some? && file.value.FileField?
       && file.value.file.mimeType in AllowedTypes && file.value.file.size <= MaxSize)
    ensures r.Accepted? ==> file == Some(FileField(r.value))
    ensures r.Rejected? ==> r.status == 403 || r.status == 400
  {
    if !IsAdmin(user) then Rejected(403, "Unauthorized")
    else if !Present(file) then Rejected(400, "No file provided")
    else if !AllowedType(file.value) then Rejected(400, "Invalid file type. Only PNG and JPG are allowed")
    else if file.value.file.size > MaxSize then Rejected(400, "File size too large. Maximum 2MB allowed")
    else Accepted(file.value.file)
  }

  /** Which check rejects: a non-admin is refused whatever the file, a
      missing file or an empty text before any file check, a wrong type or a
      non-empty text whatever the size. */
  lemma RejectionOrder(user: Option<User>, file: Option<FormValue>)
    ensures !IsAdmin(user) ==> Validate(user, file) == Rejected(403, "Unauthorized")
    ensures IsAdmin(user) && (file.None? || file == Some(TextField(""))) ==>
      Validate(user, file) == Rejected(400, "No file provided")
    ensures IsAdmin(user) && file.Some? && file.value.TextField? && file.value.text != "" ==>
      Validate(user, file) == Rejected(400, "Invalid file type. Only PNG and JPG are allowed")
    ensures IsAdmin(user) && file.Some? && file.value.FileField? && file.value.file.mimeType !in AllowedTypes ==>
      Validate(user, file) == Rejected(400, "Invalid file type. Only PNG and JPG are allowed")
    ensures (&& IsAdmin(user) && file.Some? && file.value.FileField?
             && file.value.file.mimeType in AllowedTypes && file.value.file.size > MaxSize) ==>
      Validate(user, file) == Rejected(400, "File size too large. Maximum 2MB allowed")
  {
  }

  /** A file of exactly 2 MiB is accepted and one byte more is refused. */
  lemma SizeBoundary(user: Option<User>, f: UploadFile)
    requires IsAdmin(user) && f.mimeType in AllowedTypes
    ensures f.size == 2097152 ==> Validate(user, Some(FileField(f))).Accepted?
    ensures f.size == 2097153 ==>
      Validate(user, Some(FileField(f))) == Rejected(400, "File size too large. Maximum 2MB allowed")
  {
  }

  // ---------------------------------------------------------------------------
  // Names

  /** The `type` form field, `general` when it is missing or empty. */
  function UploadType(param: Option<string>): (t: string)
    ensures t != ""
    ensures Truthy(param) ==> t == param.value
    ensures !Truthy(param) ==> t == "general"
  {
    OrDefault(param, "general")
  }

  /** `name.split('.').pop()`: the text after the last dot, or the whole
      name when it has no dot. */
  function Extension(name: string): (ext: string)
    ensures '.' !in ext
    ensures |ext| <= |name| && ext == name[|name| - |ext|..]
    ensures |ext| < |name| ==> name[|name| - |ext| - 1] == '.'
    ensures |ext| == |name| ==> '.' !in name
  {
    LastPieceIsAfterLastSeparator(name, '.');
    Last(Split(name, '.'))
  }

  /** The stored file name `<type>_<timestamp>.<ext>`. */
  function StoredName(uploadType: string, timestamp: nat, name: string): string {
    uploadType + "_" + Decimal(timestamp) + "." + Extension(name)
  }

  /** Where the stored file lands: the uploads directory joined with its name. */
  function FilePath(dir: string, fileName: string): (path: string)
    ensures |path| == |dir| + 1 + |fileName|
    ensures path[..|dir|] == dir && path[|dir|] == '/'
    ensures path[|dir| + 1..] == fileName
  {
    dir + "/" + fileName
  }

  /** The stored name keeps the uploaded name's extension. */
  lemma StoredNameKeepsExtension(uploadType: string, timestamp: nat, name: string)
    ensures Extension(StoredName(uploadType, timestamp, name)) == Extension(name)
  {
    var base := uploadType + "_" + Decimal(timestamp);
    SplitAfterSeparator(base, Extension(name), '.');
  }

  /** When the type has no dot, the stored name splits on its one dot into
      `<type>_<timestamp>` and the extension, and the digits after the last
      underscore read back as the timestamp. */
  lemma StoredNameParts(uploadType: string, timestamp: nat, name: string)
    requires '.' !in uploadType
    ensures var p := Split(StoredName(uploadType, timestamp, name), '.');
      && p == [uploadType + "_" + Decimal(timestamp), Extension(name)]
      && Last(Split(p[0], '_')) == Decimal(timestamp)
      && DigitsValue(Decimal(timestamp)) == timestamp
  {
    var d := Decimal(timestamp);
    var base := uploadType + "_" + d;
    assert '.' !in d by {
      forall k | 0 <= k < |d| ensures d[k] != '.' { assert IsDigit(d[k]); }
    }
    assert '_' !in d by {
      forall k | 0 <= k < |d| ensures d[k] != '_' { assert IsDigit(d[k]); }
    }
    assert '.' !in base by {
      forall k | 0 <= k < |base| ensures base[k] != '.' {
        if k < |uploadType| { assert base[k] == uploadType[k]; }
        else if k > |uploadType| { assert base[k] == d[k - |uploadType| - 1]; }
      }
    }
    SplitPlain(base, '.');
    SplitAfterSeparator(base, Extension(name), '.');
    SplitAfterSeparator(uploadType, d, '_');
    DecimalRoundTrip(timestamp);
  }

  // ---------------------------------------------------------------------------
  // Serving

  /** The `Content-Type` for a file name, by its lower-cased extension. */
  function ContentType(fileName: string): (ct: string)
    ensures ct == "image/png" <==> LowerAscii(Extension(fileName)) == "png"
    ensures ct == "image/jpeg" <==> LowerAscii(Extension(fileName)) in {"jpg", "jpeg"}
    ensures ct == "application/octet-stream" <==> LowerAscii(Extension(fileName)) !in {"png", "jpg", "jpeg"}
  {
    var ext := LowerAscii(Extension(fileName));
    if ext == "png" then "image/png"
    else if ext == "jpg" || ext == "jpeg" then "image/jpeg"
    else "application/octet-stream"
  }

  /** A stored file is served with the content type of the name it was uploaded under. */
  lemma StoredContentType(uploadType: string, timestamp: nat, name: string)
    ensures ContentType(StoredName(uploadType, timestamp, name)) == ContentType(name)
  {
    StoredNameKeepsExtension(uploadType, timestamp, name);
  }

  /** A successful upload: the stored name and the path written. */
  datatype Stored = Stored(fileName: string, path: string)

  /** A file served back: its content type and bytes. */
  datatype Served = Served(contentType: string, bytes: seq<bv8>)

  /** The uploads directory and the settings table the route writes to. */
  class UploadStore {
    /** The settings table, key to value. */
    var settings: map<string, string>
    /** The files in the uploads directory, by name. */
    var files: map<string, seq<bv8>>
    const uploadsDir: string

    constructor(uploadsDir: string, settings: map<string, string>, files: map<string, seq<bv8>>)
      ensures this.uploadsDir == uploadsDir && this.settings == settings && this.files == files
    {
      this.uploadsDir := uploadsDir;
      this.settings := settings;
      this.files := files;
    }

    /** GET: a file name is required; a file that is not there is not found;
        otherwise its bytes with the content type of its extension. */
    function Get(fileName: Option<string>): (r: Outcome<Served>)
      reads this
      ensures !Truthy(fileName) <==> r == Rejected(400, "Filename is required")
      ensures Truthy(fileName) && fileName.value !in files <==> r == Rejected(404, "File not found")
      ensures r.Accepted? ==>
        (Truthy(fileName) && fileName.value in files
         && r.value == Served(ContentType(fileName.value), files[fileName.value]))
    {
      if !Truthy(fileName) then Rejected(400, "Filename is required")
      else if fileName.value !in files then Rejected(404, "File not found")
      else Accepted(Served(ContentType(fileName.value), files[fileName.value]))
    }

    /** POST: after the checks pass, writes the file under its stored name
        and, for a signature, upserts the `signature_path` setting; nothing
        else changes, and a rejected upload changes nothing. */
    method Post(user: Option<User>, typeParam: Option<string>, file: Option<FormValue>, timestamp: nat)
      returns (r: Outcome<Stored>)
      modifies this
      ensures var v := Validate(user, file);
        v.Rejected? ==> r == Rejected(v.status, v.error) && settings == old(settings) && files == old(files)
      ensures Validate(user, file).Accepted? ==>
        (&& r.Accepted?
         && r.value.fileName == StoredName(UploadType(typeParam), timestamp, file.value.file.name)
         && r.value.path == FilePath(uploadsDir, r.value.fileName)
         && files == old(files)[r.value.fileName := file.value.file.bytes]
         && settings == (if UploadType(typeParam) == "signature"
                         then old(settings)["signature_path" := r.value.path]
                         else old(settings)))
      ensures r.Accepted? ==>
        Get(Some(r.value.fileName)) == Accepted(Served(ContentType(file.value.file.name), file.value.file.bytes))
      ensures r.Accepted? && UploadType(typeParam) == "signature" ==>
        Receipt.CompanyInfoOf(settings).signaturePath == r.value.path
    {
      var uploadType := UploadType(typeParam);
      var v := Validate(user, file);
      if v.Rejected? {
        return Rejected(v.status, v.error);
      }
      var f := v.value;
      var fileName := StoredName(uploadType, timestamp, f.name);
      var path := FilePath(uploadsDir, fileName);
      files := files[fileName := f.bytes];
      if uploadType == "signature" {
        settings := settings["signature_path" := path];
      }
      StoredContentType(uploadType, timestamp, f.name);
      r := Accepted(Stored(fileName, path));
    }
  }

  /** Upserting a non-empty signature path is what the receipt then prints
      as the company's signature. */
  lemma SignatureReachesReceipt(settings: map<string, string>, path: string)
    requires path != ""
    ensures Receipt.CompanyInfoOf(settings["signature_path" := path]).signaturePath == path
    ensures Receipt.ShowsSignature(Receipt.CompanyInfoOf(settings["signature_path" := path]), "admin")
  {
  }
}
