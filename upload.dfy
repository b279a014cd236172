/**
 * The admin image upload: the order of its checks (session, file, type,
 * size), the extension and storage path it derives for an accepted file,
 * and the URL it answers with. The clock value and the random part of the
 * file name are parameters; the storage write is an outcome.
 */
module Upload {
  import opened Wrappers
  import opened Strings

  const AllowedTypes := ["image/jpeg", "image/png", "image/webp", "image/gif"]
  const MaxSize: nat := 5 * 1024 * 1024

  /** The uploaded file as the form carries it. */
  datatype File = File(name: string, mime: string, size: nat)

  /** The multipart form: the optional `file` and `folder` entries. */
  datatype UploadForm = UploadForm(file: Option<File>, folder: Option<string>)

  /** Where an accepted file goes: the storage service, when configured, or the local public folder. */
  datatype Storage =
    | Remote(publicUrl: string -> string, uploadOk: bool)
    | Local(writeOk: bool)

  datatype UploadReply =
    | Unauthorized              // 401
    | BadRequest(error: string) // 400
    | Uploaded(url: string, filename: string)
    | Failed                    // 500 "Failed to upload file"

  const NoFile := "No file provided"
  const BadType := "Invalid file type. Allowed: JPEG, PNG, WebP, GIF"
  const TooLarge := "File too large. Maximum size is 5MB"

  /** `name.split(".").pop() || "jpg"`: the text after the last dot, the whole name without one, "jpg" when that is empty. */
  function Extension(name: string): (ext: string)
    ensures ext != ""
    ensures '.' !in ext || ext == "jpg"
  {
    var parts := Split(name, '.');
    var last := parts[|parts| - 1];
    if last == "" then "jpg" else last
  }

  /** `${now}-${random}.${ext}`. */
  function FileName(now: nat, random: string, ext: string): string {
    NatToString(now) + "-" + random + "." + ext
  }

  /**
   * `POST /api/admin/upload`: 401 before the form is read; a form that
   * cannot be read is 500; then no file, a type outside the four image
   * types, and a size over 5 MiB are each 400, in that order; an accepted
   * file is stored under `folder/filename` (folder "general" by default)
   * and answered with its URL.
   */
  function HandleUpload(session: bool, form: Option<UploadForm>, now: nat, random: string, storage: Storage): UploadReply {
    if !session then Unauthorized
    else if form.None? then Failed
    else
      var folder := OrElse(form.value.folder, "general");
      match form.value.file
      case None => BadRequest(NoFile)
      case Some(file) =>
        if file.mime !in AllowedTypes then BadRequest(BadType)
        else if file.size > MaxSize then BadRequest(TooLarge)
        else
          var filename := FileName(now, random, Extension(file.name));
          var path := folder + "/" + filename;
          match storage
          case Remote(publicUrl, ok) => if ok then Uploaded(publicUrl(path), filename) else Failed
          case Local(ok) => if ok then Uploaded("/uploads/" + folder + "/" + filename, filename) else Failed
  }

  /** The checks come in order: session, form, file, type, size; each earlier failure wins. */
  lemma CheckOrder(session: bool, form: Option<UploadForm>, now: nat, random: string, storage: Storage)
    ensures var r := HandleUpload(session, form, now, random, storage);
      && (!session ==> r == Unauthorized)
      && (session && form.Some? && form.value.file.None? ==> r == BadRequest(NoFile))
      && (session && form.Some? && form.value.file.Some? && form.value.file.value.mime !in AllowedTypes ==> r == BadRequest(BadType))
      && ((session && form.Some? && form.value.file.Some? && form.value.file.value.mime in AllowedTypes
           && form.value.file.value.size > MaxSize) ==> r == BadRequest(TooLarge))
      && (r.Uploaded? ==> (session && form.Some? && form.value.file.Some?
                           && form.value.file.value.mime in AllowedTypes && form.value.file.value.size <= MaxSize))
  {
  }

  /** A file of exactly 5 MiB of an allowed type is accepted when storage succeeds; one byte more is refused. */
  lemma SizeBoundary(name: string, mime: string, folder: Option<string>, now: nat, random: string)
    requires mime in AllowedTypes
    ensures HandleUpload(true, Some(UploadForm(Some(File(name, mime, 5242880)), folder)), now, random, Local(true)).Uploaded?
    ensures HandleUpload(true, Some(UploadForm(Some(File(name, mime, 5242881)), folder)), now, random, Local(true)) == BadRequest(TooLarge)
  {
  }

  /**
   * An accepted file stored locally is answered with
   * `/uploads/<folder>/<filename>`, the folder "general" when none (or an
   * empty one) is given, and a file name ending in the extension.
   */
  lemma LocalUrl(file: File, folder: Option<string>, now: nat, random: string)
    requires file.mime in AllowedTypes && file.size <= MaxSize
    ensures var r := HandleUpload(true, Some(UploadForm(Some(file), folder)), now, random, Local(true));
      var f := if Truthy(folder) then folder.value else "general";
      && r.Uploaded?
      && r.url == "/uploads/" + f + "/" + r.filename
      && r.filename == NatToString(now) + "-" + random + "." + Extension(file.name)
  {
  }

  /** With remote storage, the URL is the storage service's public URL of `folder/filename`. */
  lemma RemoteUrl(file: File, folder: Option<string>, now: nat, random: string, publicUrl: string -> string)
    requires file.mime in AllowedTypes && file.size <= MaxSize
    ensures var r := HandleUpload(true, Some(UploadForm(Some(file), folder)), now, random, Remote(publicUrl, true));
      && r.Uploaded?
      && r.url == publicUrl(OrElse(folder, "general") + "/" + r.filename)
  {
  }

  /** The extension of `base.ext` is `ext` when `ext` is non-empty and has no dot. */
  lemma ExtensionAfterLastDot(base: string, ext: string)
    requires ext != "" && '.' !in ext
    ensures Extension(base + "." + ext) == ext
  {
    assert base + "." + ext == base + ['.'] + ext;
    SplitLastAfterSep(base, ext, '.');
  }

  /** A name without a dot is its own extension; the empty name gets "jpg". */
  lemma ExtensionWithoutDot(name: string)
    requires '.' !in name
    ensures name != "" ==> Extension(name) == name
    ensures name == "" ==> Extension(name) == "jpg"
  {
    SplitNoSep(name, '.');
  }

  /** A name ending in a dot gets "jpg". */
  lemma ExtensionTrailingDot(base: string)
    ensures Extension(base + ".") == "jpg"
  {
    assert base + "." == base + ['.'] + "";
    SplitLastAfterSep(base, "", '.');
  }
}
