/** `POST /api/media/upload`: an editor uploads an image, which is written under
    `public/uploads` and recorded as a media file. */
module MediaUpload {
  import opened Json
  import opened Web
  import opened Text

  /** The `file` entry of the form data: its name, MIME type and size in bytes. */
  datatype UploadedFile = UploadedFile(name: string, mimeType: string, size: int)

  /** What the handler awaits or reads, in order: the session, the form data (with
      the file entry, if any), the file's bytes, `Date.now()`, the base-36 text of
      `Math.random()`, the directory creation and file write, and the insert, which
      yields the new record's id. */
  datatype Effects = Effects(
    session: Outcome<Option<Session>>,
    form: Outcome<Option<UploadedFile>>,
    bytes: Outcome<()>,
    now: int,
    randomBase36: string,
    write: Outcome<()>,
    created: Outcome<string>)

  /** The record handed to `mediaFile.create`. */
  datatype MediaData = MediaData(url: string, alt: string, size: int, mime: string)

  datatype Reply =
    | ErrorReply(error: string, details: Option<string>)
    | Uploaded(id: string, data: MediaData)

  const NoSession := "No autorizado. Por favor inicia sesión nuevamente."
  const NoPermission := "No tienes permisos para subir archivos."
  const NoFile := "No file provided"
  const InvalidType := "Invalid file type"
  const TooLarge := "El archivo es demasiado grande. El tamaño máximo es de 15MB."
  const UploadFailed := "Error al subir el archivo"
  const Duplicate := "Ya existe un archivo con este nombre"
  const NoDirectory := "Error al crear el directorio de uploads"
  const NoWriteAccess := "No tienes permisos para escribir en el directorio"

  const AllowedTypes := ["image/jpeg", "image/png", "image/webp", "image/gif"]

  /** 15 MB. */
  const MaxSize := 15 * 1024 * 1024

  /** `name.split('.').pop()`: the text after the last '.', or the whole name when
      it has none. */
  function Extension(name: string): (r: string)
    ensures '.' !in r
    ensures |r| <= |name| && name[|name| - |r|..] == r
    ensures |r| == |name| <==> '.' !in name
    ensures |r| < |name| ==> name[|name| - |r| - 1] == '.'
  {
    if name == [] then []
    else if name[|name| - 1] == '.' then []
    else
      var init := name[..|name| - 1];
      assert name == init + [name[|name| - 1]];
      Extension(init) + [name[|name| - 1]]
  }

  /** `substring(2, 15)`, whose bounds are clamped to the string. */
  function RandomPart(s: string): (r: string)
    ensures |r| <= 13
    ensures |s| >= 15 ==> r == s[2..15]
  {
    var start := if |s| < 2 then |s| else 2;
    var end := if |s| < 15 then |s| else 15;
    s[start..end]
  }

  /** `${timestamp}-${randomStr}.${extension}`. */
  function Filename(now: int, randomBase36: string, name: string): string
  {
    IntString(now) + "-" + RandomPart(randomBase36) + "." + Extension(name)
  }

  function Url(filename: string): string
  {
    "/uploads/" + filename
  }

  /** The `catch` block's message, in its order of priority. */
  function ErrorMessage(e: Thrown): string
  {
    if HasCode(e, "P2002") then Duplicate
    else if Includes(e.message, "ENOENT") then NoDirectory
    else if Includes(e.message, "EACCES") then NoWriteAccess
    else if e.message != "" then e.message
    else UploadFailed
  }

  function Failure(e: Thrown): Response<Reply>
  {
    Response(500, ErrorReply(ErrorMessage(e), Some(e.message)))
  }

  function Rejected(status: int, message: string): Response<Reply>
  {
    Response(status, ErrorReply(message, None))
  }

  function Post(e: Effects): Response<Reply>
  {
    if e.session.Threw? then Failure(e.session.error)
    else if e.session.value.None? then Rejected(401, NoSession)
    else if !IsStaff(e.session.value) then Rejected(403, NoPermission)
    else if e.form.Threw? then Failure(e.form.error)
    else if e.form.value.None? then Rejected(400, NoFile)
    else
      var file := e.form.value.value;
      if file.mimeType !in AllowedTypes then Rejected(400, InvalidType)
      else if file.size > MaxSize then Rejected(400, TooLarge)
      else if e.bytes.Threw? then Failure(e.bytes.error)
      else if e.write.Threw? then Failure(e.write.error)
      else if e.created.Threw? then Failure(e.created.error)
      else
        var filename := Filename(e.now, e.randomBase36, file.name);
        Response(200, Uploaded(e.created.value, MediaData(Url(filename), file.name, file.size, file.mimeType)))
  }

  // ---------------------------------------------------------------- properties

  /** The checks come in a fixed order: no session is 401, then a session of another
      role is 403, before the form data is read. */
  lemma AuthorizationOrder(e: Effects, form: Outcome<Option<UploadedFile>>)
    requires e.session.Done?
    ensures e.session.value.None? ==> Post(e) == Rejected(401, NoSession)
    ensures e.session.value.Some? && !IsStaff(e.session.value) ==> Post(e) == Rejected(403, NoPermission)
    ensures !IsStaff(e.session.value) ==> Post(e.(form := form)) == Post(e)
  {
  }

  /** The file checks: a missing file, then the MIME type, then the size. */
  lemma FileChecks(e: Effects)
    requires e.session.Done? && IsStaff(e.session.value) && e.form.Done?
    ensures e.form.value.None? ==> Post(e) == Rejected(400, NoFile)
    ensures e.form.value.Some? && e.form.value.value.mimeType !in AllowedTypes ==>
      Post(e) == Rejected(400, InvalidType)
    ensures e.form.value.Some? && e.form.value.value.mimeType in AllowedTypes && e.form.value.value.size > MaxSize ==>
      Post(e) == Rejected(400, TooLarge)
  {
  }

  /** The limit is 15728640 bytes and inclusive: a file of exactly that size passes
      the size check. */
  lemma SizeLimitInclusive(e: Effects)
    requires e.session.Done? && IsStaff(e.session.value) && e.form.Done? && e.form.value.Some?
    requires e.form.value.value.mimeType in AllowedTypes && e.form.value.value.size == MaxSize
    ensures MaxSize == 15728640
    ensures Post(e).body != ErrorReply(TooLarge, None)
  {
  }

  /** An upload is recorded exactly when every check passes and every effect
      succeeds; the record's URL is the saved file's name under `/uploads/`. */
  lemma UploadedIff(e: Effects)
    ensures Post(e).status == 200 <==>
      e.session.Done? && IsStaff(e.session.value) && e.form.Done? && e.form.value.Some? &&
      e.form.value.value.mimeType in AllowedTypes && e.form.value.value.size <= MaxSize &&
      e.bytes.Done? && e.write.Done? && e.created.Done?
  {
    if e.session.Done? && e.session.value.Some? && IsStaff(e.session.value) && e.form.Done? && e.form.value.Some? {
      var file := e.form.value.value;
      if file.mimeType in AllowedTypes && file.size <= MaxSize {
        if e.bytes.Done? && e.write.Done? && e.created.Done? {
          assert Post(e).status == 200;
        }
      }
    }
  }

  /** A recorded upload's URL is the saved file's name under `/uploads/`, and the
      record keeps the original name, size and MIME type. */
  lemma UploadedRecord(e: Effects)
    requires e.session.Done? && IsStaff(e.session.value) && e.form.Done? && e.form.value.Some?
    requires e.form.value.value.mimeType in AllowedTypes && e.form.value.value.size <= MaxSize
    requires e.bytes.Done? && e.write.Done? && e.created.Done?
    ensures var file := e.form.value.value;
      Post(e) == Response(200, Uploaded(e.created.value, MediaData(
        "/uploads/" + IntString(e.now) + "-" + RandomPart(e.randomBase36) + "." + Extension(file.name),
        file.name, file.size, file.mimeType)))
  {
    var file := e.form.value.value;
    var stamp, rnd, ext := IntString(e.now), RandomPart(e.randomBase36), Extension(file.name);
    assert Post(e) == Response(200, Uploaded(e.created.value, MediaData(
      Url(Filename(e.now, e.randomBase36, file.name)), file.name, file.size, file.mimeType)));
    var u, d, p := "/uploads/", "-", ".";
    Associative(u, stamp + d + rnd + p, ext);
    Associative(u, stamp + d + rnd, p);
    Associative(u, stamp + d, rnd);
    Associative(u, stamp, d);
  }

  /** The extension is what follows the last dot. */
  lemma ExtensionAfterDot(name: string, d: nat)
    requires d < |name| && name[d] == '.'
    requires forall j :: d < j < |name| ==> name[j] != '.'
    ensures Extension(name) == name[d + 1..]
  {
    var r := Extension(name);
    assert '.' in name;
    var q := |name| - |r| - 1;
    assert name[q] == '.';
  }

  /** The saved file keeps the extension of the uploaded name. */
  lemma ExtensionOfName(stem: string, ext: string)
    requires '.' !in ext
    ensures Extension(stem + "." + ext) == ext
  {
    var name := stem + "." + ext;
    assert forall j :: |stem| < j < |name| ==> name[j] == ext[j - |stem| - 1];
    ExtensionAfterDot(name, |stem|);
    assert name[|stem| + 1..] == ext;
  }

  /** The error message, in its priority order. */
  lemma ErrorPriority(e: Thrown)
    ensures Failure(e).status == 500 && Failure(e).body.details == Some(e.message)
    ensures HasCode(e, "P2002") ==> ErrorMessage(e) == Duplicate
    ensures !HasCode(e, "P2002") && Includes(e.message, "ENOENT") ==> ErrorMessage(e) == NoDirectory
    ensures !HasCode(e, "P2002") && !Includes(e.message, "ENOENT") && Includes(e.message, "EACCES") ==>
      ErrorMessage(e) == NoWriteAccess
    ensures !HasCode(e, "P2002") && !Includes(e.message, "ENOENT") && !Includes(e.message, "EACCES") ==>
      ErrorMessage(e) == (if e.message != "" then e.message else UploadFailed)
  {
  }
}
