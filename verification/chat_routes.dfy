/**
 * The request shaping of the chat routes (backend/app/routers/chat.py):
 * the history handed to the agent, the checks and the file name of an image
 * upload, and the answer of the delete route. The agent stream, the file
 * system and the clock are outside the model.
 */
module ChatRoutes {
  import opened Common
  import opened PyPath
  import ImageFiles
  import Volcano
  import History

  // ---------------------------------------------------------------------
  // POST /chat
  // ---------------------------------------------------------------------

  /** A chat message as the frontend sends it. */
  type Entry = map<string, Json>

  /** `{"role": "user", "content": message}`. */
  function UserEntry(message: string): Entry {
    map["role" := JStr("user"), "content" := JStr(message)]
  }

  /** `request.messages if request.messages else []`: an absent or empty list is no history. */
  function Given(messages: Option<seq<Entry>>): seq<Entry> {
    if messages.Some? then messages.value else []
  }

  /**
   * The history `chat` passes on: a copy of the request's messages, or [],
   * with exactly one user entry appended. The request's own list is a value
   * here and stays as it was.
   */
  method ChatMessages(message: string, messages: Option<seq<Entry>>) returns (history: seq<Entry>)
    ensures |history| == |Given(messages)| + 1
    ensures history[..|history| - 1] == Given(messages)
    ensures history[|history| - 1] == UserEntry(message)
    ensures forall i :: 0 <= i < |history| - 1 ==> history[i] == Given(messages)[i]
  {
    var copy: seq<Entry> := [];
    if messages.Some? && messages.value != [] {
      copy := messages.value;
    }
    copy := copy + [UserEntry(message)];
    history := copy;
  }

  // ---------------------------------------------------------------------
  // POST /upload-image
  // ---------------------------------------------------------------------

  /** The multipart file: its declared content type and file name, either of which may be missing. */
  datatype Upload = Upload(contentType: Option<string>, fileName: Option<string>)

  /**
   * What the world contributes: the text of the exception if creating the
   * images directory fails, the time stamp, the short id, and the text of
   * the write's exception if it fails.
   */
  datatype UploadIo = UploadIo(dirFailure: Option<string>, stamp: string, uid: string, writeFailure: Option<string>)

  /** The status and detail of an `HTTPException`. */
  datatype HttpError = HttpError(status: int, detail: string)

  /** The detail of a rejected content type. */
  const NotAnImage: string := "只支持图片文件"

  /** The prefix of every detail the blanket handler writes. */
  const UploadFailed: string := "上传失败: "

  /** `x or ""` / `x or "image"` on an optional string. */
  function OrElse(s: Option<string>, fallback: string): string {
    if s.Some? && s.value != "" then s.value else fallback
  }

  /** `content_type.startswith("image/")`. */
  predicate IsImageType(upload: Upload) {
    StartsWith(OrElse(upload.contentType, ""), "image/")
  }

  /** The extension of the original file name (default "image"), or ".jpg" when it has none. */
  function UploadExtension(fileName: Option<string>): (ext: string)
    ensures |ext| >= 1 && ext[0] == '.' && '/' !in ext && '.' !in ext[1..]
  {
    var found := SplitExt(OrElse(fileName, "image")).1;
    var ext := if found == "" then ".jpg" else found;
    if !StartsWith(ext, ".") then ".jpg" else ext
  }

  /** `f"upload_{timestamp}_{unique_id}{ext}"`. */
  function UploadName(fileName: Option<string>, io: UploadIo): string {
    "upload_" + io.stamp + "_" + io.uid + UploadExtension(fileName)
  }

  /**
   * The extension is the original name's own one, or ".jpg" when it has
   * none; the check for a missing leading dot never changes anything.
   */
  lemma UploadExtensionOf(fileName: Option<string>)
    ensures var found := SplitExt(OrElse(fileName, "image")).1;
      UploadExtension(fileName) == if found == "" then ".jpg" else found
  {
  }

  /** A name without an extension, or no name at all, is stored as JPEG. */
  lemma UploadExtensionDefault(fileName: Option<string>)
    requires fileName.Some? ==> '.' !in fileName.value
    ensures UploadExtension(fileName) == ".jpg"
  {
    var name := OrElse(fileName, "image");
    if fileName.None? || fileName.value == "" {
      assert name == "image";
      assert '.' !in name;
    }
    NoDotNoExtension(name);
  }

  /** A name without a dot has no extension. */
  lemma NoDotNoExtension(name: string)
    requires '.' !in name
    ensures SplitExt(name).1 == ""
  {
  }

  /** `upload_image` as written: a rejected content type is caught by its own blanket handler and answered with status 500. */
  function UploadImage(upload: Upload, io: UploadIo): Result<map<string, Json>, HttpError> {
    if io.dirFailure.Some? then Err(HttpError(500, UploadFailed + io.dirFailure.value))
    else if !IsImageType(upload) then Err(HttpError(500, UploadFailed + "400: " + NotAnImage))
    else if io.writeFailure.Some? then Err(HttpError(500, UploadFailed + io.writeFailure.value))
    else
      var name := UploadName(upload.fileName, io);
      Ok(map["url" := JStr(ImageFiles.ImagesRoute + name), "filename" := JStr(name)])
  }

  /**
   * A text file is answered with status 500, not with the 400 the handler
   * raises; when the images directory cannot be created, the directory's
   * error is reported first.
   */
  lemma RejectionBecomes500(io: UploadIo)
    ensures io.dirFailure.None? ==>
      UploadImage(Upload(Some("text/plain"), Some("notes.txt")), io) == Err(HttpError(500, UploadFailed + "400: " + NotAnImage))
    ensures io.dirFailure.Some? ==>
      UploadImage(Upload(Some("text/plain"), Some("notes.txt")), io) == Err(HttpError(500, UploadFailed + io.dirFailure.value))
  {
    assert !StartsWith("text/plain", "image/") by {
      assert "text/plain"[0] != "image/"[0];
    }
  }

  /** `upload_image` as intended: a rejected content type is answered with status 400 and its own detail. */
  function UploadImageIntended(upload: Upload, io: UploadIo): Result<map<string, Json>, HttpError> {
    if io.dirFailure.Some? then Err(HttpError(500, UploadFailed + io.dirFailure.value))
    else if !IsImageType(upload) then Err(HttpError(400, NotAnImage))
    else if io.writeFailure.Some? then Err(HttpError(500, UploadFailed + io.writeFailure.value))
    else
      var name := UploadName(upload.fileName, io);
      Ok(map["url" := JStr(ImageFiles.ImagesRoute + name), "filename" := JStr(name)])
  }

  /**
   * The intended route rejects exactly the uploads that are not images,
   * once the images directory exists, with status 400 and nothing written;
   * it keeps 500 for failures of the directory and of the write, and agrees
   * with the route as written on every image upload and on every failure of
   * the directory.
   */
  lemma UploadStatuses(upload: Upload, io: UploadIo)
    ensures var r := UploadImageIntended(upload, io);
      && (r.Err? && r.error.status == 400 <==> io.dirFailure.None? && !IsImageType(upload))
      && (io.dirFailure.None? && !IsImageType(upload) ==> r == Err(HttpError(400, NotAnImage)))
      && (io.dirFailure.Some? ==> r == Err(HttpError(500, UploadFailed + io.dirFailure.value)))
      && (IsImageType(upload) && io.writeFailure.Some? ==> r.Err? && r.error.status == 500)
      && (IsImageType(upload) || io.dirFailure.Some? ==> r == UploadImage(upload, io))
      && (!IsImageType(upload) ==> UploadImage(upload, io).Err? && UploadImage(upload, io).error.status == 500)
  {
  }

  /** The part of an upload's name before its extension. */
  function UploadStem(io: UploadIo): string {
    "upload_" + io.stamp + "_" + io.uid
  }

  lemma PlainConcat(a: string, b: string)
    requires ImageFiles.Plain(a) && ImageFiles.Plain(b)
    ensures ImageFiles.Plain(a + b)
  {
    assert forall c :: c in a + b ==> c in a || c in b;
  }

  /** With a time stamp and an id free of dots and slashes, `splitext` splits the name at its extension. */
  lemma UploadNameSplits(fileName: Option<string>, io: UploadIo)
    requires ImageFiles.Plain(io.stamp) && ImageFiles.Plain(io.uid)
    ensures ImageFiles.Plain(UploadStem(io))
    ensures UploadName(fileName, io) == UploadStem(io) + UploadExtension(fileName)
    ensures SplitExt(UploadName(fileName, io)) == (UploadStem(io), UploadExtension(fileName))
  {
    var stem := UploadStem(io);
    assert ImageFiles.Plain("upload_") && ImageFiles.Plain("_");
    PlainConcat("upload_", io.stamp);
    PlainConcat("upload_" + io.stamp, "_");
    PlainConcat("upload_" + io.stamp + "_", io.uid);
    SplitExtOfStem(stem, UploadExtension(fileName));
  }

  /**
   * A stored upload answers with its name and the URL it is served under,
   * and the name keeps the original extension, read back by `splitext`.
   */
  lemma UploadAnswer(upload: Upload, io: UploadIo)
    requires io.dirFailure.None? && IsImageType(upload) && io.writeFailure.None?
    requires ImageFiles.Plain(io.stamp) && ImageFiles.Plain(io.uid)
    ensures var r := UploadImageIntended(upload, io);
      && r.Ok? && "url" in r.value && "filename" in r.value
      && r.value["filename"] == JStr(UploadName(upload.fileName, io))
      && r.value["url"] == JStr(ImageFiles.ImagesRoute + UploadName(upload.fileName, io))
      && SplitExt(r.value["filename"].s) == (UploadStem(io), UploadExtension(upload.fileName))
  {
    UploadNameSplits(upload.fileName, io);
  }

  /** The URL of an upload is a local path the Volcano edit tool reads back from the same file. */
  lemma UploadLocalFile(name: string)
    ensures Volcano.LocalFile(ImageFiles.ImagesRoute + name) == Ok("storage/images/" + name)
  {
    assert ImageFiles.ImagesRoute + name == Volcano.StoragePrefix + ("images/" + name);
    Volcano.LocalFileOfStorage("images/" + name);
    assert "storage/" + ("images/" + name) == "storage/images/" + name;
  }

  /**
   * The file of an upload, `upload_<ts>_<id>` followed by an extension as
   * `UploadExtension` yields one, is sent by the Volcano edit tool in the
   * format of that extension.
   */
  lemma UploadFormat(io: UploadIo, ext: string)
    requires ImageFiles.Plain(io.stamp) && ImageFiles.Plain(io.uid)
    requires |ext| >= 2 && ext[0] == '.' && '/' !in ext && '.' !in ext[1..]
    ensures Volcano.FormatOf("storage/images/" + UploadStem(io) + ext) == Volcano.FormatOfExtension(Lower(ext))
  {
    var stem := UploadStem(io);
    assert ImageFiles.Plain("upload_") && ImageFiles.Plain("_");
    PlainConcat("upload_", io.stamp);
    PlainConcat("upload_" + io.stamp, "_");
    PlainConcat("upload_" + io.stamp + "_", io.uid);
    assert "storage/images/" + stem + ext == "storage/images" + "/" + stem + ext;
    Volcano.FormatOfFile("storage/images", stem, ext);
  }

  // ---------------------------------------------------------------------
  // DELETE /canvases/{canvas_id}
  // ---------------------------------------------------------------------

  /**
   * `delete_canvas`: the store drops the id, and the route answers success
   * whether or not the id existed; an exception from the store reaches the
   * server, which answers 500.
   */
  method DeleteCanvasRoute(service: History.HistoryService, canvasId: string, writable: bool)
    returns (response: Result<map<string, Json>, HttpError>)
    modifies service
    ensures var kept := History.DeleteStored(History.Loaded(old(service.file)), canvasId);
      && (kept.Some? <==> response == Ok(map["success" := JBool(true)]))
      && (kept.None? <==> response == Err(HttpError(500, "Internal Server Error")))
      && service.file == History.Written(History.AfterLoad(old(service.file), writable), kept, writable)
  {
    var ok := service.DeleteCanvas(canvasId, writable);
    if ok.Some? {
      response := Ok(map["success" := JBool(true)]);
    } else {
      response := Err(HttpError(500, "Internal Server Error"));
    }
  }
}
