/**
 * The SiliconFlow image tools (backend/app/tools/image_generation.py):
 * generation and editing through an OpenAI-style endpoint, of which only
 * the first image of the answer is used. The HTTP exchange, the `BASE_URL`
 * setting and the download's outside world are parameters.
 */
module SiliconFlow {
  import opened Common
  import opened PyPath
  import opened ImageFiles
  import Volcano

  /** The reply when no key is configured. */
  const MissingKey: string := "未配置 OPENAI_API_KEY（请在 backend/.env 设置，可参考 env.example）"

  /** The size every generation request asks for. */
  const FixedSize: string := "1024x1024"

  /** Where a local path is served when `BASE_URL` is not set. */
  const DefaultBaseUrl: string := "http://localhost:8000"

  /** What the answer yields: a raised exception, no usable URL, or the first image's URL. */
  datatype Found = Raises | NoUrl | Found(url: Json)

  /**
   * `"images" in data and len(data["images"]) > 0`, then
   * `data["images"][0].get("url")` when truthy. Raises where Python does:
   * `in` or `len` on a number, a boolean or null, indexing a list or a
   * string with a key, an object with the integer key 0, and `.get` on
   * anything but an object.
   */
  function FirstImageUrl(data: Json): (r: Found)
    ensures r.Found? ==> Truthy(r.url)
  {
    var has := PyIn("images", data);
    if has.None? then Raises
    else if !has.value then NoUrl
    else if !data.JObject? then Raises
    else
      var images := data.fields["images"];
      match images
      case JList(items) =>
        if items == [] then NoUrl
        else if !items[0].JObject? then Raises
        else
          var url := Get(items[0].fields, "url");
          if Truthy(url) then Found(url) else NoUrl
      case JStr(s) => if s == "" then NoUrl else Raises
      case JObject(m) => if m == map[] then NoUrl else Raises
      case _ => Raises
  }

  /** Only the first image counts: whatever follows it in the list changes nothing. */
  lemma FirstImageOnly(m: map<string, Json>, first: Json, rest: seq<Json>)
    requires "images" in m && m["images"] == JList([first] + rest)
    ensures FirstImageUrl(JObject(m)) == FirstImageUrl(JObject(m["images" := JList([first])]))
  {
  }

  /** An object without "images", or with an empty list there, has no URL; nothing raises. */
  lemma NoImages(m: map<string, Json>)
    requires "images" !in m || m["images"] == JList([])
    ensures FirstImageUrl(JObject(m)) == NoUrl
  {
  }

  /**
   * Where both providers read an answer `{"images": [{"url": u}, ...]}`
   * with a truthy first URL, this tool uses the URL the Volcano tool lists
   * first.
   */
  lemma SameFirstUrl(m: map<string, Json>, items: seq<Json>)
    requires "data" !in m && "images" in m && m["images"] == JList(items)
    requires forall i :: 0 <= i < |items| ==> items[i].JObject?
    requires items != [] && Truthy(Get(items[0].fields, "url"))
    ensures Volcano.ExtractUrls(JObject(m)).Some?
    ensures FirstImageUrl(JObject(m)) == Found(Volcano.ExtractUrls(JObject(m)).value[0])
  {
    assert !Volcano.ListUnder(JObject(m), "data");
    assert Volcano.ListUnder(JObject(m), "images");
    UrlsOfHead(items);
  }

  /** A list of objects whose first URL is truthy yields that URL first. */
  lemma UrlsOfHead(items: seq<Json>)
    requires forall i :: 0 <= i < |items| ==> items[i].JObject?
    requires items != [] && Truthy(Get(items[0].fields, "url"))
    ensures Volcano.UrlsOf(items).Some?
    ensures Volcano.UrlsOf(items).value[0] == Get(items[0].fields, "url")
  {
    UrlsOfObjects(items[1..]);
  }

  /** A list of objects never makes the URL list comprehension raise. */
  lemma {:induction false} UrlsOfObjects(items: seq<Json>)
    requires forall i :: 0 <= i < |items| ==> items[i].JObject?
    ensures Volcano.UrlsOf(items).Some?
    decreases |items|
  {
    if items != [] {
      UrlsOfObjects(items[1..]);
    }
  }

  /** The message of a successful generation, naming the stored path. */
  function GeneratedMessage(local: Json): string {
    "图片已生成并保存到本地。图片URL: " + Display(local) + "。如需编辑此图片，请使用此URL。"
  }

  /** What `generate_image_tool` answers once the request is sent; the download is unprefixed. */
  function GenerateOutcome(prompt: string, response: Response, dumps: Json -> string, io: Io): Outcome {
    var body := ResponseBody(GeneratePrefix, response);
    if body.Err? then body.error
    else
      var found := FirstImageUrl(body.value);
      match found
      case Raises => Raised(GeneratePrefix, Foreign)
      case NoUrl => Reply(NoUrlReply + dumps(body.value))
      case Found(url) =>
        var local := SaveOne("", url, prompt, io);
        Result(map["image_url" := local, "original_url" := url, "local_path" := local, "prompt" := JStr(prompt),
                   "message" := JStr(GeneratedMessage(local))])
  }

  /** `generate_image_tool`: no request without a key; otherwise the prompt at the fixed size. */
  function GenerateImage(prompt: string, apiKey: string, response: Response, dumps: Json -> string, io: Io): (Option<Request>, Outcome) {
    if apiKey == "" then (None, Reply(GeneratePrefix + MissingKey))
    else (Some(Request(prompt, Some(FixedSize), None, None)), GenerateOutcome(prompt, response, dumps, io))
  }

  /**
   * Without a key nothing is sent. With one, the request carries the prompt
   * at 1024x1024, and a successful answer names the download of the first
   * image's URL as `image_url` and `local_path`, in the message too, with the
   * original URL beside it.
   */
  lemma GenerateShape(prompt: string, apiKey: string, response: Response, dumps: Json -> string, io: Io)
    ensures var (request, out) := GenerateImage(prompt, apiKey, response, dumps, io);
      && (apiKey == "" <==> request.None?)
      && (apiKey == "" ==> out == Reply(GeneratePrefix + MissingKey))
      && (request.Some? ==> request.value == Request(prompt, Some(FixedSize), None, None))
      && (out.Result? ==>
            && "image_url" in out.fields && "local_path" in out.fields && "original_url" in out.fields
            && "message" in out.fields
            && out.fields["image_url"] == out.fields["local_path"] == SaveOne("", out.fields["original_url"], prompt, io)
            && out.fields["message"] == JStr(GeneratedMessage(out.fields["local_path"]))
            && Found(out.fields["original_url"]) == FirstImageUrl(ResponseBody(GeneratePrefix, response).value))
  {
    if apiKey != "" {
      GenerateOutcomeShape(prompt, response, dumps, io);
    }
  }

  lemma GenerateOutcomeShape(prompt: string, response: Response, dumps: Json -> string, io: Io)
    ensures var out := GenerateOutcome(prompt, response, dumps, io);
      out.Result? ==>
        && "image_url" in out.fields && "local_path" in out.fields && "original_url" in out.fields
        && "message" in out.fields
        && out.fields["image_url"] == out.fields["local_path"] == SaveOne("", out.fields["original_url"], prompt, io)
        && out.fields["message"] == JStr(GeneratedMessage(out.fields["local_path"]))
        && Found(out.fields["original_url"]) == FirstImageUrl(ResponseBody(GeneratePrefix, response).value)
  {
    var body := ResponseBody(GeneratePrefix, response);
    if body.Ok? && FirstImageUrl(body.value).Found? {
      var url := FirstImageUrl(body.value).url;
      FoundFields(prompt, url, SaveOne("", url, prompt, io));
    }
  }

  /** The fields of a generated image: the download twice, the original URL, and the message naming the download. */
  lemma FoundFields(prompt: string, url: Json, local: Json)
    ensures var r := map["image_url" := local, "original_url" := url, "local_path" := local, "prompt" := JStr(prompt),
                         "message" := JStr(GeneratedMessage(local))];
      && "image_url" in r && "local_path" in r && "original_url" in r && "message" in r
      && r["image_url"] == r["local_path"] == local && r["original_url"] == url
      && r["message"] == JStr(GeneratedMessage(r["local_path"]))
  {
  }

  /** `actual_image_url`: a local path is made absolute with `BASE_URL` (default "http://localhost:8000"); anything else is sent as given. */
  function ActualImageUrl(imageUrl: string, baseUrl: Option<string>): (r: string)
    ensures !StartsWith(imageUrl, "/storage/") ==> r == imageUrl
    ensures StartsWith(imageUrl, "/storage/") ==> exists base :: r == base + imageUrl
  {
    if StartsWith(imageUrl, "/storage/") then
      (if baseUrl.Some? then baseUrl.value else DefaultBaseUrl) + imageUrl
    else imageUrl
  }

  /** The default base and a stored image's path make a plain localhost URL. */
  lemma DefaultBaseUrlParts(path: string)
    ensures DefaultBaseUrl + path == "http" + "://" + "localhost" + ":8000" + path
  {
    assert DefaultBaseUrl == "http" + "://" + "localhost" + ":8000";
  }

  lemma HttpLetters()
    ensures forall k :: 0 <= k < |"http"| ==> AsciiAlpha("http"[k])
  {
  }

  lemma LocalhostIsLocal()
    ensures Volcano.IsLocalHost(Some(Lower("localhost")))
  {
    assert Lower("localhost") == "localhost";
    assert "localhost" in Volcano.LocalHosts;
  }

  lemma LocalhostPlain()
    ensures forall c :: c in "localhost" ==> c !in "@[]:%/?#\t\r\n"
  {
    var h := "localhost";
    assert forall i :: 0 <= i < |h| ==> 'a' <= h[i] <= 'z';
  }

  lemma PortPlain()
    ensures forall c :: c in ":8000" ==> c !in "@[]/?#\t\r\n"
  {
    var p := ":8000";
    assert forall i :: 0 <= i < |p| ==> p[i] == ':' || '0' <= p[i] <= '9';
  }

  /** A stored image's path holds no character that would end the URL path early. */
  lemma StoragePathPlain(rest: string)
    requires forall c :: c in rest ==> c !in "?#;\t\r\n"
    ensures var path := "/storage/" + rest;
      && |path| > 0 && path[0] == '/' && (forall c :: c in path ==> c !in "?#;\t\r\n")
      && StartsWith(path, Volcano.StoragePrefix) && LStripChar(path, '/') == "storage/" + rest
  {
    var path := "/storage/" + rest;
    assert forall c :: c in path ==> c in "/storage/" || c in rest;
    assert path[1..] == "storage/" + rest;
    assert ("storage/" + rest)[0] == 's';
  }

  /**
   * With the default base, a stored image's path becomes a localhost URL
   * that the Volcano tool would read back from the same file.
   */
  lemma DefaultBaseIsLocal(rest: string)
    requires forall c :: c in rest ==> c !in "?#;\t\r\n"
    ensures ActualImageUrl("/storage/" + rest, None) == DefaultBaseUrl + "/storage/" + rest
    ensures Volcano.LocalFile(ActualImageUrl("/storage/" + rest, None)) == Ok("storage/" + rest)
  {
    var path := "/storage/" + rest;
    assert StartsWith(path, "/storage/");
    assert DefaultBaseUrl + path == DefaultBaseUrl + "/storage/" + rest;
    DefaultBaseUrlParts(path);
    HttpLetters();
    LocalhostIsLocal();
    LocalhostPlain();
    PortPlain();
    StoragePathPlain(rest);
    Volcano.PlainUrlInput("http", "localhost", ":8000", path);
  }

  /** The result of a successful edit: the download of the first URL, the caller's image as `source_image`. */
  function EditOutcome(prompt: string, imageUrl: string, response: Response, dumps: Json -> string, io: Io): Outcome {
    var body := ResponseBody(EditPrefix, response);
    if body.Err? then body.error
    else
      var found := FirstImageUrl(body.value);
      match found
      case Raises => Raised(EditPrefix, Foreign)
      case NoUrl => Reply(NoUrlReply + dumps(body.value))
      case Found(url) =>
        var local := SaveOne("", url, prompt, io);
        Result(map["image_url" := local, "original_url" := url, "local_path" := local, "prompt" := JStr(prompt),
                   "source_image" := JStr(imageUrl), "message" := JStr("图片已编辑并保存到本地")])
  }

  /** `edit_image_tool`: no request without a key; otherwise the prompt and the image as an absolute URL. */
  function EditImage(prompt: string, imageUrl: string, apiKey: string, baseUrl: Option<string>,
                     response: Response, dumps: Json -> string, io: Io): (Option<Request>, Outcome) {
    if apiKey == "" then (None, Reply(EditPrefix + MissingKey))
    else (Some(Request(prompt, None, None, Some(ActualImageUrl(imageUrl, baseUrl)))), EditOutcome(prompt, imageUrl, response, dumps, io))
  }

  /**
   * Without a key nothing is sent. With one, the request carries the image
   * URL, made absolute only when it is a local path; a successful result
   * keeps the caller's own text as `source_image`, not the rewritten URL.
   */
  lemma EditShape(prompt: string, imageUrl: string, apiKey: string, baseUrl: Option<string>,
                  response: Response, dumps: Json -> string, io: Io)
    ensures var (request, out) := EditImage(prompt, imageUrl, apiKey, baseUrl, response, dumps, io);
      && (apiKey == "" <==> request.None?)
      && (apiKey == "" ==> out == Reply(EditPrefix + MissingKey))
      && (request.Some? && !StartsWith(imageUrl, "/storage/") ==> request.value.image == Some(imageUrl))
      && (request.Some? && StartsWith(imageUrl, "/storage/") ==>
            request.value.image == Some((if baseUrl.Some? then baseUrl.value else DefaultBaseUrl) + imageUrl))
      && (out.Result? ==>
            && "image_url" in out.fields && "local_path" in out.fields && "original_url" in out.fields
            && "source_image" in out.fields
            && out.fields["source_image"] == JStr(imageUrl)
            && out.fields["image_url"] == out.fields["local_path"] == SaveOne("", out.fields["original_url"], prompt, io))
  {
  }
}
