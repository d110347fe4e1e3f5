/** The per-panel work items: one image-generation request per panel (with the
    picture-book and the comic prompt), and the download of the generated
    image as base64 text. Each returns its panel with a value or a caught
    failure; the HTTP calls are the parameters `api` and `fetch`. */
module Dalle {
  import opened Outcomes
  import opened Panels
  import opened Text
  import Decimal
  import Base64

  /** The JSON body of an image-generation request. */
  datatype DallePayload = DallePayload(prompt: string, n: int, size: string)

  /** The parts of an image-generation response that are read: `data[i].url`. */
  datatype ImageEntry = ImageEntry(url: Option<string>)
  datatype DalleResponse = DalleResponse(data: Option<seq<ImageEntry>>)

  /** `requests.post` to the image-generation endpoint, `raise_for_status()`
      and `json()`: the parsed body, or the failure any of them raised. */
  type DalleApi = DallePayload -> Result<DalleResponse>

  /** `requests.get(url)`, `raise_for_status()` and `content`. */
  type ImageFetch = string -> Result<seq<Base64.byte>>

  const PictureBookSize: string := "1792x1024"
  const ComicSize: string := "1024x1792"

  const SceneKey: string := "シーン"
  const CharacterKey: string := "キャラクター"

  /** The literal text of the picture-book prompt, around its four holes
      (genre, style, scene, character). */
  const PictureBookTemplate: seq<string> := [
    "次の情報に基づいて、イラストを作成してください。\n\n- 画像に文字は含めないでください。\n- シーンとキャラクターをもとに、柔らかい色調と温かみのあるタッチで描いてください。\n- 以下の情報を参考にしてください:\n  - ジャンル: ",
    "\n  - スタイル: ",
    "\n  - シーン: ",
    "\n  - キャラクター: ",
    "\n"]

  /** The literal text of the comic prompt, around its six holes
      (genre, style, scene, character, dialogue, panel number). */
  const ComicTemplate: seq<string> := [
    "次の情報に基づいて漫画のデザインを作成してください。\n\n# 最重要事項\n- 画像に吹き出し等は入れないでください。\n- 文字は含まない画像を生成してください。\n- 各コマは1画像ずつ出力し、複数のコマを1画像に含めないでください。\n- 漫画の吹き出しや文字は後で追加するので、絵に集中してください。\n- コマ番号によって画像内のキャラクター配置を変えてください。\n  - コマ番号=1: キャラクターを右下に配置\n  - コマ番号=2: キャラクターを左下に配置\n  - コマ番号=3: キャラクターを中心に配置\n  - コマ番号=4: キャラクターを左下に配置\n\n# 情報\n- ジャンル: ",
    "\n- スタイル: ",
    "\n- シーン: ",
    "\n- キャラクター: ",
    "\n- セリフ: ",
    "\n- コマ番号: ",
    ""]

  /** The picture-book prompt. It subscripts the panel (`panel['シーン']`,
      `panel['キャラクター']`) outside the worker's `try`, so a missing key is a
      KeyError that escapes the worker. */
  function PictureBookPrompt(panel: Panel, genre: string, style: string): (r: Result<string>)
    ensures panel.scene.None? ==> r == Err(MissingKey(SceneKey))
    ensures panel.scene.Some? && panel.character.None? ==> r == Err(MissingKey(CharacterKey))
    ensures r.Ok? <==> panel.scene.Some? && panel.character.Some?
  {
    if panel.scene.None? then Err(MissingKey(SceneKey))
    else if panel.character.None? then Err(MissingKey(CharacterKey))
    else Ok(Fill(PictureBookTemplate, [genre, style, panel.scene.value, panel.character.value]))
  }

  /** A built picture-book prompt quotes the genre, the style, the scene and
      the character. */
  lemma PictureBookPromptEmbeds(panel: Panel, genre: string, style: string)
    requires panel.scene.Some? && panel.character.Some?
    ensures var prompt := PictureBookPrompt(panel, genre, style).value;
      Contains(prompt, genre) && Contains(prompt, style) &&
      Contains(prompt, panel.scene.value) && Contains(prompt, panel.character.value)
  {
    var values := [genre, style, panel.scene.value, panel.character.value];
    FillContains(PictureBookTemplate, values);
    assert values[0] == genre && values[1] == style;
    assert values[2] == panel.scene.value && values[3] == panel.character.value;
  }

  /** The picture-book request: one landscape image. */
  function PictureBookPayload(panel: Panel, genre: string, style: string): (r: Result<DallePayload>)
    ensures r.Ok? <==> PictureBookPrompt(panel, genre, style).Ok?
    ensures r.Err? ==> r.error == PictureBookPrompt(panel, genre, style).error
    ensures r.Ok? ==>
      r.value.n == 1 && r.value.size == PictureBookSize &&
      r.value.prompt == PictureBookPrompt(panel, genre, style).value
  {
    match PictureBookPrompt(panel, genre, style)
    case Err(e) => Err(e)
    case Ok(prompt) => Ok(DallePayload(prompt, 1, PictureBookSize))
  }

  /** `send_dalle_request_ehon`: the panel paired with the parsed response or
      the caught request failure; only a prompt that cannot be built escapes. */
  function SendPictureBookRequest(panel: Panel, genre: string, style: string, api: DalleApi): (c: Completion<DalleResponse>)
    ensures c.Raised? <==> panel.scene.None? || panel.character.None?
    ensures c.Raised? ==> c.error == PictureBookPrompt(panel, genre, style).error
    ensures c.Returned? ==> c.panel == panel && c.result == api(PictureBookPayload(panel, genre, style).value)
  {
    match PictureBookPayload(panel, genre, style)
    case Err(e) => Raised(e)
    case Ok(payload) => Returned(panel, api(payload))
  }

  /** The picture-book worker with the prompt built inside its `try`: a
      missing scene or character is caught and returned with the panel like
      any failed request, so the worker never raises. */
  function GuardedSendPictureBookRequest(panel: Panel, genre: string, style: string, api: DalleApi)
    : (c: Completion<DalleResponse>)
    ensures c.Returned? && c.panel == panel
    ensures panel.scene.None? || panel.character.None? ==> c.result == Err(PictureBookPrompt(panel, genre, style).error)
    ensures panel.scene.Some? && panel.character.Some? ==>
      c.result == api(PictureBookPayload(panel, genre, style).value)
  {
    match PictureBookPayload(panel, genre, style)
    case Err(e) => Returned(panel, Err(e))
    case Ok(payload) => Returned(panel, api(payload))
  }

  /** `str.format` of a value read with `.get`: an absent key prints as `None`. */
  function ShowText(v: Option<string>): string {
    match v
    case Some(s) => s
    case None => "None"
  }

  function ShowNumber(v: Option<int>): string {
    match v
    case Some(i) => Decimal.IntToString(i)
    case None => "None"
  }

  /** The comic prompt. It reads every field with `.get`, so it is always built;
      genre and style come from the narrative, the rest from the panel. */
  function ComicPrompt(panel: Panel, narrative: Narrative): string {
    Fill(ComicTemplate, [ShowText(narrative.genre), ShowText(narrative.style), ShowText(panel.scene),
                         ShowText(panel.character), ShowText(panel.dialogue), ShowNumber(panel.number)])
  }

  /** The comic prompt quotes all six values, an absent one as `None`. */
  lemma ComicPromptEmbeds(panel: Panel, narrative: Narrative)
    ensures var prompt := ComicPrompt(panel, narrative);
      Contains(prompt, ShowText(narrative.genre)) && Contains(prompt, ShowText(narrative.style)) &&
      Contains(prompt, ShowText(panel.scene)) && Contains(prompt, ShowText(panel.character)) &&
      Contains(prompt, ShowText(panel.dialogue)) && Contains(prompt, ShowNumber(panel.number))
  {
    var values := [ShowText(narrative.genre), ShowText(narrative.style), ShowText(panel.scene),
                   ShowText(panel.character), ShowText(panel.dialogue), ShowNumber(panel.number)];
    FillContains(ComicTemplate, values);
    assert values[0] == ShowText(narrative.genre) && values[1] == ShowText(narrative.style);
    assert values[2] == ShowText(panel.scene) && values[3] == ShowText(panel.character);
    assert values[4] == ShowText(panel.dialogue) && values[5] == ShowNumber(panel.number);
  }

  /** The comic request: one portrait image. */
  function ComicPayload(panel: Panel, narrative: Narrative): (payload: DallePayload)
    ensures payload.n == 1 && payload.size == ComicSize && payload.prompt == ComicPrompt(panel, narrative)
  {
    DallePayload(ComicPrompt(panel, narrative), 1, ComicSize)
  }

  /** `send_dalle_request_manga`: never raises; the panel it was given, paired
      with the response or the caught failure. */
  function SendComicRequest(panel: Panel, narrative: Narrative, api: DalleApi): (c: Completion<DalleResponse>)
    ensures c.Returned? && c.panel == panel
    ensures c.result == api(ComicPayload(panel, narrative))
  {
    Returned(panel, api(ComicPayload(panel, narrative)))
  }

  /** `result['data'][0]['url']`: an absent `data`, an empty `data` list or an
      absent `url` each fail. */
  function ImageUrl(response: DalleResponse): (r: Result<string>)
    ensures r.Ok? <==> response.data.Some? && |response.data.value| > 0 && response.data.value[0].url.Some?
    ensures r.Ok? ==> r.value == response.data.value[0].url.value
    ensures r.Err? ==> r.error == MissingImageUrl
  {
    match response.data
    case None => Err(MissingImageUrl)
    case Some(entries) =>
      if |entries| == 0 then Err(MissingImageUrl)
      else match entries[0].url
        case None => Err(MissingImageUrl)
        case Some(url) => Ok(url)
  }

  /** `download_image`: never raises; the panel it was given, paired with the
      fetched image as base64 text, or with the failure. */
  function DownloadImage(panel: Panel, response: DalleResponse, fetch: ImageFetch): (c: Completion<string>)
    ensures c.Returned? && c.panel == panel
    ensures c.result.Ok? <==> ImageUrl(response).Ok? && fetch(ImageUrl(response).value).Ok?
    ensures c.result.Ok? ==> c.result.value == Base64.Encode(fetch(ImageUrl(response).value).value)
    ensures c.result.Ok? ==> Base64.Decode(c.result.value) == Some(fetch(ImageUrl(response).value).value)
  {
    match ImageUrl(response)
    case Err(e) => Returned(panel, Err(e))
    case Ok(url) =>
      match fetch(url)
      case Err(e) => Returned(panel, Err(e))
      case Ok(bytes) =>
        Base64.RoundTrip(bytes);
        Returned(panel, Ok(Base64.Encode(bytes)))
  }
}
