/** The payload handed to the external HTML renderer. The renderer itself is
    the parameter `render` of the two pipelines. */
module Render {
  import opened Outcomes

  /** The picture-book content: exactly two image slots and one text. */
  datatype PictureBookPage = PictureBookPage(imgSrc1: string, imgSrc2: string, text: string)

  /** One comic panel: an image and its dialogue. */
  datatype ComicEntry = ComicEntry(imgSrc: string, text: string)

  datatype Content = PictureBook(page: PictureBookPage) | Comic(entries: seq<ComicEntry>)

  /** The JSON body of the renderer call (app/services/html_generator.py:6-10). */
  datatype RenderRequest = RenderRequest(userId: string, isComic: bool, content: Content)

  const UserId: string := "test_user"

  /** `requests.post` to the renderer, `raise_for_status()` and `json()`. */
  type Renderer = RenderRequest -> Result<string>

  /** `generate_html(is_comic, content)` builds its request body. */
  function HtmlRequest(isComic: bool, content: Content): (r: RenderRequest)
    ensures r.userId == UserId && r.isComic == isComic && r.content == content
  {
    RenderRequest(UserId, isComic, content)
  }
}
