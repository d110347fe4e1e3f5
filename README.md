# Picture-book and comic-strip assembly, modelled in Dafny

This project models the result-handling core of a small backend. The backend turns a commit outline into either a
two-slot picture book (`generate_ehon`) or a comic strip (`generate_manga`).

Both pipelines work the same way:

1. A text-generation backend returns a narrative of panels.
2. Each panel is sent as one image-generation request.
3. Each successful response is downloaded and base64-encoded.
4. The pieces are assembled into the content that an external HTML renderer receives.

The concurrency of both stages is modelled as a fold over a completion order. The two stages are a thread pool read
with `as_completed`. A `Scheduler` gives, for every number of submitted jobs `n`, a permutation of `0..n-1`. Every
theorem about a whole run holds for all schedulers.

Each worker's future is a `Completion`:

- `Returned(panel, Ok(v))` is a successful `(panel, value)` pair.
- `Returned(panel, Err(e))` is a pair carrying a caught exception object.
- `Raised(e)` is an exception that escaped the worker, which `future.result()` re-raises.

The external calls are parameters of the model:

- the image-generation HTTP call (`DalleApi`);
- the image fetch (`ImageFetch`);
- the renderer (`Renderer`);
- the outcome of the narrative call (a `Result<Narrative>`).

Modules, one concept each:

| file | module | what it holds |
|---|---|---|
| outcomes.dfy | `Outcomes` | `Option`, `Result` and the `Error` kinds that stand in for exceptions |
| panels.dfy | `Panels` | request, panel and narrative records; the worker `Completion` |
| text.dfy | `Text` | `"\n".join`, `str.split`, template filling and substring containment |
| decimal.dfy | `Decimal` | `str(int)` and its inverse |
| base64.dfy | `Base64` | the encoding of section 4 of RFC 4648 and a decoder |
| dalle.dfy | `Dalle` | prompts, payloads, the two request workers and `download_image` |
| fan_in.dfy | `FanIn` | completion orders, the collection loop of the first stage, flat-map algebra |
| stages.dfy | `Stages` | the two stages as both pipelines run them, and fault isolation across them |
| panel_order.dfy | `PanelOrder` | a stable sort of panels by number |
| render.dfy | `Render` | the renderer's request body |
| ehon.dfy | `Ehon` | the picture-book pipeline |
| manga.dfy | `Manga` | the comic-strip pipeline |

## The picture-book worker's missing-key path

Both request workers wrap the HTTP call in `try`/`except` and hand the caught exception back as `(panel, e)`
(app/services/dalle.py:35-41 and 80-86). Both callers then filter with `isinstance(result, Exception)`
(app/api/endpoints/ehon.py:34-39, app/api/endpoints/manga.py:146-151). Together these show that a worker is meant to
report a per-panel failure rather than raise it.

`send_dalle_request_ehon` does not keep to this. It reads `panel['シーン']` and `panel['キャラクター']` while
building the prompt, before its `try` (app/services/dalle.py:16-25). A panel without one of these keys therefore
raises `KeyError` out of the worker, `future.result()` re-raises it (app/api/endpoints/ehon.py:35), and the whole
picture-book run fails with HTTP 500 (app/api/endpoints/ehon.py:79-80).

The model carries both versions:

- `Dalle.SendPictureBookRequest` is the worker as written. It yields `Raised` exactly for such panels, and
  `Ehon.PictureBookRunSucceeds` shows that one such panel fails the run.
- `Dalle.GuardedSendPictureBookRequest` builds the prompt inside the `try` and returns the `KeyError` with its panel.
  `Ehon.GuardedPictureBookRunSucceeds` shows that the run then fails only on the narrative and the page shape.
- The run itself, `Ehon.PictureBookRunWith`, takes the worker as a parameter. The lemmas about the table and the
  page hold for any worker that hands back its own panel, which both versions do.

The comic worker reads every field with `.get`, so it never raises (`Manga.ComicNeverRaises`). An absent field is
printed as `None` in its prompt.

## Model

| member | source | states |
|---|---|---|
| Dalle.PictureBookPrompt | app/services/dalle.py:16-25 | a missing scene fails with a `KeyError` on `シーン`, else a missing character fails with one on `キャラクター`; the prompt is built exactly when both are present |
| Dalle.PictureBookPromptEmbeds | app/services/dalle.py:16-25 | a built picture-book prompt contains the genre, the style, the scene and the character |
| Dalle.PictureBookPayload | app/services/dalle.py:26-30 | the payload asks for one image (`n = 1`) of size `1792x1024` with that prompt, and fails exactly when the prompt does |
| Dalle.SendPictureBookRequest | app/services/dalle.py:9-41 | the worker raises exactly when the scene or the character is absent; otherwise it returns the very panel it was given, paired with the API outcome for its payload |
| Dalle.GuardedSendPictureBookRequest | app/services/dalle.py:9-41 | the worker with its prompt built inside the `try`: it never raises, always returns the very panel it was given, pairs a missing scene or character with that `KeyError`, and otherwise pairs the panel with the API outcome for its payload |
| Dalle.ComicPromptEmbeds | app/services/dalle.py:43-70 | the comic prompt contains the narrative's genre and style and the panel's scene, character, dialogue and number, an absent one printed as `None` |
| Dalle.ComicPayload | app/services/dalle.py:71-75 | the payload asks for one image (`n = 1`) of size `1024x1792` with the comic prompt |
| Dalle.SendComicRequest | app/services/dalle.py:80-86 | the worker always returns, with the very panel it was given and the API outcome for its payload |
| Dalle.ImageUrl | app/services/dalle.py:90 | the URL is read exactly when `data` is present, nonempty and its first entry has a `url`, and is that URL; otherwise the failure is a missing URL |
| Dalle.DownloadImage | app/services/dalle.py:88-97 | the download always returns its panel; it succeeds exactly when the URL is found and the fetch succeeds, and the text it returns is the base64 encoding of the fetched bytes, which decodes back to them |
| Base64.RoundTrip | app/services/dalle.py:94 | decoding the base64 text of any byte sequence gives that sequence back |
| Base64.EncodeLength | app/services/dalle.py:94 | the text has four characters for each group of up to three bytes |
| Decimal.NatToString | app/services/dalle.py:62-69 | `str` of a natural number is a nonempty digit string without a leading zero |
| Decimal.IntRoundTrip | app/services/dalle.py:62-69 | the panel number printed into the comic prompt reads back as the same integer |
| Text.SplitJoin | app/api/endpoints/ehon.py:69-73 | splitting a newline-joined list of newline-free lines at newlines gives the lines back |
| PanelOrder.SortByNumber | app/api/endpoints/ehon.py:66 | the sorted panels are ascending by number and a permutation of the input |
| PanelOrder.SortStable | app/api/endpoints/ehon.py:66 | the sort is stable: the panels with a given number appear in their original order |
| PanelOrder.SortedFirstIsLowest | app/api/endpoints/ehon.py:66-67 | the first sorted panel carries the lowest number of all panels |
| FanIn.ArrivalsPermutation | app/api/endpoints/ehon.py:34 | a completion order yields every submitted future exactly once |
| FanIn.CollectedReorder | app/api/endpoints/manga.py:160-169 | what an appending loop collects depends, up to order, only on which items arrive, not on their order |
| FanIn.GatheredMeaning | app/api/endpoints/ehon.py:34-39 | the first stage fails exactly when some worker raised, with one of the raised errors; otherwise it keeps exactly the successful pairs, in arrival order |
| FanIn.CollectSuccesses | app/api/endpoints/ehon.py:34-39 | the loop that appends each successful `(panel, result)` as its future completes computes that fold over its completion order; it fails exactly when a worker raised, and otherwise keeps the same multiset of pairs whatever the order (the same loop is app/api/endpoints/manga.py:146-151) |
| Stages.RequestStageMeaning | app/api/endpoints/ehon.py:28-39 | the first stage succeeds exactly when no panel's worker raises, and keeps exactly the successful pairs whatever the order |
| Stages.RequestStageMembers | app/api/endpoints/ehon.py:34-39 | a kept pair is some panel with its own successful response, and every panel whose request succeeded is kept |
| Stages.DownloadArrivalMembers | app/api/endpoints/ehon.py:44-53 | fault isolation across both stages: a successful download arrives exactly for each panel whose request and download both succeed, carrying that panel and its image, whatever the two orders |
| Ehon.ImagesKeys | app/api/endpoints/ehon.py:48-53 | the image table has a key exactly for the number of some successful download |
| Ehon.ImagesValue | app/api/endpoints/ehon.py:53 | when downloads sharing a number carry the same image, the table maps each successful download's number to its image |
| Ehon.ImagesReorder | app/api/endpoints/ehon.py:48-53 | with such consistent downloads, the table does not depend on their completion order |
| Ehon.CollectImages | app/api/endpoints/ehon.py:42-53 | the loop that inserts each successful download under its panel's number computes that fold over the completion order; its keys are exactly the successful downloads' numbers, and with consistent downloads the table is the same for every order |
| Ehon.ShapePage | app/api/endpoints/ehon.py:56-74 | with one page, the first panel's image fills both slots and its narration is the text, failing only when that panel has no number; otherwise a missing number anywhere fails, fewer than two panels fail, and the two lowest-numbered panels' images fill the slots, with every narration in number order joined by newlines |
| Ehon.PictureBookSenderTagsPanel | app/services/dalle.py:35-41 | the worker as written hands back, whenever it returns, the very panel it was given |
| Ehon.GuardedSenderTagsPanel | app/services/dalle.py:35-41 | the corrected worker hands back the very panel it was given |
| Ehon.PictureBookRunWith | app/api/endpoints/ehon.py:18-80 | for a given worker: a failed narrative call, an empty narrative and (when `panel_num != 1`) fewer than two panels each fail the run; a successful run had no worker raise and asks the renderer for a picture book with `is_comic = False` |
| Ehon.PictureBookRun | app/api/endpoints/ehon.py:18-80 | a failed narrative call, an empty narrative and (when `panel_num != 1`) fewer than two panels each fail the run; a successful run had a scene and a character on every panel and asks the renderer for a picture book with `is_comic = False` |
| Ehon.GeneratePictureBook | app/api/endpoints/ehon.py:10-80 | the endpoint, with its two loops, hands the renderer exactly the request the run defines and returns the renderer's outcome, or the run's failure |
| Ehon.PictureBookRunSucceeds | app/api/endpoints/ehon.py:18-80 | the run reaches the renderer exactly when the narrative has panels, every panel has a scene and a character, and the panels admit the page's shape; failed requests or downloads never fail it |
| Ehon.PictureBookRunWithSucceeds | app/api/endpoints/ehon.py:18-80 | for any worker, the run reaches the renderer exactly when the narrative has panels, no worker raised, and the panels admit the page's shape |
| Ehon.GuardedPictureBookRun | app/api/endpoints/ehon.py:18-80 | the run with the corrected worker: a failed narrative call and an empty narrative fail it, and a successful run asks for a picture book with `is_comic = False` |
| Ehon.GuardedPictureBookRunSucceeds | app/api/endpoints/ehon.py:18-80 | with the corrected worker, the run reaches the renderer exactly when the narrative has panels that admit the page's shape; no panel's scene or character can fail it |
| Ehon.UnpromptablePanelFailsRun | app/services/dalle.py:16-25 | on a narrative whose panels admit the page's shape, one panel without a scene or a character fails the run as written, while the corrected run succeeds on the same input |
| Ehon.PictureBookImageKeys | app/api/endpoints/ehon.py:28-53 | for any worker that hands back its own panel and whatever the two orders, the table's keys are exactly the numbers of the panels whose request and download both succeeded |
| Ehon.PictureBookImageValues | app/api/endpoints/ehon.py:28-53 | when no two panels share a number, each panel's number looks up exactly its own image, or `""` when its request or download failed |
| Ehon.PictureBookPageContent | app/api/endpoints/ehon.py:56-74 | when no two panels share a number: one page repeats `panels[0]`'s own image (or `""`) with its narration; otherwise the slots hold the two lowest-numbered panels' own images (or `""`) and the text is every narration in number order, newline-joined |
| Ehon.PictureBookTextLines | app/api/endpoints/ehon.py:66-73 | with two or more pages, splitting the text at newlines gives back every narration, lowest number first, when no narration holds a newline |
| Ehon.PictureBookOrderIndependent | app/api/endpoints/ehon.py:28-74 | when no two panels share a number, any two pairs of completion orders succeed or fail together and give the renderer the same request |
| Manga.CollectEntries | app/api/endpoints/manga.py:154-169 | the loop that appends an entry for each successful download as it completes computes that fold over the completion order, and the multiset of entries is the same for every order |
| Manga.ComicRun | app/api/endpoints/manga.py:126-173 | the run fails exactly on a failed narrative call or an empty narrative; otherwise it always reaches the renderer, with `is_comic = True` |
| Manga.GenerateComic | app/api/endpoints/manga.py:118-175 | the endpoint, with its two loops, hands the renderer exactly the request the run defines and returns the renderer's outcome, or the run's failure |
| Manga.ComicEntriesExact | app/api/endpoints/manga.py:140-169 | whatever the two orders, the entries are, up to order, exactly one per panel whose request and download both succeeded, carrying that image and that panel's dialogue |
| Manga.ComicOrderIndependent | app/api/endpoints/manga.py:160-169 | two runs with different completion orders hand the renderer the same entries, possibly reordered |
| Manga.ComicEntriesMembers | app/api/endpoints/manga.py:165-169 | there are at most as many entries as panels; an entry is present exactly when some panel delivered that image and has that dialogue (`""` when absent) |
| Manga.ComicNeverRaises | app/api/endpoints/manga.py:146-147 | no comic request worker raises, so the first stage never fails the run |
| Render.HtmlRequest | app/services/html_generator.py:6-10 | the renderer's body carries the user `test_user`, the comic flag and the content |

## Left out

- Thread pools and `as_completed` are not modelled as concurrency. A completion order per stage that is a permutation of the submitted jobs stands in for them.
- The narrative call (app/services/narrative.py) and its prompt template (app/api/endpoints/manga.py:8-113) are left out because they are a foreign call. The run takes its outcome as a `Result<Narrative>` value.
- The image-generation call, the image fetch and the renderer are function parameters. HTTP headers, the API key, endpoint URLs, `raise_for_status` and JSON parsing are only the `Ok`/`Err` of those parameters.
- Configuration, routing and request schemas are left out. Only the four request fields are kept, as a plain record.
- `print` logging and the HTTP 500 detail strings are left out. A failed run is `Err` with the kind of failure.
- JSON values of unexpected types are not modelled: a number that is not an integer, a text field that is not a string, or `panels` that is not a list of objects. Panel fields are strings or absent, and a panel number is an integer or absent.
- Ehon.PictureBookOrderIndependent: it requires that no two panels share a number. When two panels share a number, the table keeps whichever download completed last, and the content then depends on the order.
- The image-generation call and the image fetch are modelled as functions of their arguments. Two panels with identical fields therefore get the same outcome in the model. The real service answers each request independently and generally returns two different images. The comic theorems (`Manga.ComicEntriesExact`, `Manga.ComicOrderIndependent`) rely on this only for such duplicate panels.
- Ehon.PictureBookRunSucceeds: when several panels lack a scene or a character, the model proves that the run fails but not which `KeyError` is reported. That depends on which worker completes first.
- Dalle.ComicPromptEmbeds: only containment of the six values is stated. The literal prompt text is carried as constants but not reasoned about.
- Base64 encoding is modelled as section 4 of RFC 4648 with a decoder, because the repository calls a library for it.

## Findings

| source | as written | input that shows it | evidently intended | confidence | as-written member | corrected member |
|---|---|---|---|---|---|---|
| app/services/dalle.py:16-25 | the prompt subscripts `panel['シーン']` and `panel['キャラクター']` before the `try`, so a missing key raises out of the worker and fails the whole picture-book run with HTTP 500 | `panel_num = 1` and a narrative with the one panel `{"コマ番号": 1, "キャラクター": "a"}` | the missing key is caught like any request failure and returned as `(panel, e)`, so that panel just has no image | medium, not executed | Ehon.UnpromptablePanelFailsRun | Ehon.GuardedPictureBookRunSucceeds |
