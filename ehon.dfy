/** The picture-book pipeline, `generate_ehon` (app/api/endpoints/ehon.py):
    the narrative's panels, one image request per panel, one download per
    successful request into a table keyed by panel number, and a page with two
    image slots and the joined narration handed to the renderer. */
module Ehon {
  import opened Outcomes
  import opened Panels
  import opened Text
  import opened FanIn
  import opened Dalle
  import opened PanelOrder
  import opened Stages
  import opened Render

  const NumberKey: string := "コマ番号"

  /** `ehon_images`: from the panel number as `panel.get("コマ番号")` reads it
      (absent reads as `None`) to the image as base64 text. */
  type ImageTable = map<Option<int>, string>

  /** The table after the download loop has seen the completions of `a`, in
      order: each success stores its image under its panel's number, a later
      one overwriting an earlier one with the same number. */
  function Images(a: seq<Completion<string>>): ImageTable
    decreases |a|
  {
    if a == [] then map[]
    else
      var c := a[|a| - 1];
      var t := Images(a[..|a| - 1]);
      if Succeeded(c) then t[c.panel.number := c.result.value] else t
  }

  /** A number is a key exactly when some successful download carries it. */
  lemma {:induction false} ImagesKeys(a: seq<Completion<string>>, k: Option<int>)
    ensures k in Images(a) <==> exists i :: 0 <= i < |a| && Succeeded(a[i]) && a[i].panel.number == k
    decreases |a|
  {
    if a != [] {
      var a' := a[..|a| - 1];
      ImagesKeys(a', k);
      if exists i :: 0 <= i < |a'| && Succeeded(a'[i]) && a'[i].panel.number == k {
        var i :| 0 <= i < |a'| && Succeeded(a'[i]) && a'[i].panel.number == k;
        assert a[i] == a'[i];
      }
      if exists i :: 0 <= i < |a| && Succeeded(a[i]) && a[i].panel.number == k {
        var i :| 0 <= i < |a| && Succeeded(a[i]) && a[i].panel.number == k;
        if i < |a'| { assert a'[i] == a[i]; }
      }
    }
  }

  /** Two successful downloads with the same panel number carry the same image. */
  ghost predicate Consistent(a: seq<Completion<string>>) {
    forall x, y :: x in a && y in a && Succeeded(x) && Succeeded(y) && x.panel.number == y.panel.number ==>
      x.result.value == y.result.value
  }

  lemma {:induction false} ImagesValue(a: seq<Completion<string>>, x: Completion<string>)
    requires Consistent(a) && x in a && Succeeded(x)
    ensures x.panel.number in Images(a) && Images(a)[x.panel.number] == x.result.value
    decreases |a|
  {
    var a' := a[..|a| - 1];
    var c := a[|a| - 1];
    assert a == a' + [c];
    if Succeeded(c) && c.panel.number == x.panel.number {
      assert c in a;
    } else {
      assert x in a';
      assert Consistent(a') by {
        forall u, v | u in a' && v in a' ensures u in a && v in a { }
      }
      ImagesValue(a', x);
    }
  }

  /** With consistent downloads the table does not depend on their order. */
  lemma ImagesReorder(a: seq<Completion<string>>, b: seq<Completion<string>>)
    requires multiset(a) == multiset(b) && Consistent(a)
    ensures Images(a) == Images(b)
  {
    assert forall x :: x in a <==> x in b by {
      forall x ensures x in a <==> x in b {
        assert x in a <==> x in multiset(a);
        assert x in b <==> x in multiset(b);
      }
    }
    assert Consistent(b);
    forall k ensures k in Images(a) <==> k in Images(b) {
      ImagesKeys(a, k);
      ImagesKeys(b, k);
      if exists i :: 0 <= i < |a| && Succeeded(a[i]) && a[i].panel.number == k {
        var i :| 0 <= i < |a| && Succeeded(a[i]) && a[i].panel.number == k;
        assert a[i] in b;
      }
      if exists i :: 0 <= i < |b| && Succeeded(b[i]) && b[i].panel.number == k {
        var i :| 0 <= i < |b| && Succeeded(b[i]) && b[i].panel.number == k;
        assert b[i] in a;
      }
    }
    forall k | k in Images(a) ensures Images(a)[k] == Images(b)[k] {
      ImagesKeys(a, k);
      var i :| 0 <= i < |a| && Succeeded(a[i]) && a[i].panel.number == k;
      ImagesValue(a, a[i]);
      ImagesValue(b, a[i]);
    }
  }

  /** The download loop (app/api/endpoints/ehon.py:48-53): store each
      successful download under its panel's number as it completes. */
  method CollectImages(downloads: seq<Completion<string>>, order: seq<nat>) returns (images: ImageTable)
    requires IsPermutation(order, |downloads|)
    requires NoneRaised(downloads)
    ensures forall k :: 0 <= k < |order| ==> order[k] < |downloads|
    ensures images == Images(Arrivals(downloads, order))
    ensures forall k :: k in images <==>
      exists i :: 0 <= i < |downloads| && Succeeded(downloads[i]) && downloads[i].panel.number == k
    ensures Consistent(downloads) ==> images == Images(downloads)
  {
    ArrivalsPermutation(downloads, order);
    ghost var arrivals := Arrivals(downloads, order);
    images := map[];
    var i := 0;
    while i < |order|
      invariant 0 <= i <= |order|
      invariant images == Images(arrivals[..i])
    {
      var c := downloads[order[i]];
      assert arrivals[..i + 1][..i] == arrivals[..i] && arrivals[i] == c;
      if c.result.Ok? {
        images := images[c.panel.number := c.result.value];
      }
      i := i + 1;
    }
    assert arrivals[..i] == arrivals;
    forall k ensures k in images <==>
      exists i :: 0 <= i < |downloads| && Succeeded(downloads[i]) && downloads[i].panel.number == k
    {
      ImagesKeys(arrivals, k);
      ImagesKeys(downloads, k);
      if k in images {
        var j :| 0 <= j < |arrivals| && Succeeded(arrivals[j]) && arrivals[j].panel.number == k;
        assert arrivals[j] == downloads[order[j]];
      }
      if exists i :: 0 <= i < |downloads| && Succeeded(downloads[i]) && downloads[i].panel.number == k {
        var i :| 0 <= i < |downloads| && Succeeded(downloads[i]) && downloads[i].panel.number == k;
        assert downloads[i] in multiset(arrivals);
        var j :| 0 <= j < |arrivals| && arrivals[j] == downloads[i];
      }
    }
    if Consistent(downloads) {
      ImagesReorder(downloads, arrivals);
    }
  }

  /** `ehon_images.get(key, "")`. */
  function Lookup(images: ImageTable, key: Option<int>): string {
    if key in images then images[key] else ""
  }

  /** `panel.get("ナレーション", "")`. */
  function NarrationOf(p: Panel): string {
    p.narration.GetOr("")
  }

  /** The content shaping (app/api/endpoints/ehon.py:56-74). With one page the
      first panel's image fills both slots; otherwise the panels are sorted by
      number, the two lowest give the slots and all narrations are joined by
      newlines in that order. A subscript on a missing number, or a second
      panel that is not there, fails the run. */
  function ShapePage(panelNum: int, panels: seq<Panel>, images: ImageTable): (r: Result<PictureBookPage>)
    ensures panelNum == 1 ==> (r.Ok? <==> |panels| > 0 && panels[0].number.Some?)
    ensures panelNum == 1 && |panels| == 0 ==> r == Err(IndexOutOfRange)
    ensures panelNum == 1 && |panels| > 0 && panels[0].number.None? ==> r == Err(MissingKey(NumberKey))
    ensures panelNum != 1 ==> (r.Ok? <==> AllNumbered(panels) && |panels| >= 2)
    ensures panelNum != 1 && !AllNumbered(panels) ==> r == Err(MissingKey(NumberKey))
    ensures panelNum != 1 && AllNumbered(panels) && |panels| < 2 ==> r == Err(IndexOutOfRange)
    ensures r.Ok? && panelNum == 1 ==>
      r.value.imgSrc1 == Lookup(images, panels[0].number) && r.value.imgSrc2 == r.value.imgSrc1 &&
      r.value.text == NarrationOf(panels[0])
    ensures r.Ok? && panelNum != 1 ==>
      var s := SortByNumber(panels);
      r.value.imgSrc1 == Lookup(images, s[0].number) && r.value.imgSrc2 == Lookup(images, s[1].number) &&
      r.value.text == Join('\n', Map(NarrationOf, s))
  {
    if panelNum == 1 then
      if |panels| == 0 then Err(IndexOutOfRange)
      else if panels[0].number.None? then Err(MissingKey(NumberKey))
      else
        var image := Lookup(images, panels[0].number);
        Ok(PictureBookPage(image, image, NarrationOf(panels[0])))
    else if !AllNumbered(panels) then Err(MissingKey(NumberKey))
    else
      var sorted := SortByNumber(panels);
      if |sorted| < 2 then Err(IndexOutOfRange)
      else
        Ok(PictureBookPage(Lookup(images, sorted[0].number), Lookup(images, sorted[1].number),
                           Join('\n', Map(NarrationOf, sorted))))
  }

  /** Each panel's request worker, as the code builds it. */
  function PictureBookSender(genre: string, style: string, api: DalleApi): Sender {
    p => SendPictureBookRequest(p, genre, style, api)
  }

  /** Each panel's request worker with the prompt built inside the `try`. */
  function GuardedPictureBookSender(genre: string, style: string, api: DalleApi): Sender {
    p => GuardedSendPictureBookRequest(p, genre, style, api)
  }

  lemma PictureBookSenderTagsPanel(panels: seq<Panel>, genre: string, style: string, api: DalleApi)
    ensures TagsPanel(PictureBookSender(genre, style, api), panels)
  {
  }

  lemma GuardedSenderTagsPanel(panels: seq<Panel>, genre: string, style: string, api: DalleApi)
    ensures TagsPanel(GuardedPictureBookSender(genre, style, api), panels)
  {
  }

  /** No two panels share a number (an absent number counts as one value). */
  ghost predicate DistinctNumbers(panels: seq<Panel>) {
    forall i, j :: 0 <= i < |panels| && 0 <= j < |panels| && i != j ==> panels[i].number != panels[j].number
  }

  /** The whole run up to the renderer call, with `send` as each panel's
      request worker: the request body it hands the renderer, or why it
      failed. */
  function PictureBookRunWith(req: GenerationRequest, narrative: Result<Narrative>, send: Sender, fetch: ImageFetch,
                              requestOrder: Scheduler, downloadOrder: Scheduler): (r: Result<RenderRequest>)
    requires IsScheduler(requestOrder) && IsScheduler(downloadOrder)
    ensures narrative.Err? ==> r == Err(narrative.error)
    ensures narrative.Ok? && PanelsOf(narrative.value) == [] ==> r == Err(EmptyNarrative)
    ensures narrative.Ok? && req.panelNum != 1 && |PanelsOf(narrative.value)| < 2 ==> r.Err?
    ensures r.Ok? ==> forall i :: 0 <= i < |PanelsOf(narrative.value)| ==> send(PanelsOf(narrative.value)[i]).Returned?
    ensures r.Ok? ==> r.value.userId == UserId && !r.value.isComic && r.value.content.PictureBook?
  {
    match narrative
    case Err(e) => Err(e)
    case Ok(n) =>
      var panels := PanelsOf(n);
      if |panels| == 0 then Err(EmptyNarrative)
      else
        RequestStageMeaning(panels, send, requestOrder);
        match RequestStage(panels, send, requestOrder)
        case Err(e) => Err(e)
        case Ok(results) =>
          var images := Images(DownloadArrivals(results, fetch, downloadOrder));
          match ShapePage(req.panelNum, panels, images)
          case Err(e) => Err(e)
          case Ok(page) => Ok(HtmlRequest(false, PictureBook(page)))
  }

  /** The run as the code does it: a panel without a scene or a character
      fails it. */
  function PictureBookRun(req: GenerationRequest, narrative: Result<Narrative>, api: DalleApi, fetch: ImageFetch,
                          requestOrder: Scheduler, downloadOrder: Scheduler): (r: Result<RenderRequest>)
    requires IsScheduler(requestOrder) && IsScheduler(downloadOrder)
    ensures narrative.Err? ==> r == Err(narrative.error)
    ensures narrative.Ok? && PanelsOf(narrative.value) == [] ==> r == Err(EmptyNarrative)
    ensures narrative.Ok? && req.panelNum != 1 && |PanelsOf(narrative.value)| < 2 ==> r.Err?
    ensures r.Ok? ==> forall i :: 0 <= i < |PanelsOf(narrative.value)| ==>
      PanelsOf(narrative.value)[i].scene.Some? && PanelsOf(narrative.value)[i].character.Some?
    ensures r.Ok? ==> r.value.userId == UserId && !r.value.isComic && r.value.content.PictureBook?
  {
    PictureBookRunWith(req, narrative, PictureBookSender(req.genre, req.style, api), fetch, requestOrder, downloadOrder)
  }

  /** The run with the corrected worker, which returns a missing key as the
      panel's failure instead of raising it. */
  function GuardedPictureBookRun(req: GenerationRequest, narrative: Result<Narrative>, api: DalleApi,
                                 fetch: ImageFetch, requestOrder: Scheduler, downloadOrder: Scheduler)
    : (r: Result<RenderRequest>)
    requires IsScheduler(requestOrder) && IsScheduler(downloadOrder)
    ensures narrative.Err? ==> r == Err(narrative.error)
    ensures narrative.Ok? && PanelsOf(narrative.value) == [] ==> r == Err(EmptyNarrative)
    ensures r.Ok? ==> r.value.userId == UserId && !r.value.isComic && r.value.content.PictureBook?
  {
    PictureBookRunWith(req, narrative, GuardedPictureBookSender(req.genre, req.style, api), fetch,
                       requestOrder, downloadOrder)
  }

  /** `generate_ehon` (app/api/endpoints/ehon.py:10-80): the narrative is the
      text-generation call's outcome, and the two schedulers give the
      completion order of the two parallel stages. Every failure becomes the
      run's error (HTTP 500). */
  method GeneratePictureBook(req: GenerationRequest, narrative: Result<Narrative>, api: DalleApi, fetch: ImageFetch,
                             render: Renderer, requestOrder: Scheduler, downloadOrder: Scheduler)
    returns (html: Result<string>)
    requires IsScheduler(requestOrder) && IsScheduler(downloadOrder)
    ensures html == match PictureBookRun(req, narrative, api, fetch, requestOrder, downloadOrder)
                    case Err(e) => Err(e)
                    case Ok(body) => render(body)
  {
    if narrative.Err? {
      return Err(narrative.error);
    }
    var panels := PanelsOf(narrative.value);
    if |panels| == 0 {
      return Err(EmptyNarrative);
    }
    var send := PictureBookSender(req.genre, req.style, api);
    var requests := Map(send, panels);
    var collected := CollectSuccesses(requests, requestOrder(|requests|));
    if collected.Err? {
      return Err(collected.error);
    }
    var downloads := Downloads(collected.value, fetch);
    var images := CollectImages(downloads, downloadOrder(|downloads|));
    var page := ShapePage(req.panelNum, panels, images);
    if page.Err? {
      return Err(page.error);
    }
    html := render(HtmlRequest(false, PictureBook(page.value)));
  }

  /** Panels that can be prompted: the picture-book worker does not raise on them. */
  predicate Promptable(panels: seq<Panel>) {
    forall i :: 0 <= i < |panels| ==> panels[i].scene.Some? && panels[i].character.Some?
  }

  /** The page's shape demands nothing of the images, only of the panels. */
  predicate Shapeable(panelNum: int, panels: seq<Panel>) {
    if panelNum == 1 then |panels| > 0 && panels[0].number.Some?
    else AllNumbered(panels) && |panels| >= 2
  }

  /** Whatever the worker, the run reaches the renderer exactly when the
      narrative came back with panels, no worker raised and the panels admit
      the page's shape; a failed request or download never fails the run. */
  lemma PictureBookRunWithSucceeds(req: GenerationRequest, narrative: Result<Narrative>, send: Sender,
                                   fetch: ImageFetch, requestOrder: Scheduler, downloadOrder: Scheduler)
    requires IsScheduler(requestOrder) && IsScheduler(downloadOrder)
    ensures PictureBookRunWith(req, narrative, send, fetch, requestOrder, downloadOrder).Ok? <==>
      narrative.Ok? && |PanelsOf(narrative.value)| > 0 &&
      (forall i :: 0 <= i < |PanelsOf(narrative.value)| ==> send(PanelsOf(narrative.value)[i]).Returned?) &&
      Shapeable(req.panelNum, PanelsOf(narrative.value))
  {
    if narrative.Ok? {
      RequestStageMeaning(PanelsOf(narrative.value), send, requestOrder);
    }
  }

  /** As the code runs: the run reaches the renderer exactly when the
      narrative came back with panels, every panel has a scene and a
      character, and the panels admit the page's shape. */
  lemma PictureBookRunSucceeds(req: GenerationRequest, narrative: Result<Narrative>, api: DalleApi, fetch: ImageFetch,
                               requestOrder: Scheduler, downloadOrder: Scheduler)
    requires IsScheduler(requestOrder) && IsScheduler(downloadOrder)
    ensures PictureBookRun(req, narrative, api, fetch, requestOrder, downloadOrder).Ok? <==>
      narrative.Ok? && |PanelsOf(narrative.value)| > 0 && Promptable(PanelsOf(narrative.value)) &&
      Shapeable(req.panelNum, PanelsOf(narrative.value))
  {
    var send := PictureBookSender(req.genre, req.style, api);
    PictureBookRunWithSucceeds(req, narrative, send, fetch, requestOrder, downloadOrder);
    if narrative.Ok? {
      var panels := PanelsOf(narrative.value);
      assert (forall i :: 0 <= i < |panels| ==> send(panels[i]).Returned?) <==> Promptable(panels);
    }
  }

  /** With the corrected worker no panel's content can fail the run: it
      reaches the renderer exactly when the narrative came back with panels
      that admit the page's shape. */
  lemma GuardedPictureBookRunSucceeds(req: GenerationRequest, narrative: Result<Narrative>, api: DalleApi,
                                      fetch: ImageFetch, requestOrder: Scheduler, downloadOrder: Scheduler)
    requires IsScheduler(requestOrder) && IsScheduler(downloadOrder)
    ensures GuardedPictureBookRun(req, narrative, api, fetch, requestOrder, downloadOrder).Ok? <==>
      narrative.Ok? && |PanelsOf(narrative.value)| > 0 && Shapeable(req.panelNum, PanelsOf(narrative.value))
  {
    var send := GuardedPictureBookSender(req.genre, req.style, api);
    PictureBookRunWithSucceeds(req, narrative, send, fetch, requestOrder, downloadOrder);
  }

  /** The discrepancy: a single panel without a scene or a character fails
      the run as written, while the corrected run succeeds on the same input. */
  lemma UnpromptablePanelFailsRun(req: GenerationRequest, narrative: Result<Narrative>, api: DalleApi,
                                  fetch: ImageFetch, requestOrder: Scheduler, downloadOrder: Scheduler, i: nat)
    requires IsScheduler(requestOrder) && IsScheduler(downloadOrder)
    requires narrative.Ok? && i < |PanelsOf(narrative.value)| && Shapeable(req.panelNum, PanelsOf(narrative.value))
    requires PanelsOf(narrative.value)[i].scene.None? || PanelsOf(narrative.value)[i].character.None?
    ensures PictureBookRun(req, narrative, api, fetch, requestOrder, downloadOrder).Err?
    ensures GuardedPictureBookRun(req, narrative, api, fetch, requestOrder, downloadOrder).Ok?
  {
    PictureBookRunSucceeds(req, narrative, api, fetch, requestOrder, downloadOrder);
    GuardedPictureBookRunSucceeds(req, narrative, api, fetch, requestOrder, downloadOrder);
  }

  /** The table's keys are exactly the numbers of the panels that delivered an
      image, whatever the two completion orders. */
  lemma PictureBookImageKeys(panels: seq<Panel>, send: Sender, fetch: ImageFetch,
                             requestOrder: Scheduler, downloadOrder: Scheduler, k: Option<int>)
    requires IsScheduler(requestOrder) && IsScheduler(downloadOrder) && TagsPanel(send, panels)
    requires RequestStage(panels, send, requestOrder).Ok?
    ensures k in Images(DownloadArrivals(RequestStage(panels, send, requestOrder).value, fetch, downloadOrder)) <==>
      exists i :: 0 <= i < |panels| && panels[i].number == k && Delivered(send(panels[i]), fetch).Some?
  {
    var arrivals := DownloadArrivals(RequestStage(panels, send, requestOrder).value, fetch, downloadOrder);
    ImagesKeys(arrivals, k);
    if k in Images(arrivals) {
      var j :| 0 <= j < |arrivals| && Succeeded(arrivals[j]) && arrivals[j].panel.number == k;
      DownloadArrivalMembers(panels, send, fetch, requestOrder, downloadOrder, arrivals[j]);
      var i :| 0 <= i < |panels| && Delivered(send(panels[i]), fetch).Some?
               && arrivals[j] == Returned(panels[i], Ok(Delivered(send(panels[i]), fetch).value));
      assert panels[i].number == k;
    }
    if exists i :: 0 <= i < |panels| && panels[i].number == k && Delivered(send(panels[i]), fetch).Some? {
      var i :| 0 <= i < |panels| && panels[i].number == k && Delivered(send(panels[i]), fetch).Some?;
      var y := Returned(panels[i], Ok(Delivered(send(panels[i]), fetch).value));
      DownloadArrivalMembers(panels, send, fetch, requestOrder, downloadOrder, y);
      var j :| 0 <= j < |arrivals| && arrivals[j] == y;
      assert Succeeded(arrivals[j]) && arrivals[j].panel.number == k;
    }
  }

  /** When no two panels share a number, each panel's number looks up exactly
      its own image, or nothing when its request or download failed: one
      panel's failure does not touch the others. */
  lemma PictureBookImageValues(panels: seq<Panel>, send: Sender, fetch: ImageFetch,
                               requestOrder: Scheduler, downloadOrder: Scheduler)
    requires IsScheduler(requestOrder) && IsScheduler(downloadOrder) && TagsPanel(send, panels)
    requires RequestStage(panels, send, requestOrder).Ok?
    requires DistinctNumbers(panels)
    ensures var images := Images(DownloadArrivals(RequestStage(panels, send, requestOrder).value, fetch, downloadOrder));
      forall i :: 0 <= i < |panels| ==> Lookup(images, panels[i].number) == Delivered(send(panels[i]), fetch).GetOr("")
  {
    var arrivals := DownloadArrivals(RequestStage(panels, send, requestOrder).value, fetch, downloadOrder);
    var images := Images(arrivals);
    assert Consistent(arrivals) by {
      forall x, y | x in arrivals && y in arrivals && Succeeded(x) && Succeeded(y) && x.panel.number == y.panel.number
        ensures x.result.value == y.result.value
      {
        DownloadArrivalMembers(panels, send, fetch, requestOrder, downloadOrder, x);
        DownloadArrivalMembers(panels, send, fetch, requestOrder, downloadOrder, y);
        var i :| 0 <= i < |panels| && Delivered(send(panels[i]), fetch).Some?
                 && x == Returned(panels[i], Ok(Delivered(send(panels[i]), fetch).value));
        var j :| 0 <= j < |panels| && Delivered(send(panels[j]), fetch).Some?
                 && y == Returned(panels[j], Ok(Delivered(send(panels[j]), fetch).value));
        assert panels[i].number == panels[j].number;
        assert i == j;
      }
    }
    forall i | 0 <= i < |panels|
      ensures Lookup(images, panels[i].number) == Delivered(send(panels[i]), fetch).GetOr("")
    {
      var image := Delivered(send(panels[i]), fetch);
      if image.Some? {
        var y := Returned(panels[i], Ok(image.value));
        DownloadArrivalMembers(panels, send, fetch, requestOrder, downloadOrder, y);
        ImagesValue(arrivals, y);
      } else {
        PictureBookImageKeys(panels, send, fetch, requestOrder, downloadOrder, panels[i].number);
      }
    }
  }

  /** What the renderer is handed, panel by panel, when no two panels share a
      number: one page repeats the first panel's own image; otherwise the two
      slots hold the images of the two lowest-numbered panels (empty for a
      panel whose image failed) and the text is every narration in number
      order, one per line. */
  lemma PictureBookPageContent(req: GenerationRequest, narrative: Result<Narrative>, send: Sender, fetch: ImageFetch,
                               requestOrder: Scheduler, downloadOrder: Scheduler)
    requires IsScheduler(requestOrder) && IsScheduler(downloadOrder)
    requires PictureBookRunWith(req, narrative, send, fetch, requestOrder, downloadOrder).Ok?
    requires TagsPanel(send, PanelsOf(narrative.value)) && DistinctNumbers(PanelsOf(narrative.value))
    ensures var page := PictureBookRunWith(req, narrative, send, fetch, requestOrder, downloadOrder).value.content.page;
      var panels := PanelsOf(narrative.value);
      |panels| > 0 &&
      (req.panelNum == 1 ==>
        page.imgSrc1 == Delivered(send(panels[0]), fetch).GetOr("") &&
        page.imgSrc2 == page.imgSrc1 && page.text == NarrationOf(panels[0])) &&
      (req.panelNum != 1 ==>
        AllNumbered(panels) && |panels| >= 2 &&
        var sorted := SortByNumber(panels);
        page.imgSrc1 == Delivered(send(sorted[0]), fetch).GetOr("") &&
        page.imgSrc2 == Delivered(send(sorted[1]), fetch).GetOr("") &&
        page.text == Join('\n', Map(NarrationOf, sorted)))
  {
    var panels := PanelsOf(narrative.value);
    PictureBookImageValues(panels, send, fetch, requestOrder, downloadOrder);
    if req.panelNum != 1 {
      var sorted := SortByNumber(panels);
      assert sorted[0] in multiset(panels) && sorted[1] in multiset(panels);
    }
  }

  /** The two completion orders decide nothing when no two panels share a
      number: any two pairs of schedulers give the same request to the
      renderer, and fail or succeed together. */
  lemma PictureBookOrderIndependent(req: GenerationRequest, narrative: Result<Narrative>, send: Sender,
                                    fetch: ImageFetch, r1: Scheduler, d1: Scheduler, r2: Scheduler, d2: Scheduler)
    requires IsScheduler(r1) && IsScheduler(d1) && IsScheduler(r2) && IsScheduler(d2)
    requires narrative.Ok? ==> TagsPanel(send, PanelsOf(narrative.value)) && DistinctNumbers(PanelsOf(narrative.value))
    ensures PictureBookRunWith(req, narrative, send, fetch, r1, d1).Ok? <==>
            PictureBookRunWith(req, narrative, send, fetch, r2, d2).Ok?
    ensures PictureBookRunWith(req, narrative, send, fetch, r1, d1).Ok? ==>
            PictureBookRunWith(req, narrative, send, fetch, r1, d1) ==
            PictureBookRunWith(req, narrative, send, fetch, r2, d2)
  {
    PictureBookRunWithSucceeds(req, narrative, send, fetch, r1, d1);
    PictureBookRunWithSucceeds(req, narrative, send, fetch, r2, d2);
    if PictureBookRunWith(req, narrative, send, fetch, r1, d1).Ok? {
      PictureBookPageContent(req, narrative, send, fetch, r1, d1);
      PictureBookPageContent(req, narrative, send, fetch, r2, d2);
    }
  }

  /** With two or more pages, the text is one line per panel: splitting it at
      newlines gives back every narration, lowest number first (when no
      narration itself holds a newline). */
  lemma PictureBookTextLines(req: GenerationRequest, narrative: Result<Narrative>, send: Sender, fetch: ImageFetch,
                             requestOrder: Scheduler, downloadOrder: Scheduler)
    requires IsScheduler(requestOrder) && IsScheduler(downloadOrder)
    requires PictureBookRunWith(req, narrative, send, fetch, requestOrder, downloadOrder).Ok? && req.panelNum != 1
    requires forall i :: 0 <= i < |PanelsOf(narrative.value)| ==> '\n' !in NarrationOf(PanelsOf(narrative.value)[i])
    ensures AllNumbered(PanelsOf(narrative.value)) &&
      Split('\n', PictureBookRunWith(req, narrative, send, fetch, requestOrder, downloadOrder).value.content.page.text) ==
      Map(NarrationOf, SortByNumber(PanelsOf(narrative.value)))
  {
    var panels := PanelsOf(narrative.value);
    PictureBookRunWithSucceeds(req, narrative, send, fetch, requestOrder, downloadOrder);
    var sorted := SortByNumber(panels);
    var lines := Map(NarrationOf, sorted);
    forall k | 0 <= k < |lines| ensures '\n' !in lines[k] {
      assert sorted[k] in multiset(panels);
    }
    SplitJoin('\n', lines);
  }
}
