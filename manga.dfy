/** The comic-strip pipeline, `generate_manga` (app/api/endpoints/manga.py):
    the same two parallel stages as the picture book, but every panel whose
    image arrives becomes an entry of its own, in the order the downloads
    complete, and no stage can fail the run. */
module Manga {
  import opened Outcomes
  import opened Panels
  import opened FanIn
  import opened Dalle
  import opened Stages
  import opened Render

  /** `panel.get("セリフ", "")`. */
  function DialogueOf(p: Panel): string {
    p.dialogue.GetOr("")
  }

  /** The entry the download loop appends for one completion: nothing for an
      exception object. */
  function EntryOf(c: Completion<string>): seq<ComicEntry> {
    if Succeeded(c) then [ComicEntry(c.result.value, DialogueOf(c.panel))] else []
  }

  /** `content_list` after the loop has seen the completions of `a`, in order. */
  function ComicEntries(a: seq<Completion<string>>): seq<ComicEntry> {
    Collected(EntryOf, a)
  }

  /** The download loop (app/api/endpoints/manga.py:154-169): append an entry
      for each successful download as it completes. */
  method CollectEntries(downloads: seq<Completion<string>>, order: seq<nat>) returns (entries: seq<ComicEntry>)
    requires IsPermutation(order, |downloads|)
    requires NoneRaised(downloads)
    ensures forall k :: 0 <= k < |order| ==> order[k] < |downloads|
    ensures entries == ComicEntries(Arrivals(downloads, order))
    ensures multiset(entries) == multiset(ComicEntries(downloads))
  {
    ArrivalsPermutation(downloads, order);
    ghost var arrivals := Arrivals(downloads, order);
    entries := [];
    var i := 0;
    while i < |order|
      invariant 0 <= i <= |order|
      invariant entries == ComicEntries(arrivals[..i])
    {
      var c := downloads[order[i]];
      assert arrivals[..i + 1][..i] == arrivals[..i] && arrivals[i] == c;
      if c.result.Ok? {
        entries := entries + [ComicEntry(c.result.value, DialogueOf(c.panel))];
      } else {
        assert entries + EntryOf(c) == entries;
      }
      i := i + 1;
    }
    assert arrivals[..i] == arrivals;
    CollectedReorder(EntryOf, arrivals, downloads);
  }

  /** Each panel's request worker for this mode. */
  function ComicSender(narrative: Narrative, api: DalleApi): Sender {
    p => SendComicRequest(p, narrative, api)
  }

  /** Reference definition: the entry a panel contributes on its own, if its
      request (made by `send`) and its download both succeed. */
  function PanelEntry(p: Panel, send: Sender, fetch: ImageFetch): seq<ComicEntry> {
    match Delivered(send(p), fetch)
    case None => []
    case Some(image) => [ComicEntry(image, DialogueOf(p))]
  }

  /** The whole run up to the renderer call. */
  function ComicRun(narrative: Result<Narrative>, api: DalleApi, fetch: ImageFetch,
                    requestOrder: Scheduler, downloadOrder: Scheduler): (r: Result<RenderRequest>)
    requires IsScheduler(requestOrder) && IsScheduler(downloadOrder)
    ensures narrative.Err? ==> r == Err(narrative.error)
    ensures narrative.Ok? && PanelsOf(narrative.value) == [] ==> r == Err(EmptyNarrative)
    ensures r.Ok? <==> narrative.Ok? && |PanelsOf(narrative.value)| > 0
    ensures r.Ok? ==> r.value.userId == UserId && r.value.isComic && r.value.content.Comic?
  {
    match narrative
    case Err(e) => Err(e)
    case Ok(n) =>
      var panels := PanelsOf(n);
      if |panels| == 0 then Err(EmptyNarrative)
      else
        var send := ComicSender(n, api);
        RequestStageMeaning(panels, send, requestOrder);
        match RequestStage(panels, send, requestOrder)
        case Err(e) => Err(e)
        case Ok(results) =>
          Ok(HtmlRequest(true, Comic(ComicEntries(DownloadArrivals(results, fetch, downloadOrder)))))
  }

  /** `generate_manga` (app/api/endpoints/manga.py:117-175): the narrative is
      the text-generation call's outcome, and the two schedulers give the
      completion order of the two parallel stages. */
  method GenerateComic(narrative: Result<Narrative>, api: DalleApi, fetch: ImageFetch, render: Renderer,
                       requestOrder: Scheduler, downloadOrder: Scheduler)
    returns (html: Result<string>)
    requires IsScheduler(requestOrder) && IsScheduler(downloadOrder)
    ensures html == match ComicRun(narrative, api, fetch, requestOrder, downloadOrder)
                    case Err(e) => Err(e)
                    case Ok(body) => render(body)
  {
    if narrative.Err? {
      return Err(narrative.error);
    }
    var panels := PanelsOf(narrative.value);
    if |panels| == 0 {
      return Err(EmptyNarrative);
    }
    var requests := Map(ComicSender(narrative.value, api), panels);
    var collected := CollectSuccesses(requests, requestOrder(|requests|));
    if collected.Err? {
      return Err(collected.error);
    }
    var downloads := Downloads(collected.value, fetch);
    var entries := CollectEntries(downloads, downloadOrder(|downloads|));
    html := render(HtmlRequest(true, Comic(entries)));
  }

  /** The entry one kept `(panel, response)` pair ends up as. */
  function PairEntry(fetch: ImageFetch): ((Panel, DalleResponse)) -> seq<ComicEntry> {
    (x: (Panel, DalleResponse)) => EntryOf(DownloadImage(x.0, x.1, fetch))
  }

  /** `PanelEntry` as a function of the panel alone. */
  function PanelEntries(send: Sender, fetch: ImageFetch): Panel -> seq<ComicEntry> {
    p => PanelEntry(p, send, fetch)
  }

  lemma {:induction false} DownloadsEntries(results: seq<(Panel, DalleResponse)>, fetch: ImageFetch)
    ensures ComicEntries(Downloads(results, fetch)) == Collected(PairEntry(fetch), results)
    decreases |results|
  {
    if results != [] {
      var last := |results| - 1;
      assert Downloads(results, fetch)[..last] == Downloads(results[..last], fetch);
      DownloadsEntries(results[..last], fetch);
    }
  }

  lemma {:induction false} SuccessEntries(panels: seq<Panel>, send: Sender, fetch: ImageFetch)
    requires TagsPanel(send, panels)
    ensures Collected(PairEntry(fetch), Successes(Map(send, panels))) == Collected(PanelEntries(send, fetch), panels)
    decreases |panels|
  {
    if panels != [] {
      var last := |panels| - 1;
      var c := send(panels[last]);
      assert Map(send, panels)[..last] == Map(send, panels[..last]);
      SuccessEntries(panels[..last], send, fetch);
      CollectedAppend(PairEntry(fetch), Successes(Map(send, panels[..last])), SuccessOf(c));
      if Succeeded(c) {
        CollectedSingle(PairEntry(fetch), (c.panel, c.result.value));
      }
    }
  }

  /** Whatever the two completion orders, the entries are, up to order,
      exactly one per panel whose image arrived, carrying that image and that
      panel's dialogue. */
  lemma ComicEntriesExact(narrative: Narrative, api: DalleApi, fetch: ImageFetch,
                          requestOrder: Scheduler, downloadOrder: Scheduler)
    requires IsScheduler(requestOrder) && IsScheduler(downloadOrder)
    requires |PanelsOf(narrative)| > 0
    ensures multiset(ComicRun(Ok(narrative), api, fetch, requestOrder, downloadOrder).value.content.entries) ==
            multiset(Collected(PanelEntries(ComicSender(narrative, api), fetch), PanelsOf(narrative)))
  {
    var panels := PanelsOf(narrative);
    var send := ComicSender(narrative, api);
    RequestStageMeaning(panels, send, requestOrder);
    var results := RequestStage(panels, send, requestOrder).value;
    var downloads := Downloads(results, fetch);
    var arrivals := DownloadArrivals(results, fetch, downloadOrder);
    assert ComicRun(Ok(narrative), api, fetch, requestOrder, downloadOrder).value.content.entries ==
           ComicEntries(arrivals);
    ArrivalsPermutation(downloads, downloadOrder(|downloads|));
    CollectedReorder(EntryOf, arrivals, downloads);
    DownloadsEntries(results, fetch);
    CollectedReorder(PairEntry(fetch), results, Successes(Map(send, panels)));
    SuccessEntries(panels, send, fetch);
  }

  /** Two runs on different completion orders hand the renderer the same
      entries, possibly in another order. */
  lemma ComicOrderIndependent(narrative: Narrative, api: DalleApi, fetch: ImageFetch,
                              r1: Scheduler, d1: Scheduler, r2: Scheduler, d2: Scheduler)
    requires IsScheduler(r1) && IsScheduler(d1) && IsScheduler(r2) && IsScheduler(d2)
    requires |PanelsOf(narrative)| > 0
    ensures multiset(ComicRun(Ok(narrative), api, fetch, r1, d1).value.content.entries) ==
            multiset(ComicRun(Ok(narrative), api, fetch, r2, d2).value.content.entries)
  {
    ComicEntriesExact(narrative, api, fetch, r1, d1);
    ComicEntriesExact(narrative, api, fetch, r2, d2);
  }

  lemma {:induction false} CollectedAtMostOnePer<T, U>(keep: T -> seq<U>, a: seq<T>)
    requires forall i :: 0 <= i < |a| ==> |keep(a[i])| <= 1
    ensures |Collected(keep, a)| <= |a|
    decreases |a|
  {
    if a != [] {
      CollectedAtMostOnePer(keep, a[..|a| - 1]);
    }
  }

  lemma CollectedMultisetMembers<T, U>(entries: seq<U>, keep: T -> seq<U>, s: seq<T>, e: U)
    requires multiset(entries) == multiset(Collected(keep, s))
    ensures e in entries <==> exists i :: 0 <= i < |s| && e in keep(s[i])
  {
    assert e in entries <==> e in multiset(Collected(keep, s));
    CollectedMembership(keep, s, e);
  }

  lemma PanelEntryMembers(p: Panel, send: Sender, fetch: ImageFetch, e: ComicEntry)
    ensures e in PanelEntry(p, send, fetch) <==>
      Delivered(send(p), fetch) == Some(e.imgSrc) && e.text == DialogueOf(p)
  {
  }

  /** A multiset of entries equal to the panels' own entries has at most one
      per panel. */
  lemma EntriesBound(entries: seq<ComicEntry>, panels: seq<Panel>, send: Sender, fetch: ImageFetch)
    requires multiset(entries) == multiset(Collected(PanelEntries(send, fetch), panels))
    ensures |entries| <= |panels|
  {
    var keep := PanelEntries(send, fetch);
    CollectedAtMostOnePer(keep, panels);
    assert |entries| == |multiset(entries)|;
    assert |Collected(keep, panels)| == |multiset(Collected(keep, panels))|;
  }

  /** ... and holds an entry exactly when some panel delivered that image and
      has that dialogue. */
  lemma EntriesFromPanels(entries: seq<ComicEntry>, panels: seq<Panel>, send: Sender, fetch: ImageFetch,
                          e: ComicEntry)
    requires multiset(entries) == multiset(Collected(PanelEntries(send, fetch), panels))
    ensures e in entries <==>
      exists i :: 0 <= i < |panels| && Delivered(send(panels[i]), fetch) == Some(e.imgSrc) &&
        e.text == DialogueOf(panels[i])
  {
    var keep := PanelEntries(send, fetch);
    CollectedMultisetMembers(entries, keep, panels, e);
    if e in entries {
      var i :| 0 <= i < |panels| && e in keep(panels[i]);
      PanelEntryMembers(panels[i], send, fetch, e);
    }
    if exists i :: 0 <= i < |panels| && Delivered(send(panels[i]), fetch) == Some(e.imgSrc) &&
        e.text == DialogueOf(panels[i]) {
      var i :| 0 <= i < |panels| && Delivered(send(panels[i]), fetch) == Some(e.imgSrc) &&
        e.text == DialogueOf(panels[i]);
      PanelEntryMembers(panels[i], send, fetch, e);
    }
  }

  /** The strip has at most one entry per panel, and an entry is there
      exactly when some panel delivered that image and has that dialogue. */
  lemma ComicEntriesMembers(narrative: Narrative, api: DalleApi, fetch: ImageFetch,
                            requestOrder: Scheduler, downloadOrder: Scheduler, e: ComicEntry)
    requires IsScheduler(requestOrder) && IsScheduler(downloadOrder)
    requires |PanelsOf(narrative)| > 0
    ensures var entries := ComicRun(Ok(narrative), api, fetch, requestOrder, downloadOrder).value.content.entries;
      |entries| <= |PanelsOf(narrative)| &&
      (e in entries <==>
        exists i :: 0 <= i < |PanelsOf(narrative)| &&
          Delivered(SendComicRequest(PanelsOf(narrative)[i], narrative, api), fetch) == Some(e.imgSrc) &&
          e.text == DialogueOf(PanelsOf(narrative)[i]))
  {
    var entries := ComicRun(Ok(narrative), api, fetch, requestOrder, downloadOrder).value.content.entries;
    ComicEntriesExact(narrative, api, fetch, requestOrder, downloadOrder);
    EntriesBound(entries, PanelsOf(narrative), ComicSender(narrative, api), fetch);
    EntriesFromPanels(entries, PanelsOf(narrative), ComicSender(narrative, api), fetch, e);
  }

  /** No comic request worker raises, so after a nonempty narrative the run
      always reaches the renderer, even if every image fails. */
  lemma ComicNeverRaises(narrative: Narrative, api: DalleApi, panels: seq<Panel>)
    ensures NoneRaised(Map(ComicSender(narrative, api), panels))
  {
  }
}
