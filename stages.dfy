/** The two parallel stages as both pipelines run them: one request per panel,
    then one download per kept `(panel, response)` pair, each stage read in its
    own completion order. */
module Stages {
  import opened Outcomes
  import opened Panels
  import opened FanIn
  import opened Dalle

  /** A per-panel request worker: the prompt and payload are fixed by the mode. */
  type Sender = Panel -> Completion<DalleResponse>

  /** The worker hands back the very panel it was given. */
  ghost predicate TagsPanel(send: Sender, panels: seq<Panel>) {
    forall i :: 0 <= i < |panels| && send(panels[i]).Returned? ==> send(panels[i]).panel == panels[i]
  }

  /** The second stage's work list: `download_image(panel, result)` for each kept pair. */
  function Downloads(results: seq<(Panel, DalleResponse)>, fetch: ImageFetch): seq<Completion<string>> {
    Map((x: (Panel, DalleResponse)) => DownloadImage(x.0, x.1, fetch), results)
  }

  /** Reference definition, one panel at a time: the image a panel ends up
      with when its request completed as `c`. */
  function Delivered(c: Completion<DalleResponse>, fetch: ImageFetch): Option<string> {
    if Succeeded(c) then
      var d := DownloadImage(c.panel, c.result.value, fetch);
      if d.result.Ok? then Some(d.result.value) else None
    else None
  }

  /** The first stage: every panel's request, collected in completion order. */
  function RequestStage(panels: seq<Panel>, send: Sender, order: Scheduler): Result<seq<(Panel, DalleResponse)>>
    requires IsScheduler(order)
  {
    var requests := Map(send, panels);
    PermutationCovers(order(|requests|), |requests|);
    Gathered(Arrivals(requests, order(|requests|)))
  }

  /** The second stage's completions, in completion order. */
  function DownloadArrivals(results: seq<(Panel, DalleResponse)>, fetch: ImageFetch, order: Scheduler): seq<Completion<string>>
    requires IsScheduler(order)
  {
    var downloads := Downloads(results, fetch);
    PermutationCovers(order(|downloads|), |downloads|);
    Arrivals(downloads, order(|downloads|))
  }

  /** The first stage fails exactly when some worker raised; otherwise it
      keeps, in some order, exactly the successful pairs. */
  lemma RequestStageMeaning(panels: seq<Panel>, send: Sender, order: Scheduler)
    requires IsScheduler(order)
    ensures RequestStage(panels, send, order).Ok? <==> forall i :: 0 <= i < |panels| ==> send(panels[i]).Returned?
    ensures RequestStage(panels, send, order).Ok? ==>
      multiset(RequestStage(panels, send, order).value) == multiset(Successes(Map(send, panels)))
  {
    var requests := Map(send, panels);
    ArrivalsPermutation(requests, order(|requests|));
    var arrivals := Arrivals(requests, order(|requests|));
    GatheredMeaning(arrivals);
    NoneRaisedReorder(arrivals, requests);
    CollectedReorder(SuccessOf, arrivals, requests);
  }

  lemma SuccessesMembership<T>(a: seq<Completion<T>>, x: (Panel, T))
    ensures x in Successes(a) <==> Returned(x.0, Ok(x.1)) in a
  {
    CollectedMembership(SuccessOf, a, x);
    if Returned(x.0, Ok(x.1)) in a {
      var i :| 0 <= i < |a| && a[i] == Returned(x.0, Ok(x.1));
      assert x in SuccessOf(a[i]);
    }
  }

  /** A kept pair comes from a panel whose request succeeded, and every such
      panel's pair is kept. */
  lemma RequestStageMembers(panels: seq<Panel>, send: Sender, order: Scheduler, x: (Panel, DalleResponse))
    requires IsScheduler(order) && TagsPanel(send, panels)
    requires RequestStage(panels, send, order).Ok?
    ensures x in RequestStage(panels, send, order).value <==>
      exists i :: 0 <= i < |panels| && send(panels[i]) == Returned(panels[i], Ok(x.1)) && x.0 == panels[i]
  {
    var requests := Map(send, panels);
    var results := RequestStage(panels, send, order).value;
    RequestStageMeaning(panels, send, order);
    assert x in results <==> x in multiset(Successes(requests));
    SuccessesMembership(requests, x);
    if Returned(x.0, Ok(x.1)) in requests {
      var i :| 0 <= i < |requests| && requests[i] == Returned(x.0, Ok(x.1));
      assert send(panels[i]) == Returned(panels[i], Ok(x.1)) && x.0 == panels[i];
    }
    if exists i :: 0 <= i < |panels| && send(panels[i]) == Returned(panels[i], Ok(x.1)) && x.0 == panels[i] {
      var i :| 0 <= i < |panels| && send(panels[i]) == Returned(panels[i], Ok(x.1)) && x.0 == panels[i];
      assert requests[i] == Returned(x.0, Ok(x.1));
    }
  }

  /** Fault isolation across both stages: whatever the two completion orders,
      a successful download that arrives is exactly the delivered image of one
      of the panels, and every panel that delivers an image has it arrive. */
  lemma DownloadArrivalMembers(panels: seq<Panel>, send: Sender, fetch: ImageFetch,
                               requestOrder: Scheduler, downloadOrder: Scheduler, y: Completion<string>)
    requires IsScheduler(requestOrder) && IsScheduler(downloadOrder) && TagsPanel(send, panels)
    requires RequestStage(panels, send, requestOrder).Ok?
    ensures var arrivals := DownloadArrivals(RequestStage(panels, send, requestOrder).value, fetch, downloadOrder);
      (y in arrivals && Succeeded(y)) <==>
      exists i :: 0 <= i < |panels| && Delivered(send(panels[i]), fetch).Some?
               && y == Returned(panels[i], Ok(Delivered(send(panels[i]), fetch).value))
  {
    var results := RequestStage(panels, send, requestOrder).value;
    var downloads := Downloads(results, fetch);
    var arrivals := DownloadArrivals(results, fetch, downloadOrder);
    ArrivalsPermutation(downloads, downloadOrder(|downloads|));
    assert y in arrivals <==> y in multiset(downloads);
    if y in arrivals && Succeeded(y) {
      var j :| 0 <= j < |downloads| && downloads[j] == y;
      var x := results[j];
      RequestStageMembers(panels, send, requestOrder, x);
      var i :| 0 <= i < |panels| && send(panels[i]) == Returned(panels[i], Ok(x.1)) && x.0 == panels[i];
      assert Delivered(send(panels[i]), fetch) == Some(y.result.value);
    }
    if exists i :: 0 <= i < |panels| && Delivered(send(panels[i]), fetch).Some?
               && y == Returned(panels[i], Ok(Delivered(send(panels[i]), fetch).value)) {
      var i :| 0 <= i < |panels| && Delivered(send(panels[i]), fetch).Some?
               && y == Returned(panels[i], Ok(Delivered(send(panels[i]), fetch).value));
      var x := (panels[i], send(panels[i]).result.value);
      RequestStageMembers(panels, send, requestOrder, x);
      var j :| 0 <= j < |results| && results[j] == x;
      assert downloads[j] == y;
    }
  }
}
