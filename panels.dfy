/** The records that flow through both pipelines: the inbound request, the
    narrative returned by the text-generation backend, its panels, and the
    tagged result a per-panel worker hands back to the orchestrator. */
module Panels {
  import opened Outcomes

  /** The four fields of the inbound request body. */
  datatype GenerationRequest = GenerationRequest(panelNum: int, outline: string, genre: string, style: string)

  /** One panel descriptor as parsed from the narrative JSON. Every field is
      optional because the backend's JSON may omit any key:
      `number` is `コマ番号`, `character` is `キャラクター`, `scene` is `シーン`,
      `narration` is `ナレーション` (picture-book) and `dialogue` is `セリフ` (comic). */
  datatype Panel = Panel(
    number: Option<int>,
    character: Option<string>,
    scene: Option<string>,
    narration: Option<string>,
    dialogue: Option<string>)

  /** The parsed narrative: its `panels` list and, for comics, the `genre`
      and `style` keys the backend echoes back. */
  datatype Narrative = Narrative(genre: Option<string>, style: Option<string>, panels: Option<seq<Panel>>)

  /** `narrative_dict.get("panels", [])`: an absent key reads as the empty list. */
  function PanelsOf(n: Narrative): seq<Panel> {
    n.panels.GetOr([])
  }

  /** What a worker's future yields: either the worker returned its
      `(panel, value-or-exception)` pair, or an exception escaped the worker and
      `future.result()` re-raises it in the orchestrator. */
  datatype Completion<T> = Returned(panel: Panel, result: Result<T>) | Raised(error: Error)

  /** The worker returned a success value (not an exception object). */
  predicate Succeeded<T>(c: Completion<T>) {
    c.Returned? && c.result.Ok?
  }
}
