/** Running the fixed prompt suite against one model (`ollama-benchmark.py`). */
module Benchmark {
  import opened Wrappers

  /** One benchmark item: a test name and its prompt. */
  datatype PromptItem = PromptItem(name: string, prompt: string)

  const BENCHMARK_PROMPTS: seq<PromptItem> := [
    PromptItem("greeting", "你好，請以繁體中文簡單自我介紹。"),
    PromptItem("reasoning", "如果一個房間裡有 3 個人，每個人各養 2 隻貓，請問房間裡總共有幾隻腳？請說明理由。"),
    PromptItem("coding", "請用 Python 寫一個函式，判斷一個數字是否為質數。"),
    PromptItem("expression", "請用繁體中文解釋什麼是 RESTful API，對象是假設完全沒有技術背景的人。")
  ]

  // ---- get_available_models ----

  /** One entry of the installed-model list (`GET /api/tags`); `name` is
      `None` when the entry has no "name" key. */
  datatype Tag = Tag(name: Option<string>)

  /** `[m["name"] for m in data.get("models", [])]`: the names in server
      order; no "models" key gives no names, and an entry without a name
      fails the whole call (`None`, the `KeyError`). */
  function AvailableModels(models: Option<seq<Tag>>): (names: Option<seq<string>>)
    ensures models.None? ==> names == Some([])
    ensures models.Some? ==>
              (names.Some? <==> forall k :: 0 <= k < |models.value| ==> models.value[k].name.Some?)
    ensures models.Some? && names.Some? ==>
              |names.value| == |models.value|
              && forall k :: 0 <= k < |names.value| ==> Some(names.value[k]) == models.value[k].name
  {
    match models
    case None => Some([])
    case Some(tags) => TagNames(tags)
  }

  function TagNames(tags: seq<Tag>): (names: Option<seq<string>>)
    ensures names.Some? <==> forall k :: 0 <= k < |tags| ==> tags[k].name.Some?
    ensures names.Some? ==> |names.value| == |tags|
                            && forall k :: 0 <= k < |tags| ==> Some(names.value[k]) == tags[k].name
  {
    if tags == [] then Some([])
    else
      var rest := TagNames(tags[1..]);
      assert forall k :: 1 <= k < |tags| ==> tags[k] == tags[1..][k - 1];
      if tags[0].name.Some? && rest.Some? then Some([tags[0].name.value] + rest.value)
      else None
  }

  // ---- ollama_generate ----

  /** What one non-streaming generation request came back with: an exception
      (transport failure, HTTP error status, undecodable body) with its text,
      or the body's "response" value (`""` when absent) and the elapsed time
      in milliseconds (`round(seconds, 3)`). */
  datatype Exchange = Failed(error: string) | Answered(response: string, latencyMs: nat)

  /** The dictionary `ollama_generate` returns. */
  datatype Generated = Generated(response: string, latencyMs: nat, length: nat)

  function OllamaGenerate(x: Exchange): (r: Option<Generated>)
    ensures r.Some? <==> x.Answered?
    ensures r.Some? ==> r.value.response == x.response && r.value.latencyMs == x.latencyMs
                        && r.value.length == |r.value.response|
  {
    match x
    case Failed(_) => None
    case Answered(response, latencyMs) => Some(Generated(response, latencyMs, |response|))
  }

  // ---- run_benchmark_for_model ----

  /** One result record. */
  datatype Record = Record(test: string, prompt: string, response: string, latencyMs: Option<nat>,
                           length: nat, success: bool, error: Option<string>)

  /** The fixed shape of a record: copied from its prompt item, with the
      generation's fields on success and the failure fields otherwise. */
  predicate RecordFits(r: Record, item: PromptItem, x: Exchange) {
    && r.test == item.name && r.prompt == item.prompt
    && (r.success <==> x.Answered?)
    && (x.Answered? ==> r.response == x.response && r.latencyMs == Some(x.latencyMs)
                        && r.length == |x.response| && r.error.None?)
    && (x.Failed? ==> r.response == "" && r.latencyMs.None? && r.length == 0 && r.error == Some(x.error))
  }

  /** `run_benchmark_for_model`: one record per benchmark item, in item
      order; `exchanges[k]` is what the request for item `k` came back with,
      and a failure never stops the run. */
  method RunBenchmarkForModel(exchanges: seq<Exchange>) returns (results: seq<Record>)
    requires |exchanges| == |BENCHMARK_PROMPTS|
    ensures |results| == |BENCHMARK_PROMPTS|
    ensures forall k :: 0 <= k < |results| ==> RecordFits(results[k], BENCHMARK_PROMPTS[k], exchanges[k])
  {
    results := [];
    var k := 0;
    while k < |BENCHMARK_PROMPTS|
      invariant 0 <= k <= |BENCHMARK_PROMPTS|
      invariant |results| == k
      invariant forall j :: 0 <= j < k ==> RecordFits(results[j], BENCHMARK_PROMPTS[j], exchanges[j])
    {
      var item := BENCHMARK_PROMPTS[k];
      var result := OllamaGenerate(exchanges[k]);
      match result {
        case Some(g) =>
          results := results + [Record(item.name, item.prompt, g.response, Some(g.latencyMs), g.length, true, None)];
        case None =>
          results := results + [Record(item.name, item.prompt, "", None, 0, false, Some(exchanges[k].error))];
      }
      k := k + 1;
    }
  }
}
