/** The server's running-model list (`GET /api/ps`) as the scripts read it. */
module Registry {
  import opened Wrappers

  /** One running model. `name` and `model` are `None` when the key is
      missing; `size` and `sizeVram` hold `m.get("size", 0)` and
      `m.get("size_vram", 0)`. Keys present with a JSON null value are not
      represented. */
  datatype Entry = Entry(name: Option<string>, model: Option<string>, size: int, sizeVram: int)

  /** `m.get("name") == model or m.get("model") == model`. */
  predicate Matches(e: Entry, model: string) {
    e.name == Some(model) || e.model == Some(model)
  }

  /** The position of the first running entry that matches `model`, if any. */
  function FirstMatch(running: seq<Entry>, model: string): (r: Option<nat>)
    ensures r.Some? ==> r.value < |running| && Matches(running[r.value], model)
    ensures r.Some? ==> forall j :: 0 <= j < r.value ==> !Matches(running[j], model)
    ensures r.None? <==> forall j :: 0 <= j < |running| ==> !Matches(running[j], model)
  {
    if running == [] then None
    else if Matches(running[0], model) then Some(0)
    else match FirstMatch(running[1..], model)
         case None => None
         case Some(k) => Some(k + 1)
  }

  /** The first running entry that matches `model`, if any. */
  function TargetEntry(running: seq<Entry>, model: string): Option<Entry> {
    match FirstMatch(running, model)
    case None => None
    case Some(i) => Some(running[i])
  }

  /** Entries listed after the first match never change which entry is the target. */
  lemma FirstMatchIgnoresLater(running: seq<Entry>, later: seq<Entry>, model: string)
    requires FirstMatch(running, model).Some?
    ensures FirstMatch(running + later, model) == FirstMatch(running, model)
    ensures TargetEntry(running + later, model) == TargetEntry(running, model)
  {
    var i := FirstMatch(running, model).value;
    var all := running + later;
    assert all[i] == running[i];
    var r := FirstMatch(all, model);
    assert r.Some? && r.value <= i;
    assert forall j :: 0 <= j < i ==> all[j] == running[j];
  }

  /** The search loop `for m in running: if <match>: ...; break` shared by
      the resource report and the timeout diagnosis. */
  method FindRunning(running: seq<Entry>, model: string) returns (found: Option<nat>)
    ensures found == FirstMatch(running, model)
  {
    found := None;
    var i := 0;
    while i < |running|
      invariant 0 <= i <= |running|
      invariant forall j :: 0 <= j < i ==> !Matches(running[j], model)
    {
      if Matches(running[i], model) {
        found := Some(i);
        return;
      }
      i := i + 1;
    }
  }
}
