/** Unloading every running model before the next one is tried. */
module Eviction {
  import opened Wrappers
  import opened Registry

  /** What came back from one unload request (`POST /api/chat` with `keep_alive: 0`). */
  datatype Reply =
    | NoResponse(error: string)   // the request raised before a status arrived
    | Status(code: int)           // the HTTP status of the response

  /** `unload_model`: true when a response arrived whose status is not an
      HTTP error; every failure becomes `false` instead of an exception. */
  function UnloadModel(name: string, reply: Reply): (ok: bool)
    ensures ok ==> reply.Status?
    ensures reply.Status? ==> (ok <==> !(400 <= reply.code < 600))
  {
    match reply
    case NoResponse(_) => false
    case Status(code) => !(400 <= code < 600)
  }

  /** `m.get("name", "")`. */
  function NameOf(e: Entry): string {
    e.name.GetOr("")
  }

  /** One unload request: the running entry it was for, the name sent, and the result. */
  datatype Attempt = Attempt(index: nat, name: string, ok: bool)

  /** `unload_all_models`: one unload request per running entry with a
      non-empty name, in list order. `replies[j]` is what the request for
      entry `j` gets back; a failed request never stops the sweep. A failed
      poll or an empty list makes no request. */
  method UnloadAllModels(poll: Option<seq<Entry>>, replies: seq<Reply>) returns (attempts: seq<Attempt>)
    requires poll.Some? ==> |replies| == |poll.value|
    ensures poll.None? || poll.value == [] ==> attempts == []
    ensures forall k :: 0 <= k < |attempts| ==>
              && poll.Some? && attempts[k].index < |poll.value|
              && attempts[k].name == NameOf(poll.value[attempts[k].index]) != ""
              && attempts[k].ok == UnloadModel(attempts[k].name, replies[attempts[k].index])
    ensures forall k, l :: 0 <= k < l < |attempts| ==> attempts[k].index < attempts[l].index
    ensures poll.Some? ==> forall j :: 0 <= j < |poll.value| && NameOf(poll.value[j]) != "" ==>
              exists k :: 0 <= k < |attempts| && attempts[k].index == j
  {
    attempts := [];
    if poll.None? {
      return;
    }
    var running := poll.value;
    if running == [] {
      return;
    }
    var i := 0;
    while i < |running|
      invariant 0 <= i <= |running|
      invariant forall k :: 0 <= k < |attempts| ==>
                  && attempts[k].index < i
                  && attempts[k].name == NameOf(running[attempts[k].index]) != ""
                  && attempts[k].ok == UnloadModel(attempts[k].name, replies[attempts[k].index])
      invariant forall k, l :: 0 <= k < l < |attempts| ==> attempts[k].index < attempts[l].index
      invariant forall j :: 0 <= j < i && NameOf(running[j]) != "" ==>
                  exists k :: 0 <= k < |attempts| && attempts[k].index == j
    {
      var name := NameOf(running[i]);
      if name != "" {
        var ok := UnloadModel(name, replies[i]);
        ghost var before := attempts;
        attempts := attempts + [Attempt(i, name, ok)];
        assert forall k :: 0 <= k < |before| ==> attempts[k] == before[k];
        assert attempts[|before|].index == i;
      }
      i := i + 1;
    }
  }
}
