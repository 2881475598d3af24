/** The resource report shown once a model has produced its first token. */
module Resources {
  import opened Wrappers
  import opened Registry

  /** What the report says about the model. */
  datatype Usage =
    | Loaded                                                   // running, size unknown (0)
    | Footprint(size: int, sizeVram: int, spilled: Option<int>) // sizes, and the bytes held in system memory
    | Unavailable                                              // not in the running list

  /** `size_vram < size * 0.95`, in integers. */
  predicate BelowNinetyFivePercent(size: int, sizeVram: int) {
    100 * sizeVram < 95 * size
  }

  /** The report for `model` given the running list polled for it; `None`
      when the poll failed, in which case nothing is shown. */
  function ResourceUsage(model: string, poll: Option<seq<Entry>>): (r: Option<Usage>)
    ensures r.None? <==> poll.None?
    ensures r == Some(Unavailable)
            <==> poll.Some? && forall j :: 0 <= j < |poll.value| ==> !Matches(poll.value[j], model)
    ensures r == Some(Loaded)
            <==> poll.Some? && TargetEntry(poll.value, model).Some? && TargetEntry(poll.value, model).value.size <= 0
    ensures r.Some? && r.value.Footprint? ==>
              && poll.Some? && TargetEntry(poll.value, model).Some?
              && var e := TargetEntry(poll.value, model).value;
              && e.size == r.value.size > 0 && e.sizeVram == r.value.sizeVram
              && (r.value.spilled.Some? <==> BelowNinetyFivePercent(e.size, e.sizeVram))
              && (r.value.spilled.Some? ==> r.value.spilled.value == e.size - e.sizeVram > 0)
  {
    match poll
    case None => None
    case Some(running) =>
      match TargetEntry(running, model)
      case None => Some(Unavailable)
      case Some(e) =>
        if e.size > 0 then
          Some(Footprint(e.size, e.sizeVram,
                         if BelowNinetyFivePercent(e.size, e.sizeVram) then Some(e.size - e.sizeVram) else None))
        else Some(Loaded)
  }

  /** The report: find the first matching running entry and describe it. */
  method ShowModelResourceUsage(model: string, poll: Option<seq<Entry>>) returns (r: Option<Usage>)
    ensures r == ResourceUsage(model, poll)
  {
    match poll {
      case None =>
        r := None;
      case Some(running) =>
        var found := FindRunning(running, model);
        match found {
          case None =>
            r := Some(Unavailable);
          case Some(i) =>
            var size, sizeVram := running[i].size, running[i].sizeVram;
            if size > 0 {
              var spilled := None;
              if 100 * sizeVram < 95 * size {
                spilled := Some(size - sizeVram);
              }
              r := Some(Footprint(size, sizeVram, spilled));
            } else {
              r := Some(Loaded);
            }
        }
    }
  }

  /** Only the first matching entry decides the report. */
  lemma UsageDecidedByFirstMatch(model: string, running: seq<Entry>, later: seq<Entry>)
    requires FirstMatch(running, model).Some?
    ensures ResourceUsage(model, Some(running + later)) == ResourceUsage(model, Some(running))
  {
    FirstMatchIgnoresLater(running, later, model);
    var e := TargetEntry(running, model);
    assert TargetEntry(running + later, model) == e;
  }

  /** A model holding 4 GB of its 8 GB in device memory gets a spill note of 4 GB. */
  lemma HalfInDeviceMemory()
    ensures ResourceUsage("a", Some([Entry(Some("a"), None, 8_000_000_000, 4_000_000_000)]))
            == Some(Footprint(8_000_000_000, 4_000_000_000, Some(4_000_000_000)))
  {
    assert FirstMatch([Entry(Some("a"), None, 8_000_000_000, 4_000_000_000)], "a") == Some(0);
  }
}
