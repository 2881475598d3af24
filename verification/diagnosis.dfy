/** The explanation produced when a greeting request times out. */
module Diagnosis {
  import opened Wrappers
  import opened Text
  import opened Registry

  /** One running model as the listing names it: `m.get('name', 'unknown')`
      and `m.get('size', 0)`. */
  datatype Listed = Listed(name: string, size: int)

  /** The findings, in the order the diagnosis may append them. */
  datatype Finding =
    | StalledWhileLoading              // timed out before any token
    | SlowGeneration                   // timed out after tokens had arrived
    | SizeSplit(size: int, sizeVram: int)
    | PartialVram                      // not wholly in device memory
    | NotResident                      // absent from the running list: likely out of memory
    | ResidentModels(models: seq<Listed>)
    | Unreachable                      // the running list could not be polled
  {
    predicate IsPhase() { StalledWhileLoading? || SlowGeneration? }
  }

  /** The phase classification, chosen by whether any token had arrived. */
  function Phase(gotAnyToken: bool): (f: Finding)
    ensures f.IsPhase()
    ensures f.SlowGeneration? <==> gotAnyToken
  {
    if gotAnyToken then SlowGeneration else StalledWhileLoading
  }

  /** Every running model, in list order. */
  function Listing(running: seq<Entry>): (r: seq<Listed>)
    ensures |r| == |running|
    ensures forall k :: 0 <= k < |r| ==> r[k] == Listed(running[k].name.GetOr("unknown"), running[k].size)
  {
    seq(|running|, k requires 0 <= k < |running| => Listed(running[k].name.GetOr("unknown"), running[k].size))
  }

  predicate HasSizeSplit(r: seq<Finding>) {
    exists k :: 0 <= k < |r| && r[k].SizeSplit?
  }

  /** The findings for a timed-out request to `model`; `poll` is the running
      list read after the timeout, `None` when that read failed. */
  function Diagnose(model: string, gotAnyToken: bool, poll: Option<seq<Entry>>): (r: seq<Finding>)
    ensures 1 <= |r| <= 3
    ensures r[0] == Phase(gotAnyToken)
  {
    var phase := Phase(gotAnyToken);
    match poll
    case None => [phase, Unreachable]
    case Some(running) =>
      match TargetEntry(running, model)
      case Some(e) =>
        if e.size > 0 then [phase, SizeSplit(e.size, e.sizeVram)] + (if e.sizeVram < e.size then [PartialVram] else [])
        else [phase]
      case None =>
        if gotAnyToken then [phase]
        else [phase, NotResident] + (if |running| > 0 then [ResidentModels(Listing(running))] else [])
  }

  /** Which findings the diagnosis holds and where: the phase comes first and
      only there; an unreachable list adds nothing else; the size split and the
      partial-placement finding follow it when the target runs; the
      not-resident finding and the listing of the other models follow it when
      the target is absent and no token arrived. */
  lemma DiagnoseFindings(model: string, gotAnyToken: bool, poll: Option<seq<Entry>>)
    ensures var r := Diagnose(model, gotAnyToken, poll);
      && (forall k :: 1 <= k < |r| ==> !r[k].IsPhase())
      && (poll.None? ==> r == [Phase(gotAnyToken), Unreachable])
      && (Unreachable in r <==> poll.None?)
      && (HasSizeSplit(r) <==>
            poll.Some? && TargetEntry(poll.value, model).Some? && TargetEntry(poll.value, model).value.size > 0)
      && (PartialVram in r <==>
            poll.Some? && TargetEntry(poll.value, model).Some?
                 && 0 < TargetEntry(poll.value, model).value.size
                 && TargetEntry(poll.value, model).value.sizeVram < TargetEntry(poll.value, model).value.size)
      && (NotResident in r <==> poll.Some? && TargetEntry(poll.value, model).None? && !gotAnyToken)
      && (forall k :: 0 <= k < |r| && r[k].ResidentModels? ==>
            k == 2 && r[1] == NotResident && poll.Some? && r[k].models == Listing(poll.value) && |poll.value| > 0)
      && (NotResident in r && |poll.value| > 0 ==> ResidentModels(Listing(poll.value)) in r)
      && !(PartialVram in r && NotResident in r)
      && (poll.Some? && TargetEntry(poll.value, model).Some? && TargetEntry(poll.value, model).value.size > 0 ==>
            var e := TargetEntry(poll.value, model).value;
            r[1] == SizeSplit(e.size, e.sizeVram) && |r| == (if e.sizeVram < e.size then 3 else 2))
      && (NotResident in r ==> r[1] == NotResident && |r| == (if |poll.value| > 0 then 3 else 2))
      && (poll.Some? && !HasSizeSplit(r) && NotResident !in r ==> r == [Phase(gotAnyToken)])
  {
    var r := Diagnose(model, gotAnyToken, poll);
    if poll.Some? && TargetEntry(poll.value, model).Some? && TargetEntry(poll.value, model).value.size > 0 {
      assert r[1].SizeSplit?;
    }
  }

  /** `diagnose_timeout`: append the findings one by one. */
  method DiagnoseTimeout(model: string, gotAnyToken: bool, poll: Option<seq<Entry>>)
    returns (parts: seq<Finding>)
    ensures parts == Diagnose(model, gotAnyToken, poll)
  {
    parts := [];
    if !gotAnyToken {
      parts := parts + [StalledWhileLoading];
    } else {
      parts := parts + [SlowGeneration];
    }
    match poll {
      case None =>
        parts := parts + [Unreachable];
      case Some(running) =>
        var targetFound := false;
        var found := FindRunning(running, model);
        if found.Some? {
          targetFound := true;
          var size, sizeVram := running[found.value].size, running[found.value].sizeVram;
          if size > 0 {
            parts := parts + [SizeSplit(size, sizeVram)];
            if sizeVram < size {
              parts := parts + [PartialVram];
            }
          }
        }
        if !targetFound && !gotAnyToken {
          parts := parts + [NotResident];
          if |running| > 0 {
            parts := parts + [ResidentModels(Listing(running))];
          }
        }
    }
  }

  /** A report that sends bytes to system memory (below 95% in device memory)
      always comes with a partial-placement finding when the same list is diagnosed. */
  lemma SpillImpliesPartialVram(model: string, gotAnyToken: bool, running: seq<Entry>)
    requires TargetEntry(running, model).Some?
    requires var e := TargetEntry(running, model).value; 0 < e.size && 100 * e.sizeVram < 95 * e.size
    ensures PartialVram in Diagnose(model, gotAnyToken, Some(running))
  {
    DiagnoseFindings(model, gotAnyToken, Some(running));
  }

  /** The two thresholds differ: 96% in device memory is flagged here but gets no spill note in the report. */
  lemma NinetySixPercentFlaggedOnlyHere()
    ensures var running := [Entry(Some("m"), None, 100, 96)];
            PartialVram in Diagnose("m", true, Some(running))
            && !(100 * running[0].sizeVram < 95 * running[0].size)
  {
    assert FirstMatch([Entry(Some("m"), None, 100, 96)], "m") == Some(0);
    DiagnoseFindings("m", true, Some([Entry(Some("m"), None, 100, 96)]));
  }

  // ---- The diagnosis as text ----

  const LOADING_TEXT: string := "模型在載入階段即逾時（尚未產生任何 token）"
  const SLOW_TEXT: string := "模型已開始生成但回應過慢"
  const PARTIAL_TEXT: string := "⚠️  模型未完全載入 VRAM，部分使用系統記憶體，效能大幅下降"
  const NOT_RESIDENT_TEXT: string := "⚠️  模型未出現在執行清單中，很可能因記憶體不足 (OOM) 無法載入"
  const UNREACHABLE_TEXT: string := "（無法連線 /api/ps 進行進一步診斷）"

  /** One finding as text. Byte counts and percentages are rendered by the
      given functions, which stand for the script's number formatting. */
  function Render(f: Finding, formatBytes: int -> string, percent: (int, int) -> string): string {
    match f
    case StalledWhileLoading => LOADING_TEXT
    case SlowGeneration => SLOW_TEXT
    case SizeSplit(size, sizeVram) =>
      "模型大小 " + formatBytes(size) + "，VRAM 使用 " + formatBytes(sizeVram) + " (" + percent(sizeVram, size) + "%)"
    case PartialVram => PARTIAL_TEXT
    case NotResident => NOT_RESIDENT_TEXT
    case ResidentModels(models) =>
      "目前已載入的模型：" + Join(seq(|models|, k requires 0 <= k < |models| =>
                                     models[k].name + " (" + formatBytes(models[k].size) + ")"), ", ")
    case Unreachable => UNREACHABLE_TEXT
  }

  /** The findings joined by "；", the text carried by the timeout error. */
  function DiagnosisText(findings: seq<Finding>, formatBytes: int -> string, percent: (int, int) -> string): string {
    Join(seq(|findings|, k requires 0 <= k < |findings| => Render(findings[k], formatBytes, percent)), "；")
  }

  /** The text of every diagnosis opens with the phase sentence. */
  lemma TextStartsWithPhase(model: string, gotAnyToken: bool, poll: Option<seq<Entry>>,
                            formatBytes: int -> string, percent: (int, int) -> string)
    ensures var phase := if gotAnyToken then SLOW_TEXT else LOADING_TEXT;
            phase <= DiagnosisText(Diagnose(model, gotAnyToken, poll), formatBytes, percent)
  {
    var fs := Diagnose(model, gotAnyToken, poll);
    var texts := seq(|fs|, k requires 0 <= k < |fs| => Render(fs[k], formatBytes, percent));
    JoinStartsWithFirst(texts, "；");
    assert texts[0] == Render(Phase(gotAnyToken), formatBytes, percent);
  }
}
