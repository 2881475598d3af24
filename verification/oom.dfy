/** Recognising out-of-memory failures in error text returned by the server. */
module Oom {
  import opened Text

  /** Phrases that mark an error text as a memory failure. */
  const OOM_KEYWORDS: seq<string> := [
    "out of memory", "oom", "not enough memory",
    "failed to load", "insufficient memory",
    "cuda out of memory", "memory", "alloc"
  ]

  /** Prefix of the message of the error raised for an out-of-memory HTTP failure. */
  const OOM_PREFIX: string := "記憶體不足 (OOM)："

  /** Case-insensitive keyword match. Every keyword that mentions "memory"
      is implied by the bare keyword "memory", so four keywords decide it. */
  function IsOomError(errorMsg: string): (oom: bool)
    ensures oom <==> (var lower := Lower(errorMsg);
                      Contains(lower, "memory") || Contains(lower, "oom")
                      || Contains(lower, "failed to load") || Contains(lower, "alloc"))
  {
    var lower := Lower(errorMsg);
    KeywordsReduce(lower);
    exists k | 0 <= k < |OOM_KEYWORDS| :: Contains(lower, OOM_KEYWORDS[k])
  }

  /** The longer memory phrases each contain "memory". */
  lemma KeywordsReduce(lower: string)
    ensures (exists k | 0 <= k < |OOM_KEYWORDS| :: Contains(lower, OOM_KEYWORDS[k]))
            <==> (Contains(lower, "memory") || Contains(lower, "oom")
                  || Contains(lower, "failed to load") || Contains(lower, "alloc"))
  {
    var memory := "memory";
    assert OccursAt("out of memory", memory, 7);
    assert OccursAt("not enough memory", memory, 11);
    assert OccursAt("insufficient memory", memory, 13);
    assert OccursAt("cuda out of memory", memory, 12);
    forall k | 0 <= k < |OOM_KEYWORDS| && Contains(lower, OOM_KEYWORDS[k])
      ensures Contains(lower, "memory") || Contains(lower, "oom")
              || Contains(lower, "failed to load") || Contains(lower, "alloc")
    {
      if k in {0, 2, 4, 5} {
        ContainsTransitive(lower, OOM_KEYWORDS[k], memory);
      }
    }
    assert OOM_KEYWORDS[6] == memory && OOM_KEYWORDS[1] == "oom";
    assert OOM_KEYWORDS[3] == "failed to load" && OOM_KEYWORDS[7] == "alloc";
  }

  /** The classification ignores letter case. */
  lemma OomIgnoresCase(errorMsg: string)
    ensures IsOomError(Lower(errorMsg)) == IsOomError(errorMsg)
  {
    LowerIdempotent(errorMsg);
  }
}
