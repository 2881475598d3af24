/** The string operations the scripts rely on: `str.strip()`, `str.lower()`,
    the `in` substring test, `"".join(...)` and `sep.join(...)`. */
module Text {

  /** Python's `str.isspace()` on one character (the set `str.strip()` removes). */
  predicate IsSpace(c: char) {
    ('\t' <= c <= '\r') || ('\U{1C}' <= c <= ' ') || c == '\U{85}' || c == '\U{A0}'
    || c == '\U{1680}' || ('\U{2000}' <= c <= '\U{200A}') || c == '\U{2028}' || c == '\U{2029}'
    || c == '\U{202F}' || c == '\U{205F}' || c == '\U{3000}'
  }

  predicate AllSpace(s: string) {
    forall k :: 0 <= k < |s| ==> IsSpace(s[k])
  }

  /** `s.lstrip()`: the longest suffix of `s` that does not start with white space. */
  function TrimStart(s: string): (r: string)
    ensures |r| <= |s| && r == s[|s| - |r|..]
    ensures AllSpace(s[..|s| - |r|])
    ensures r == [] || !IsSpace(r[0])
  {
    if |s| > 0 && IsSpace(s[0]) then
      var r := TrimStart(s[1..]);
      assert s[..|s| - |r|] == [s[0]] + s[1..][..|s| - 1 - |r|];
      r
    else s
  }

  /** `s.rstrip()`: the longest prefix of `s` that does not end with white space. */
  function TrimEnd(s: string): (r: string)
    ensures |r| <= |s| && r == s[..|r|]
    ensures AllSpace(s[|r|..])
    ensures r == [] || !IsSpace(r[|r| - 1])
    ensures s != [] && !IsSpace(s[0]) ==> r != []
  {
    if |s| > 0 && IsSpace(s[|s| - 1]) then
      var init := s[..|s| - 1];
      var r := TrimEnd(init);
      assert init[..|r|] == s[..|r|];
      assert s[|r|..] == init[|r|..] + [s[|s| - 1]];
      assert |init| > 0 ==> init[0] == s[0];
      r
    else s
  }

  /** `s.strip()`: a slice of `s` with every leading and trailing white-space character removed. */
  function Strip(s: string): (r: string)
    ensures r == [] || (!IsSpace(r[0]) && !IsSpace(r[|r| - 1]))
    ensures r == [] <==> AllSpace(s)
    ensures exists i, j :: 0 <= i <= j <= |s| && r == s[i..j] && AllSpace(s[..i]) && AllSpace(s[j..])
  {
    var t := TrimStart(s);
    var r := TrimEnd(t);
    assert t != [] ==> t[0] == s[|s| - |t|];
    StripIsSlice(s, t, r);
    r
  }

  /** Trimming the front and then the back leaves a slice with white space on either side. */
  lemma StripIsSlice(s: string, t: string, r: string)
    requires |t| <= |s| && t == s[|s| - |t|..] && AllSpace(s[..|s| - |t|])
    requires |r| <= |t| && r == t[..|r|] && AllSpace(t[|r|..])
    ensures exists i, j :: 0 <= i <= j <= |s| && r == s[i..j] && AllSpace(s[..i]) && AllSpace(s[j..])
  {
    var i, j := |s| - |t|, |s| - |t| + |r|;
    assert r == s[i..j] && s[j..] == t[|r|..];
  }

  /** Python's `str.lower()` on one character, for the ASCII letters. */
  function LowerChar(c: char): (d: char)
    ensures !('A' <= d <= 'Z')
    ensures 'a' <= c <= 'z' ==> d == c
  {
    if 'A' <= c <= 'Z' then (c as int - 'A' as int + 'a' as int) as char else c
  }

  function Lower(s: string): (r: string)
    ensures |r| == |s|
    ensures forall k :: 0 <= k < |r| ==> !('A' <= r[k] <= 'Z')
  {
    seq(|s|, k requires 0 <= k < |s| => LowerChar(s[k]))
  }

  /** Lowering twice is lowering once. */
  lemma LowerIdempotent(s: string)
    ensures Lower(Lower(s)) == Lower(s)
  {
  }

  /** Python's `needle in hay` on strings. */
  predicate Contains(hay: string, needle: string) {
    exists i | 0 <= i <= |hay| - |needle| :: OccursAt(hay, needle, i)
  }

  /** `needle` occurs in `hay` starting at position `i`. */
  predicate OccursAt(hay: string, needle: string, i: int) {
    0 <= i && i + |needle| <= |hay| && hay[i..i + |needle|] == needle
  }

  /** A substring of a substring is a substring. */
  lemma ContainsTransitive(hay: string, mid: string, needle: string)
    requires Contains(hay, mid) && Contains(mid, needle)
    ensures Contains(hay, needle)
  {
    var i :| 0 <= i <= |hay| - |mid| && OccursAt(hay, mid, i);
    var j :| 0 <= j <= |mid| - |needle| && OccursAt(mid, needle, j);
    assert OccursAt(hay, needle, i + j) by {
      forall k | 0 <= k < |needle| ensures hay[i + j + k] == needle[k] {
        assert mid[j + k] == needle[k];
        assert hay[i + (j + k)] == mid[j + k];
      }
    }
  }

  /** `"".join(parts)`. */
  function Concat(parts: seq<string>): string {
    if parts == [] then "" else Concat(parts[..|parts| - 1]) + parts[|parts| - 1]
  }

  lemma ConcatAppend(parts: seq<string>, more: seq<string>)
    ensures Concat(parts + more) == Concat(parts) + Concat(more)
  {
    if more != [] {
      var all := parts + more;
      assert all[..|all| - 1] == parts + more[..|more| - 1];
      assert all[|all| - 1] == more[|more| - 1];
      ConcatAppend(parts, more[..|more| - 1]);
      assert Concat(all) == Concat(parts + more[..|more| - 1]) + more[|more| - 1];
    } else {
      assert parts + more == parts;
    }
  }

  /** Empty parts do not change the concatenation. */
  lemma ConcatSkipsEmpty(parts: seq<string>)
    ensures Concat(parts) == Concat(NonEmpty(parts))
  {
    if parts != [] {
      var init := parts[..|parts| - 1];
      var last := parts[|parts| - 1];
      assert parts == init + [last];
      NonEmptyAppend(init, [last]);
      ConcatSkipsEmpty(init);
      ConcatAppend(NonEmpty(init), NonEmpty([last]));
      if last != "" { assert Concat([last]) == last by { assert [last][..0] == []; } }
    }
  }

  /** The non-empty strings of `parts`, in order. */
  function NonEmpty(parts: seq<string>): (r: seq<string>)
    ensures forall k :: 0 <= k < |r| ==> r[k] != ""
    ensures |r| <= |parts|
  {
    if parts == [] then []
    else if parts[|parts| - 1] == "" then NonEmpty(parts[..|parts| - 1])
    else NonEmpty(parts[..|parts| - 1]) + [parts[|parts| - 1]]
  }

  lemma NonEmptyAppend(a: seq<string>, b: seq<string>)
    ensures NonEmpty(a + b) == NonEmpty(a) + NonEmpty(b)
  {
    if b != [] {
      var all := a + b;
      assert all[..|all| - 1] == a + b[..|b| - 1];
      assert all[|all| - 1] == b[|b| - 1];
      NonEmptyAppend(a, b[..|b| - 1]);
    } else {
      assert a + b == a;
    }
  }

  /** `sep.join(parts)`. */
  function Join(parts: seq<string>, sep: string): string {
    if |parts| <= 1 then Concat(parts)
    else Join(parts[..|parts| - 1], sep) + sep + parts[|parts| - 1]
  }

  /** The joined text starts with the first part, followed by the separator when more parts follow. */
  lemma {:induction false} JoinStartsWithFirst(parts: seq<string>, sep: string)
    requires |parts| >= 1
    ensures |parts| == 1 ==> Join(parts, sep) == parts[0]
    ensures |parts| >= 2 ==> parts[0] + sep <= Join(parts, sep)
  {
    if |parts| == 1 {
      assert parts[..0] == [];
      assert Join(parts, sep) == Concat(parts) == Concat(parts[..0]) + parts[0];
    } else if |parts| == 2 {
      var first := parts[..1];
      assert first == [parts[0]] && first[..0] == [];
      assert Join(first, sep) == Concat(first) == Concat(first[..0]) + parts[0];
      assert Join(parts, sep) == Join(first, sep) + sep + parts[1];
    } else {
      var init := parts[..|parts| - 1];
      JoinStartsWithFirst(init, sep);
      assert init[0] == parts[0];
    }
  }
}
