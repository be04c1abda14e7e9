/** The two string operations of Go's strings package the crawler relies on. */
module Text {

  /** strings.Join: the parts with sep between consecutive ones. No parts give the empty
      text, a single part comes back unchanged, and the first part always leads. */
  function Join(parts: seq<string>, sep: string): (r: string)
    ensures parts == [] ==> r == ""
    ensures |parts| == 1 ==> r == parts[0]
    ensures parts != [] ==> parts[0] <= r
    decreases |parts|
  {
    if parts == [] then ""
    else if |parts| == 1 then parts[0]
    else parts[0] + sep + Join(parts[1..], sep)
  }

  /** r is a suffix of s, everything before it is in the cutset, and it does not start
      with a cutset character. */
  predicate DropsLeading(s: string, r: string, cutset: set<char>)
  {
    && |r| <= |s| && r == s[|s| - |r|..]
    && (forall k :: 0 <= k < |s| - |r| ==> s[k] in cutset)
    && (r == [] || r[0] !in cutset)
  }

  /** r is a prefix of s, everything after it is in the cutset, and it does not end with
      a cutset character. */
  predicate DropsTrailing(s: string, r: string, cutset: set<char>)
  {
    && |r| <= |s| && r == s[..|r|]
    && (forall k :: |r| <= k < |s| ==> s[k] in cutset)
    && (r == [] || r[|r| - 1] !in cutset)
  }

  /** strings.TrimLeft with a cutset: drops the leading characters found in the cutset. */
  function TrimLeft(s: string, cutset: set<char>): (r: string)
    ensures DropsLeading(s, r, cutset)
    decreases |s|
  {
    if s != [] && s[0] in cutset then TrimLeft(s[1..], cutset) else s
  }

  /** strings.TrimRight with a cutset: drops the trailing characters found in the cutset. */
  function TrimRight(s: string, cutset: set<char>): (r: string)
    ensures DropsTrailing(s, r, cutset)
    decreases |s|
  {
    if s != [] && s[|s| - 1] in cutset then TrimRight(s[..|s| - 1], cutset) else s
  }

  /** t neither starts nor ends with a character of the cutset. */
  predicate Trimmed(t: string, cutset: set<char>)
  {
    t == [] || (t[0] !in cutset && t[|t| - 1] !in cutset)
  }

  /** r is s[start..] cut down to a middle part: everything before start and after the
      part is in the cutset, and the part neither starts nor ends with a cutset character. */
  predicate KeptBetweenCuts(s: string, r: string, start: nat, cutset: set<char>)
  {
    && start + |r| <= |s| && r == s[start..start + |r|]
    && (forall k :: 0 <= k < start ==> s[k] in cutset)
    && (forall k :: start + |r| <= k < |s| ==> s[k] in cutset)
    && Trimmed(r, cutset)
  }

  /** strings.Trim with a cutset: both ends. It keeps one contiguous middle part of s,
      cuts only cutset characters before and after that part, and what it keeps neither
      starts nor ends with a cutset character. */
  function Trim(s: string, cutset: set<char>): (r: string)
    ensures KeptBetweenCuts(s, r, |s| - |TrimLeft(s, cutset)|, cutset)
  {
    var left := TrimLeft(s, cutset);
    var kept := TrimRight(left, cutset);
    TrimParts(s, left, kept, cutset);
    kept
  }

  /** Cutting a prefix of cutset characters from s, then a suffix of cutset characters
      from what is left, keeps a middle part of s between two cuts. */
  lemma TrimParts(s: string, left: string, r: string, cutset: set<char>)
    requires DropsLeading(s, left, cutset) && DropsTrailing(left, r, cutset)
    ensures KeptBetweenCuts(s, r, |s| - |left|, cutset)
  {
    KeptSlice(s, left, r);
    CutTail(s, left, |r|, cutset);
    KeptFront(left, r, cutset);
  }

  /** A prefix of a suffix of s is a slice of s. */
  lemma KeptSlice(s: string, left: string, r: string)
    requires |left| <= |s| && left == s[|s| - |left|..]
    requires |r| <= |left| && r == left[..|r|]
    ensures r == s[|s| - |left|..|s| - |left| + |r|]
  {
  }

  /** Characters cut from the end of a suffix of s are cut from the end of s. */
  lemma CutTail(s: string, left: string, n: nat, cutset: set<char>)
    requires |left| <= |s| && left == s[|s| - |left|..] && n <= |left|
    requires forall k :: n <= k < |left| ==> left[k] in cutset
    ensures forall k :: |s| - |left| + n <= k < |s| ==> s[k] in cutset
  {
    forall k | |s| - |left| + n <= k < |s|
      ensures s[k] in cutset
    {
      assert s[k] == left[k - (|s| - |left|)];
    }
  }

  /** A prefix of a text that does not start with a cutset character does not either. */
  lemma KeptFront(left: string, r: string, cutset: set<char>)
    requires left == [] || left[0] !in cutset
    requires |r| <= |left| && r == left[..|r|]
    ensures r == [] || r[0] !in cutset
  {
  }

  /** Appending a part to a non-empty list adds the separator and that part at the end:
      the parts are joined left to right, one separator between each two. */
  lemma {:induction false} JoinAppend(parts: seq<string>, x: string, sep: string)
    requires parts != []
    ensures Join(parts + [x], sep) == Join(parts, sep) + sep + x
    decreases |parts|
  {
    if |parts| == 1 {
      assert (parts + [x])[1..] == [x];
    } else {
      assert (parts + [x])[1..] == parts[1..] + [x];
      JoinAppend(parts[1..], x, sep);
    }
  }
}
