/** The two string built-ins the page scanner relies on: `String.prototype.trim`
    and `String.prototype.replace` called with a string pattern, which replaces
    only the first occurrence of the pattern. */
module Text {
  import opened Wrappers

  /** The characters `trim` removes: the ECMAScript WhiteSpace and
      LineTerminator productions (tab, vertical tab, form feed, space,
      no-break space, byte order mark, the other Unicode space separators,
      line feed, carriage return, line and paragraph separators). */
  predicate IsWhitespace(c: char)
  {
    c == '\t' || c == '\n' || c == '\U{000B}' || c == '\U{000C}' || c == '\r' ||
    c == ' ' || c == '\U{00A0}' || c == '\U{1680}' ||
    ('\U{2000}' <= c <= '\U{200A}') ||
    c == '\U{2028}' || c == '\U{2029}' || c == '\U{202F}' || c == '\U{205F}' ||
    c == '\U{3000}' || c == '\U{FEFF}'
  }

  predicate AllWhitespace(s: string)
  {
    forall i :: 0 <= i < |s| ==> IsWhitespace(s[i])
  }

  /** Neither the first nor the last character of `s` is whitespace. */
  predicate NoEdgeWhitespace(s: string)
  {
    s != [] ==> !IsWhitespace(s[0]) && !IsWhitespace(s[|s| - 1])
  }

  /** `s` is `r` with whitespace (possibly none) added on both sides. */
  ghost predicate PaddedBy(s: string, r: string)
  {
    exists i :: 0 <= i <= |s| - |r| && s[i..i + |r|] == r &&
      AllWhitespace(s[..i]) && AllWhitespace(s[i + |r|..])
  }

  /** Drops the leading whitespace. */
  function TrimStart(s: string): (r: string)
    ensures |r| <= |s| && r == s[|s| - |r|..]
    ensures AllWhitespace(s[..|s| - |r|])
    ensures r != [] ==> !IsWhitespace(r[0])
  {
    if s != [] && IsWhitespace(s[0]) then TrimStart(s[1..]) else s
  }

  /** Drops the trailing whitespace. */
  function TrimEnd(s: string): (r: string)
    ensures |r| <= |s| && r == s[..|r|]
    ensures AllWhitespace(s[|r|..])
    ensures r != [] ==> !IsWhitespace(r[|r| - 1])
  {
    if s != [] && IsWhitespace(s[|s| - 1]) then TrimEnd(s[..|s| - 1]) else s
  }

  /** `String.prototype.trim`: the text between the leading and the trailing
      whitespace. */
  function Trim(s: string): (r: string)
    ensures NoEdgeWhitespace(r)
    ensures PaddedBy(s, r)
  {
    var t := TrimStart(s);
    var r := TrimEnd(t);
    var i := |s| - |t|;
    assert s[i..i + |r|] == r;
    assert s[i + |r|..] == t[|r|..];
    r
  }

  /** Removing leading whitespace from `pad + u`, where `u` does not start
      with whitespace, leaves `u`. */
  lemma {:induction false} TrimStartPadding(pad: string, u: string)
    requires AllWhitespace(pad)
    requires u != [] ==> !IsWhitespace(u[0])
    ensures TrimStart(pad + u) == u
  {
    if pad != [] {
      assert (pad + u)[1..] == pad[1..] + u;
      TrimStartPadding(pad[1..], u);
    }
  }

  /** Removing trailing whitespace from `u + pad`, where `u` does not end
      with whitespace, leaves `u`. */
  lemma {:induction false} TrimEndPadding(u: string, pad: string)
    requires AllWhitespace(pad)
    requires u != [] ==> !IsWhitespace(u[|u| - 1])
    ensures TrimEnd(u + pad) == u
  {
    if pad != [] {
      assert (u + pad)[..|u + pad| - 1] == u + pad[..|pad| - 1];
      TrimEndPadding(u, pad[..|pad| - 1]);
    }
  }

  /** `Trim` is the only way to strip `s` down to a string with no edge
      whitespace: whatever `s` is, padded on both sides, `Trim` recovers it. */
  lemma TrimOfPadded(pre: string, r: string, post: string)
    requires AllWhitespace(pre) && AllWhitespace(post)
    requires NoEdgeWhitespace(r)
    ensures Trim(pre + r + post) == r
  {
    if r == [] {
      assert pre + r + post == pre + post;
      TrimStartPadding(pre + post, []);
      assert pre + post + [] == pre + post;
    } else {
      assert pre + r + post == pre + (r + post);
      TrimStartPadding(pre, r + post);
      TrimEndPadding(r, post);
    }
  }

  /** Trimming twice is trimming once. */
  lemma TrimIdempotent(s: string)
    ensures Trim(Trim(s)) == Trim(s)
  {
    var r := Trim(s);
    TrimStartPadding("", r);
    assert "" + r == r;
    TrimEndPadding(r, "");
    assert r + "" == r;
  }

  /** `pat` occurs in `s` starting at index `k`. */
  predicate OccursAt(s: string, pat: string, k: int)
  {
    0 <= k && k + |pat| <= |s| && s[k..k + |pat|] == pat
  }

  /** `k` is the first index at which `pat` occurs in `s`. */
  predicate FirstOccurrence(s: string, pat: string, k: int)
  {
    OccursAt(s, pat, k) && forall j :: 0 <= j < k ==> !OccursAt(s, pat, j)
  }

  /** The search step of `String.prototype.replace` (as `indexOf`): the first
      index at which `pat` occurs in `s`, counted in code points, or `None`
      where JavaScript answers -1. */
  function IndexOf(s: string, pat: string): (r: Option<nat>)
    ensures r.Some? ==> FirstOccurrence(s, pat, r.value)
    ensures r.None? ==> forall k :: 0 <= k <= |s| - |pat| ==> !OccursAt(s, pat, k)
    decreases |s|
  {
    if |pat| > |s| then None
    else if s[..|pat|] == pat then Some(0)
    else
      assert s[0..|pat|] == s[..|pat|];
      ShiftOccurrences(s, pat);
      match IndexOf(s[1..], pat)
      case None => None
      case Some(k) => Some(k + 1)
  }

  /** An occurrence in `s[1..]` is an occurrence in `s`, one index further. */
  lemma ShiftOccurrences(s: string, pat: string)
    requires s != []
    ensures forall k :: 1 <= k ==> (OccursAt(s, pat, k) <==> OccursAt(s[1..], pat, k - 1))
  {
    forall k | 1 <= k
      ensures OccursAt(s, pat, k) <==> OccursAt(s[1..], pat, k - 1)
    {
      if k + |pat| <= |s| {
        assert s[1..][k - 1..k - 1 + |pat|] == s[k..k + |pat|];
      }
    }
  }

  /** `s.replace(pat, rep)` with a string pattern and a replacement holding
      no `$` patterns, such as the `''` of the price line: the first
      occurrence of `pat` anywhere in `s` is replaced by `rep` as literal
      text; without an occurrence `s` is returned unchanged. */
  function ReplaceFirst(s: string, pat: string, rep: string): (r: string)
    ensures (forall k :: 0 <= k <= |s| - |pat| ==> !OccursAt(s, pat, k)) ==> r == s
    ensures forall i :: FirstOccurrence(s, pat, i) ==> r == s[..i] + rep + s[i + |pat|..]
  {
    match IndexOf(s, pat)
    case None => s
    case Some(i) => s[..i] + rep + s[i + |pat|..]
  }

  /** When `pat` first occurs right after `before`, replacing substitutes
      `rep` for exactly that occurrence, wherever it lies in `s`. */
  lemma ReplaceFirstAt(before: string, pat: string, after: string, rep: string)
    requires forall k :: 0 <= k < |before| ==> !OccursAt(before + pat + after, pat, k)
    ensures ReplaceFirst(before + pat + after, pat, rep) == before + rep + after
  {
    var s := before + pat + after;
    assert OccursAt(s, pat, |before|) by {
      assert s[|before|..|before| + |pat|] == pat;
    }
    assert IndexOf(s, pat) == Some(|before|);
    assert s[..|before|] == before;
    assert s[|before| + |pat|..] == after;
  }

  /** Deleting a leading `tag` and trimming recovers what followed the tag
      and its padding. */
  lemma StripLeadingTag(tag: string, pad: string, rest: string)
    requires AllWhitespace(pad) && NoEdgeWhitespace(rest)
    ensures Trim(ReplaceFirst(tag + pad + rest, tag, "")) == rest
  {
    var tail := pad + rest;
    assert tag + pad + rest == "" + tag + tail;
    ReplaceFirstAt("", tag, tail, "");
    assert "" + "" + tail == pad + rest + "";
    TrimOfPadded(pad, rest, "");
  }

  /** Deleting the first occurrence of `pat`, when it follows `before`,
      joins the text on either side of it. */
  lemma DeleteFirstAt(before: string, pat: string, after: string)
    requires forall k :: 0 <= k < |before| ==> !OccursAt(before + pat + after, pat, k)
    ensures ReplaceFirst(before + pat + after, pat, "") == before + after
  {
    ReplaceFirstAt(before, pat, after, "");
    assert before + "" + after == before + after;
  }
}
