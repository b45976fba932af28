/**
  The expression extractor of the chat handler (app.py lines 122-126): it cleans the
  translator's raw reply and, when the reply mentions the data frame `df[` somewhere
  other than at its start, cuts out the text matched by `re.search(r"df\[.*\]", ...)`.
 */
module Extractor {
  import opened Wrappers
  import opened Text

  /** The root every accepted expression indexes: the data frame `df`. */
  const Root: string := "df["

  /**
    Line 122: `strip()`, then every backtick removed, then `python` removed in one
    left-to-right pass. No backtick survives.
   */
  function Clean(raw: string): (code: string)
    ensures '`' !in code
  {
    var unfenced := ReplaceAll(Strip(raw), "`", "");
    ReplaceAllRemovesChar(Strip(raw), '`', "");
    ReplaceAllChars(unfenced, "python", "");
    ReplaceAll(unfenced, "python", "")
  }

  /**
    `s[a..k+1]` is a match of `df\[.*\]`: it opens with `df[`, closes with `]`, and
    (since `.` does not match a newline) has no newline in between.
   */
  ghost predicate MatchSpan(s: string, a: nat, k: nat) {
    a + |Root| <= k < |s| && s[a..a + |Root|] == Root && s[k] == ']'
    && forall m :: a + |Root| <= m < k ==> s[m] != '\n'
  }

  /** The match `re.search` reports: leftmost start, and from there the greedy (longest) end. */
  ghost predicate LeftmostGreedy(s: string, a: nat, k: nat) {
    && MatchSpan(s, a, k)
    && (forall b: nat, k': nat :: b < a ==> !MatchSpan(s, b, k'))
    && (forall k': nat :: MatchSpan(s, a, k') ==> k' <= k)
  }

  /** The first newline at or after `j`, or the end of `s`. */
  function LineEnd(s: string, j: nat): (e: nat)
    requires j <= |s|
    ensures j <= e <= |s| && (e < |s| ==> s[e] == '\n')
    ensures forall m :: j <= m < e ==> s[m] != '\n'
    decreases |s| - j
  {
    if j == |s| || s[j] == '\n' then j else LineEnd(s, j + 1)
  }

  /** The last `]` in `s[lo..hi]`, if any. */
  function LastClose(s: string, lo: nat, hi: nat): (k: Option<nat>)
    requires lo <= hi <= |s|
    ensures k.Some? ==> lo <= k.value < hi && s[k.value] == ']'
    ensures k.Some? ==> forall m :: k.value < m < hi ==> s[m] != ']'
    ensures k.None? ==> forall m :: lo <= m < hi ==> s[m] != ']'
    decreases hi
  {
    if hi == lo then None
    else if s[hi - 1] == ']' then Some(hi - 1)
    else LastClose(s, lo, hi - 1)
  }

  /** The end of the greedy match starting exactly at `a`: `.*` runs to the end of the line and backs up to the last `]`. */
  function MatchAt(s: string, a: nat): (k: Option<nat>)
    requires a <= |s|
    ensures k.Some? ==> MatchSpan(s, a, k.value) && forall k': nat :: MatchSpan(s, a, k') ==> k' <= k.value
    ensures k.None? ==> forall k': nat :: !MatchSpan(s, a, k')
  {
    if a + |Root| <= |s| && s[a..a + |Root|] == Root then
      var e := LineEnd(s, a + |Root|);
      var k := LastClose(s, a + |Root|, e);
      assert forall k': nat :: MatchSpan(s, a, k') ==> k' < e by {
        forall k': nat | MatchSpan(s, a, k') ensures k' < e {
        }
      }
      k
    else None
  }

  /** The regex search from position `a` onwards: the first start that has a match. */
  function SearchFrom(s: string, a: nat): (r: Option<(nat, nat)>)
    requires a <= |s|
    ensures r.Some? ==> a <= r.value.0 && MatchSpan(s, r.value.0, r.value.1)
    ensures r.Some? ==> forall k': nat :: MatchSpan(s, r.value.0, k') ==> k' <= r.value.1
    ensures r.Some? ==> forall b: nat, k': nat :: a <= b < r.value.0 ==> !MatchSpan(s, b, k')
    ensures r.None? ==> forall b: nat, k': nat :: a <= b ==> !MatchSpan(s, b, k')
    decreases |s| - a
  {
    match MatchAt(s, a)
    case Some(k) => Some((a, k))
    case None => if a == |s| then None else SearchFrom(s, a + 1)
  }

  /**
    `re.search(r"df\[.*\]", s)`: the span of the leftmost match with its greedy end,
    or `None` exactly when no substring matches.
   */
  function Search(s: string): (r: Option<(nat, nat)>)
    ensures r.Some? ==> LeftmostGreedy(s, r.value.0, r.value.1)
    ensures r.None? <==> forall a: nat, k: nat :: !MatchSpan(s, a, k)
  {
    SearchFrom(s, 0)
  }

  /**
    Lines 124-126 on the cleaned code: kept as it is when it starts with `df[` or does
    not mention `df[`; otherwise replaced by the regex match, and `None` when the
    search finds nothing (where the source calls `.group(0)` on `None` and raises).
   */
  function Extract(code: string): (r: Option<string>)
    ensures StartsWith(code, Root) || !Contains(code, Root) ==> r == Some(code)
    ensures r.None? <==> (!StartsWith(code, Root) && Contains(code, Root) && forall a: nat, k: nat :: !MatchSpan(code, a, k))
    ensures r.Some? && !StartsWith(code, Root) && Contains(code, Root) ==>
              exists a: nat, k: nat :: LeftmostGreedy(code, a, k) && r.value == code[a..k + 1]
    ensures r.Some? ==> forall i :: 0 <= i < |r.value| ==> r.value[i] in code
  {
    if StartsWith(code, Root) then Some(code)
    else if Contains(code, Root) then
      match Search(code)
      case Some((a, k)) => Some(code[a..k + 1])
      case None => None
    else Some(code)
  }

  /** Extracting again from extracted code changes nothing: it already starts with `df[` or has none. */
  lemma ExtractIdempotent(code: string)
    requires Extract(code).Some?
    ensures Extract(Extract(code).value) == Extract(code)
  {
    var e := Extract(code).value;
    if !StartsWith(code, Root) && Contains(code, Root) {
      var a: nat, k: nat :| LeftmostGreedy(code, a, k) && e == code[a..k + 1];
      assert e[..|Root|] == code[a..a + |Root|];
    }
  }

  /** No extracted expression contains a backtick. */
  lemma ExtractedHasNoBacktick(raw: string)
    requires Extract(Clean(raw)).Some?
    ensures '`' !in Extract(Clean(raw)).value
  {
  }

  /** On text with no whitespace at its ends and no backtick, cleaning only removes `python`. */
  lemma CleanPlain(s: string)
    requires IsStripped(s) && '`' !in s
    ensures Clean(s) == ReplaceAll(s, "python", "")
  {
    ContainsChar(s, '`');
    ReplaceAllAbsent(s, "`", "");
  }

  /**
    A worked example, not a general lemma: `p` is fixed to `python` by the requires.
    Removal of `python` is a single pass: in `pypythonthon` the removal joins the
    two halves into a new `python`, which stays.
   */
  lemma PythonSurvivesClean(p: string)
    requires p == "python"
    ensures Clean("py" + p + "thon") == p
  {
    PlainSample(p);
    CleanPlain("py" + p + "thon");
    OnePass(p);
  }

  lemma PlainSample(p: string)
    requires p == "python"
    ensures IsStripped("py" + p + "thon") && '`' !in "py" + p + "thon"
  {
    var s := "py" + p + "thon";
    assert s[0] == 'p' && s[|s| - 1] == 'n';
  }

  /** Worked example (`p` is `python`): the removal pass over `pypythonthon` takes the inner `python` and never looks back. */
  lemma OnePass(p: string)
    requires p == "python"
    ensures ReplaceAll("py" + p + "thon", p, "") == p
  {
    var t := "thon";
    assert !StartsWith(t, p);
    ReplaceAllAbsent(t, p, "");
    ReplaceAtFront(t, p, "");
    assert !StartsWith(['y'] + (p + t), p) by {
      assert (['y'] + (p + t))[0] != p[0];
    }
    ReplaceSkipsChar('y', p + t, p, "");
    var s := "py" + p + t;
    assert s == ['p'] + (['y'] + (p + t));
    assert !StartsWith(s, p) by {
      assert s[2] != p[2];
    }
    ReplaceSkipsChar('p', ['y'] + (p + t), p, "");
    assert "py" == ['p', 'y'];
  }

  /** Worked example (`p` is `python`): cleaning is not idempotent, since cleaning the surviving `python` again removes it. */
  lemma CleanNotIdempotent(p: string)
    requires p == "python"
    ensures Clean(Clean("py" + p + "thon")) == ""
  {
    PythonSurvivesClean(p);
    assert IsStripped(p);
    ContainsChar(p, '`');
    ReplaceAllAbsent(p, "`", "");
    assert p + "" == p;
    ReplaceAtFront("", p, "");
  }

  /** Removing backticks takes a code fence (`fence` is three backticks) off both ends of a body without backticks. */
  lemma Unfence(body: string, fence: string)
    requires fence == "```" && '`' !in body
    ensures ReplaceAll(fence + body + fence, "`", "") == body
  {
    assert fence + body + fence == fence + (body + fence);
    ReplaceCharConcat(fence, body + fence, '`', "");
    ReplaceCharConcat(body, fence, '`', "");
    assert ReplaceAll(fence, "`", "") == "" by {
      assert fence == "`" + ("`" + ("`" + ""));
      ReplaceAtFront("", "`", "");
      ReplaceAtFront("`" + "", "`", "");
      ReplaceAtFront("`" + ("`" + ""), "`", "");
    }
    ContainsChar(body, '`');
    ReplaceAllAbsent(body, "`", "");
  }

  /**
    Cleaning a reply fenced as a Markdown code block tagged `python` leaves the
    expression between two newlines.
   */
  lemma CleanFenced(e: string, fence: string, p: string)
    requires fence == "```" && p == "python"
    requires '`' !in e && !Contains(e, p)
    ensures Clean(fence + p + "\n" + e + "\n" + fence) == "\n" + e + "\n"
  {
    var body := p + ("\n" + e + "\n");
    assert fence + p + "\n" + e + "\n" + fence == fence + body + fence;
    assert '`' !in p && '`' !in "\n";
    CleanFence(body, fence);
    DropTag(e, p);
  }

  /** Cleaning a fenced body without backticks takes the fence off and removes `python` from the body. */
  lemma CleanFence(body: string, fence: string)
    requires fence == "```" && '`' !in body
    ensures Clean(fence + body + fence) == ReplaceAll(body, "python", "")
  {
    var raw := fence + body + fence;
    assert raw[0] == '`' && raw[|raw| - 1] == '`';
    assert IsStripped(raw);
    Unfence(body, fence);
  }

  /** The language tag in front of the fenced expression is the only `python` removed. */
  lemma DropTag(e: string, p: string)
    requires p == "python" && !Contains(e, p)
    ensures ReplaceAll(p + ("\n" + e + "\n"), p, "") == "\n" + e + "\n"
  {
    var code := "\n" + e + "\n";
    ReplaceAtFront(code, p, "");
    assert code == ['\n'] + (e + "\n");
    assert !StartsWith(code, p) by {
      assert p[0] != '\n';
    }
    ReplaceSkipsChar('\n', e + "\n", p, "");
    assert !Contains(e + "\n", p) by {
      if Contains(e + "\n", p) { ContainsAppend(e, '\n', p); }
    }
    ReplaceAllAbsent(e + "\n", p, "");
  }

  /** On an expression alone on its line, between two newlines, the regex search returns that expression. */
  lemma ExtractOwnLine(e: string)
    requires StartsWith(e, Root) && |e| > |Root| && e[|e| - 1] == ']' && '\n' !in e
    ensures Extract("\n" + e + "\n") == Some(e)
  {
    var code := "\n" + e + "\n";
    assert code[1..1 + |Root|] == Root;
    assert MatchSpan(code, 1, |e|);
    assert code[1..][..|Root|] == Root;
    ContainsAt(code, Root, 1);
    assert !StartsWith(code, Root) by {
      assert code[0] == '\n';
    }
    var found := Search(code);
    var a, k := found.value.0, found.value.1;
    assert a == 1 by {
      assert a <= 1;
      assert code[0] == '\n';
    }
    assert k == |e| by {
      assert k >= |e|;
      assert code[|e| + 1] == '\n';
    }
    assert code[1..|e| + 1] == e;
  }

  /**
    A reply fenced as a Markdown code block tagged `python` yields exactly the
    fenced one-line expression, with no fence and no language tag left.
   */
  lemma FencedExpression(e: string, fence: string, p: string)
    requires fence == "```" && p == "python"
    requires StartsWith(e, Root) && |e| > |Root| && e[|e| - 1] == ']'
    requires '\n' !in e && '`' !in e && !Contains(e, p)
    ensures Extract(Clean(fence + p + "\n" + e + "\n" + fence)) == Some(e)
  {
    CleanFenced(e, fence, p);
    ExtractOwnLine(e);
  }
}
