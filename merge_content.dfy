/** The content merger: reads the gem list out of an old and a new content
    store source file, carries each old gem's body over to the new gem with
    the same title, and writes the new file back with the list rebuilt.

    The regular expressions of the source are written out as the scans that
    Python's `re` performs for them: a search is the leftmost position where
    the pattern matches, a lazy group ends at the first place where the rest
    of the pattern matches, and a greedy `\s*` followed by a non-space
    character takes the whole run of white space. */
module MergeContent {
  import opened Common

  // ---------------------------------------------------------------------
  // extract_gems

  const ListKey := "all_gems"

  /** `all_gems\s*=\s*\[` at position `i`: the index just past the bracket. */
  function ListOpenAt(s: string, i: nat): (r: Option<nat>)
    ensures r.Some? ==> i < r.value <= |s| && s[r.value - 1] == '['
    ensures r.Some? ==> OccursAt(s, ListKey, i)
  {
    if !OccursAt(s, ListKey, i) then None
    else
      var j := i + |ListKey| + SpaceRun(s[i + |ListKey|..]);
      if j >= |s| || s[j] != '=' then None
      else
        var k := j + 1 + SpaceRun(s[j + 1..]);
        if k >= |s| || s[k] != '[' then None
        else Some(k + 1)
  }

  /** The leftmost position at or after `from` where the list header matches, with its end. */
  function FirstListOpen(s: string, from: nat): (r: Option<(nat, nat)>)
    decreases |s| + 1 - from
    ensures r.Some? ==> from <= r.value.0 && ListOpenAt(s, r.value.0) == Some(r.value.1)
    ensures r.Some? ==> forall i :: from <= i < r.value.0 ==> ListOpenAt(s, i).None?
    ensures r.None? ==> forall i :: from <= i ==> ListOpenAt(s, i).None?
  {
    if from > |s| then None
    else match ListOpenAt(s, from)
      case Some(e) => Some((from, e))
      case None => FirstListOpen(s, from + 1)
  }

  /** The whole pattern matches at `i`: a list header, and a closing `\n]` after it. */
  predicate ListClosedAt(s: string, i: nat) {
    ListOpenAt(s, i).Some? && FindFrom(s, "\n]", ListOpenAt(s, i).value).Some?
  }

  /** `re.search(r'all_gems\s*=\s*\[(.*?)\n\]', s, re.DOTALL)`, searched from `from`:
      the bounds of the captured group of the leftmost match, which ends at the first
      `\n]` after the header; none exactly when the pattern matches nowhere. */
  function ListBody(s: string, from: nat): (r: Option<(nat, nat)>)
    decreases |s| + 1 - from
    ensures r.Some? ==> r.value.0 <= r.value.1 <= |s|
    ensures r.Some? ==> exists i :: from <= i && ListClosedAt(s, i) && ListOpenAt(s, i) == Some(r.value.0)
    ensures r.Some? ==> FindFrom(s, "\n]", r.value.0) == Some(r.value.1)
    ensures r.Some? ==> Contains(s, ListKey)
    ensures r.None? ==> forall i :: from <= i ==> !ListClosedAt(s, i)
  {
    if from > |s| then
      assert forall i :: from <= i ==> !OccursAt(s, ListKey, i);
      None
    else if ListClosedAt(s, from) then
      Some((ListOpenAt(s, from).value, FindFrom(s, "\n]", ListOpenAt(s, from).value).value))
    else ListBody(s, from + 1)
  }

  /** The whole pattern matches nowhere in `[lo, hi)`. */
  predicate NoMatchBetween(s: string, lo: nat, hi: nat) {
    forall p :: lo <= p < hi ==> !ListClosedAt(s, p)
  }

  /** What the search finds is the group of the leftmost position where the whole
      pattern matches. */
  lemma {:induction false} ListBodyLeftmost(s: string, from: nat)
    decreases |s| + 1 - from
    ensures ListBody(s, from).Some? ==>
      exists i :: from <= i && ListClosedAt(s, i) && ListOpenAt(s, i) == Some(ListBody(s, from).value.0)
                  && NoMatchBetween(s, from, i)
  {
    if from <= |s| {
      if ListClosedAt(s, from) {
        assert NoMatchBetween(s, from, from);
      } else {
        ListBodyLeftmost(s, from + 1);
        var r := ListBody(s, from + 1);
        assert ListBody(s, from) == r;
        if r.Some? {
          var i :| from + 1 <= i && ListClosedAt(s, i) && ListOpenAt(s, i) == Some(r.value.0)
                   && NoMatchBetween(s, from + 1, i);
          assert NoMatchBetween(s, from, i) by {
            forall p | from <= p < i ensures !ListClosedAt(s, p) {
              if p == from {
              } else {
                assert from + 1 <= p < i && NoMatchBetween(s, from + 1, i);
              }
            }
          }
        }
      }
    }
  }

  /** `\n\s*{` at position `p`: the index just past the brace. */
  function BoundaryAt(s: string, p: nat): (r: Option<nat>)
    ensures r.Some? ==> p < r.value <= |s|
  {
    if p >= |s| || s[p] != '\n' then None
    else
      var q := p + 1 + SpaceRun(s[p + 1..]);
      if q < |s| && s[q] == '{' then Some(q + 1) else None
  }

  /** The leftmost separator at or after `from`. */
  function NextBoundary(s: string, from: nat): (r: Option<(nat, nat)>)
    decreases |s| + 1 - from
    ensures r.Some? ==> from <= r.value.0 < r.value.1 <= |s|
    ensures r.Some? ==> BoundaryAt(s, r.value.0) == Some(r.value.1)
    ensures r.Some? ==> forall p :: from <= p < r.value.0 ==> BoundaryAt(s, p).None?
    ensures r.None? ==> forall p :: from <= p ==> BoundaryAt(s, p).None?
  {
    if from > |s| then None
    else match BoundaryAt(s, from)
      case Some(e) => Some((from, e))
      case None => NextBoundary(s, from + 1)
  }

  /** `re.split(r'\n\s*{', s)`: the pieces between the separators, left to right. */
  function ReSplit(s: string): (r: seq<string>)
    decreases |s|
    ensures |r| >= 1
  {
    match NextBoundary(s, 0)
      case None => [s]
      case Some((p, e)) => [s[..p]] + ReSplit(s[e..])
  }

  /** A block that does not start with a brace after stripping gets one put back. */
  function Restore(block: string): string {
    if "{" <= Strip(block) then block else "{" + block
  }

  /** The blocks `extract_gems` keeps: the non-blank ones, restored, in order. */
  function KeptBlocks(blocks: seq<string>): seq<string>
    decreases |blocks|
  {
    if blocks == [] then []
    else
      var last := blocks[|blocks| - 1];
      KeptBlocks(blocks[..|blocks| - 1]) + (if Strip(last) == "" then [] else [Restore(last)])
  }

  /** What `extract_gems` returns: nothing when the pattern matches nowhere, in
      particular when the text has no list header. */
  function ExtractedGems(content: string): (r: seq<string>)
    ensures (forall i :: !ListClosedAt(content, i)) ==> r == []
    ensures !Contains(content, ListKey) ==> r == []
  {
    match ListBody(content, 0)
      case None => []
      case Some((g, e)) => KeptBlocks(ReSplit(content[g..e]))
  }

  /** A restored block strips to text that starts with a brace. */
  lemma RestoreStartsWithBrace(block: string)
    requires Strip(block) != ""
    ensures Strip(Restore(block)) != "" && "{" <= Strip(Restore(block))
  {
    if !("{" <= Strip(block)) {
      var b := "{" + block;
      assert b[0] == '{' && !IsSpace(b[0]);
      assert SpaceRun(b) == 0;
      assert !AllSpace(b) by { assert !IsSpace(b[0]); }
    }
  }

  /** Every block kept is non-blank and starts with a brace once stripped, and
      every non-blank block is kept, in order. */
  lemma {:induction false} KeptBlocksShape(blocks: seq<string>)
    ensures forall b :: b in KeptBlocks(blocks) ==> Strip(b) != "" && "{" <= Strip(b)
    ensures |KeptBlocks(blocks)| <= |blocks|
    ensures (forall b :: b in blocks ==> Strip(b) != "") ==> |KeptBlocks(blocks)| == |blocks|
    decreases |blocks|
  {
    if blocks != [] {
      var init, last := blocks[..|blocks| - 1], blocks[|blocks| - 1];
      KeptBlocksShape(init);
      if Strip(last) != "" {
        RestoreStartsWithBrace(last);
      }
      assert forall b :: b in init ==> b in blocks;
    }
  }

  /** The gems extracted always strip to non-blank text that starts with a brace. */
  lemma ExtractedGemsShape(content: string)
    ensures forall b :: b in ExtractedGems(content) ==> Strip(b) != "" && "{" <= Strip(b)
  {
    match ListBody(content, 0)
      case None =>
      case Some((g, e)) => KeptBlocksShape(ReSplit(content[g..e]));
  }

  /** `extract_gems`: split the list body, then keep the blocks. */
  method ExtractGems(content: string) returns (gems: seq<string>)
    ensures gems == ExtractedGems(content)
  {
    var body := ListBody(content, 0);
    if body.None? {
      return [];
    }
    var (g, e) := body.value;
    gems := KeepBlocks(ReSplit(content[g..e]));
  }

  /** The loop over the split blocks. */
  method KeepBlocks(blocks: seq<string>) returns (gems: seq<string>)
    ensures gems == KeptBlocks(blocks)
  {
    gems := [];
    var i := 0;
    while i < |blocks|
      invariant 0 <= i <= |blocks|
      invariant gems == KeptBlocks(blocks[..i])
    {
      KeptStep(blocks, i);
      var block := blocks[i];
      var stripped := Strip(block);
      if stripped != "" {
        if !("{" <= stripped) {
          block := "{" + block;
        }
        gems := gems + [block];
      }
      i := i + 1;
    }
    assert blocks[..i] == blocks;
  }

  lemma KeptStep(blocks: seq<string>, i: nat)
    requires i < |blocks|
    ensures KeptBlocks(blocks[..i + 1]) == KeptBlocks(blocks[..i])
      + (if Strip(blocks[i]) == "" then [] else [Restore(blocks[i])])
  {
    var next := blocks[..i + 1];
    assert next[..|next| - 1] == blocks[..i] && next[|next| - 1] == blocks[i];
  }

  // ---------------------------------------------------------------------
  // get_gem_title

  const TitleKey := "'title':"

  predicate IsQuote(c: char) { c == '\'' || c == '"' }

  /** `t` is the group `(.+?)` followed by a closing quote, read from `start`: at least
      one character, no newline, ending just before the first quote after its first
      character. */
  predicate QuotedTitleAt(s: string, start: nat, t: string) {
    && 1 <= |t| && start + |t| < |s| && t == s[start..start + |t|]
    && IsQuote(s[start + |t|]) && '\n' !in t
    && forall m :: start < m < start + |t| ==> !IsQuote(s[m])
  }

  /** The lazy `(.+?)['\"]` without DOTALL: `s[start..e]` has been consumed;
      the group ends at the first quote after at least one character, and no
      character of it may be a newline. */
  function TitleGroup(s: string, start: nat, e: nat): (r: Option<string>)
    requires start <= e
    decreases |s| - e
    ensures r.Some? ==> |r.value| >= 1 && '\n' !in r.value
    ensures r.Some? ==> start + |r.value| < |s| && r.value == s[start..start + |r.value|] && IsQuote(s[start + |r.value|])
    ensures r.Some? ==> forall m :: start < m < start + |r.value| && e <= m ==> !IsQuote(s[m])
    ensures e <= |s| && '\n' in s[start..e] ==> r.None?
  {
    if e >= |s| then None
    else if e > start && '\n' in s[start..e] then None
    else if e > start && IsQuote(s[e]) then
      Some(s[start..e])
    else TitleGroup(s, start, e + 1)
  }

  /** `'title':\s*['\"](.+?)['\"]` at position `i`: after the key and a white-space
      run comes an opening quote, and the group read after it. */
  function TitleAt(s: string, i: nat): (r: Option<string>)
    ensures r.Some? ==> OccursAt(s, TitleKey, i)
  {
    if !OccursAt(s, TitleKey, i) then None
    else
      var j := i + |TitleKey| + SpaceRun(s[i + |TitleKey|..]);
      if j >= |s| || !IsQuote(s[j]) then None
      else TitleGroup(s, j + 1, j + 1)
  }

  /** A title found at `i` follows the key, a white-space run and an opening quote, and
      is a single non-empty line ending just before the first quote after its first
      character. */
  lemma TitleAtShape(s: string, i: nat)
    ensures TitleAt(s, i).Some? ==> TitleShapeAt(s, i, TitleAt(s, i).value)
  {
  }

  /** The key at `i`, a white-space run, an opening quote, then the group `t`. */
  predicate TitleShapeAt(s: string, i: nat, t: string) {
    && OccursAt(s, TitleKey, i)
    && var j := i + |TitleKey| + SpaceRun(s[i + |TitleKey|..]);
       j < |s| && IsQuote(s[j]) && QuotedTitleAt(s, j + 1, t)
  }

  function FirstTitle(s: string, from: nat): (r: Option<string>)
    decreases |s| + 1 - from
    ensures r.Some? ==> |r.value| >= 1 && '\n' !in r.value
    ensures r.Some? ==> exists i :: from <= i && TitleAt(s, i) == r && OccursAt(s, TitleKey, i)
    ensures r.None? ==> forall i :: from <= i ==> TitleAt(s, i).None?
  {
    if from > |s| then None
    else if TitleAt(s, from).Some? then TitleAt(s, from)
    else FirstTitle(s, from + 1)
  }

  /** The title pattern matches nowhere in `[lo, hi)`. */
  predicate NoTitleBetween(s: string, lo: nat, hi: nat) {
    forall p :: lo <= p < hi ==> TitleAt(s, p).None?
  }

  /** The title found is the one of the leftmost position where the pattern matches. */
  lemma {:induction false} FirstTitleLeftmost(s: string, from: nat)
    decreases |s| + 1 - from
    ensures FirstTitle(s, from).Some? ==>
      exists i :: from <= i && TitleAt(s, i) == FirstTitle(s, from) && NoTitleBetween(s, from, i)
  {
    if from <= |s| {
      if TitleAt(s, from).Some? {
        assert NoTitleBetween(s, from, from);
      } else {
        FirstTitleLeftmost(s, from + 1);
        var r := FirstTitle(s, from + 1);
        assert FirstTitle(s, from) == r;
        if r.Some? {
          var i :| from + 1 <= i && TitleAt(s, i) == r && NoTitleBetween(s, from + 1, i);
          assert NoTitleBetween(s, from, i) by {
            forall p | from <= p < i ensures TitleAt(s, p).None? {
              if p == from {
              } else {
                assert from + 1 <= p < i && NoTitleBetween(s, from + 1, i);
              }
            }
          }
        }
      }
    }
  }

  /** `get_gem_title`: the first quoted title, a single non-empty line that follows the key. */
  function GetGemTitle(s: string): (r: Option<string>)
    ensures r.Some? ==> |r.value| >= 1 && '\n' !in r.value
    ensures r.Some? ==> Contains(s, TitleKey)
    ensures !Contains(s, TitleKey) ==> r.None?
  {
    FirstTitle(s, 0)
  }

  /** The title is the group of the leftmost match of the title pattern: after the key,
      a white-space run and a quote, a single non-empty line ending at the first quote
      after its first character. It is None exactly when the pattern matches nowhere. */
  lemma GetGemTitleRule(s: string) returns (i: nat)
    ensures GetGemTitle(s).Some? ==> TitleAt(s, i) == GetGemTitle(s) && NoTitleBetween(s, 0, i)
    ensures GetGemTitle(s).Some? ==> TitleShapeAt(s, i, GetGemTitle(s).value)
    ensures GetGemTitle(s).None? <==> forall k :: TitleAt(s, k).None?
  {
    FirstTitleLeftmost(s, 0);
    i := 0;
    if GetGemTitle(s).Some? {
      i :| TitleAt(s, i) == GetGemTitle(s) && NoTitleBetween(s, 0, i);
      TitleAtShape(s, i);
    }
  }

  // ---------------------------------------------------------------------
  // get_gem_content and replace_content_in_gem

  const ContentKey := "'content':"
  const DoubleQuotes := "\"\"\""
  const SingleQuotes := "'''"

  /** `'content':\s*` and then the marker `q` at position `i`: the index just past the marker. */
  function OpenEnd(s: string, i: nat, q: string): (r: Option<nat>)
    ensures r.Some? ==> OccursAt(s, ContentKey, i) && i + |ContentKey| + |q| <= r.value <= |s|
    ensures r.Some? ==> OccursAt(s, q, r.value - |q|)
  {
    if !OccursAt(s, ContentKey, i) then None
    else
      var j := i + |ContentKey| + SpaceRun(s[i + |ContentKey|..]);
      if OccursAt(s, q, j) then Some(j + |q|) else None
  }

  /** `re.search(r"'content':\s*" + q, s)` from `from`: the match's position and end. */
  function FirstOpen(s: string, q: string, from: nat): (r: Option<(nat, nat)>)
    decreases |s| + 1 - from
    ensures r.Some? ==> from <= r.value.0 && OpenEnd(s, r.value.0, q) == Some(r.value.1)
    ensures r.Some? ==> forall i :: from <= i < r.value.0 ==> OpenEnd(s, i, q).None?
  {
    if from > |s| then None
    else match OpenEnd(s, from, q)
      case Some(e) => Some((from, e))
      case None => FirstOpen(s, q, from + 1)
  }

  /** The whole pattern `'content':\s*` q `(.*?)` q matches at `i`: an opening marker,
      and a closing one after it. */
  predicate ContentClosedAt(s: string, i: nat, q: string)
    requires |q| > 0
  {
    OpenEnd(s, i, q).Some? && FindFrom(s, q, OpenEnd(s, i, q).value).Some?
  }

  /** The group of the match at `i`: the text from the opening marker up to the first
      closing marker after it, which the group itself does not contain. */
  function ContentGroup(s: string, i: nat, q: string): string
    requires |q| > 0 && ContentClosedAt(s, i, q)
  {
    s[OpenEnd(s, i, q).value..FindFrom(s, q, OpenEnd(s, i, q).value).value]
  }

  /** The pattern matches nowhere in `[lo, hi)`. */
  predicate NoContentBetween(s: string, q: string, lo: nat, hi: nat)
    requires |q| > 0
  {
    forall p :: lo <= p < hi ==> !ContentClosedAt(s, p, q)
  }

  /** `re.search(r"'content':\s*" + q + "(.*?)" + q, s, re.DOTALL)` from `from`: the
      group of a position where the whole pattern matches; none exactly when it matches
      nowhere. */
  function ContentMatch(s: string, q: string, from: nat): (r: Option<string>)
    requires |q| > 0
    decreases |s| + 1 - from
    ensures r.Some? ==> exists i :: from <= i && ContentClosedAt(s, i, q) && r.value == ContentGroup(s, i, q)
    ensures r.None? ==> forall i :: from <= i ==> !ContentClosedAt(s, i, q)
  {
    if from > |s| then
      assert forall i :: from <= i ==> OpenEnd(s, i, q).None?;
      None
    else if ContentClosedAt(s, from, q) then Some(ContentGroup(s, from, q))
    else ContentMatch(s, q, from + 1)
  }

  /** What the search finds is the group of the leftmost position where the whole
      pattern matches. */
  lemma {:induction false} ContentMatchLeftmost(s: string, q: string, from: nat)
    requires |q| > 0
    decreases |s| + 1 - from
    ensures ContentMatch(s, q, from).Some? ==>
      exists i :: from <= i && ContentClosedAt(s, i, q) && ContentMatch(s, q, from).value == ContentGroup(s, i, q)
                  && NoContentBetween(s, q, from, i)
  {
    if from <= |s| {
      if ContentClosedAt(s, from, q) {
        assert NoContentBetween(s, q, from, from);
      } else {
        ContentMatchLeftmost(s, q, from + 1);
        var r := ContentMatch(s, q, from + 1);
        assert ContentMatch(s, q, from) == r;
        if r.Some? {
          var i :| from + 1 <= i && ContentClosedAt(s, i, q) && r.value == ContentGroup(s, i, q)
                   && NoContentBetween(s, q, from + 1, i);
          assert NoContentBetween(s, q, from, i) by {
            forall p | from <= p < i ensures !ContentClosedAt(s, p, q) {
              if p == from {
              } else {
                assert from + 1 <= p < i && NoContentBetween(s, q, from + 1, i);
              }
            }
          }
        }
      }
    }
  }

  /** `get_gem_content`: the triple-double-quoted body if there is one, else the
      triple-single-quoted one. */
  function GetGemContent(s: string): Option<string> {
    var d := ContentMatch(s, DoubleQuotes, 0);
    if d.Some? then d else ContentMatch(s, SingleQuotes, 0)
  }

  /** The replacement between the first opening marker and the next closing one;
      the text is returned unchanged when either is missing. */
  function ReplaceWith(g: string, c: string, q: string): string
    requires |q| > 0
  {
    match FirstOpen(g, q, 0)
      case None => g
      case Some((_, e)) =>
        (match FindFrom(g, q, e)
          case None => g
          case Some(f) => g[..e] + c + g[f..])
  }

  /** `replace_content_in_gem`: the marker is chosen by whether `\"\"\"` occurs anywhere. */
  function ReplaceContentInGem(g: string, c: string): string {
    if Contains(g, DoubleQuotes) then ReplaceWith(g, c, DoubleQuotes)
    else ReplaceWith(g, c, SingleQuotes)
  }

  /** The end of a white-space run is decided by the text up to its first non-space character. */
  lemma SpaceRunAgree(a: string, b: string, t: nat)
    requires t < |a| && t < |b| && a[..t + 1] == b[..t + 1] && !IsSpace(a[t])
    ensures SpaceRun(a) == SpaceRun(b) <= t
  {
    var na, nb := SpaceRun(a), SpaceRun(b);
    assert forall x :: 0 <= x <= t ==> a[x] == b[x] by {
      forall x | 0 <= x <= t ensures a[x] == b[x] {
        assert a[..t + 1][x] == b[..t + 1][x];
      }
    }
    assert forall x :: 0 <= x < na ==> IsSpace(a[x]) by {
      forall x | 0 <= x < na ensures IsSpace(a[x]) {
        assert a[..na][x] == a[x];
      }
    }
    assert forall x :: 0 <= x < nb ==> IsSpace(b[x]) by {
      forall x | 0 <= x < nb ensures IsSpace(b[x]) {
        assert b[..nb][x] == b[x];
      }
    }
  }

  /** No proper suffix of `'content':` starts with the two characters `'c`. */
  lemma ContentKeyNoOverlap()
    ensures forall d :: 1 <= d < |ContentKey| ==>
      !(ContentKey[d] == '\'' && (d + 1 == |ContentKey| || ContentKey[d + 1] == 'c'))
  {
    assert ContentKey == ['\'', 'c', 'o', 'n', 't', 'e', 'n', 't', '\'', ':'];
  }

  /** Two matches of `'content':` never overlap. */
  lemma ContentKeyApart(s: string, k: nat, i: nat)
    requires k < i && OccursAt(s, ContentKey, k) && OccursAt(s, ContentKey, i)
    ensures k + |ContentKey| <= i
  {
    var n := |ContentKey|;
    assert n == 10 && ContentKey[0] == '\'' && ContentKey[1] == 'c';
    assert s[i] == '\'' by {
      assert s[i..i + n][0] == s[i];
    }
    assert s[i + 1] == 'c' by {
      assert s[i..i + n][1] == s[i + 1];
    }
    ContentKeyNoOverlap();
    assert forall j :: k <= j < k + n ==> s[j] == ContentKey[j - k] by {
      forall j | k <= j < k + n
        ensures s[j] == ContentKey[j - k]
      {
        assert s[k..k + n][j - k] == s[j];
      }
    }
  }

  /** A match of `'content':` at `k`, at or before the opening at `i`, is followed by a
      non-space character no later than the opening marker. */
  lemma StopBeforeMarker(g: string, k: nat, i: nat, e: nat) returns (t: nat)
    requires OpenEnd(g, i, DoubleQuotes) == Some(e) && k <= i && OccursAt(g, ContentKey, k)
    ensures k + |ContentKey| <= t <= e - 3 && !IsSpace(g[t])
  {
    var n := |ContentKey|;
    if k < i {
      ContentKeyApart(g, k, i);
      t := i;
      assert g[i] == g[i..i + n][0];
    } else {
      t := e - 3;
      assert g[t] == g[t..t + 3][0];
    }
  }

  /** Whether `pat` matches at `i` is decided by the text up to the match's end. */
  lemma OccursAgree(a: string, b: string, pat: string, i: nat, e: nat)
    requires i + |pat| <= e <= |a| && e <= |b| && a[..e] == b[..e]
    ensures OccursAt(a, pat, i) == OccursAt(b, pat, i)
  {
    assert a[i..i + |pat|] == a[..e][i..i + |pat|];
    assert b[i..i + |pat|] == b[..e][i..i + |pat|];
  }

  /** Whether an opening marker matches at `k`, for `k` up to the first match at
      `i`, is decided by the text before that match's end. */
  lemma OpenEndAgree(g: string, r: string, k: nat, i: nat, e: nat)
    requires OpenEnd(g, i, DoubleQuotes) == Some(e) && k <= i
    requires e <= |r| && r[..e] == g[..e]
    ensures OpenEnd(r, k, DoubleQuotes) == OpenEnd(g, k, DoubleQuotes)
  {
    OccursAgree(g, r, ContentKey, k, e);
    if OccursAt(g, ContentKey, k) {
      var t := StopBeforeMarker(g, k, i, e);
      var j := RunAgree(g, r, k + |ContentKey|, t, e);
      OccursAgree(g, r, DoubleQuotes, j, e);
      OpenEndAt(g, k, j);
      OpenEndAt(r, k, j);
    } else {
      assert OpenEnd(g, k, DoubleQuotes).None? && OpenEnd(r, k, DoubleQuotes).None?;
    }
  }

  lemma OpenEndAt(s: string, k: nat, j: nat)
    requires OccursAt(s, ContentKey, k) && k + |ContentKey| <= |s| && j == k + |ContentKey| + SpaceRun(s[k + |ContentKey|..])
    ensures OpenEnd(s, k, DoubleQuotes) == if OccursAt(s, DoubleQuotes, j) then Some(j + 3) else None
  {
  }

  /** The white-space runs from `p` in two texts that agree up to `e` end at the same
      place when a non-space character comes before `e`. */
  lemma RunAgree(g: string, r: string, p: nat, t: nat, e: nat) returns (j: nat)
    requires p <= t < e <= |g| && e <= |r| && r[..e] == g[..e] && !IsSpace(g[t])
    ensures j == p + SpaceRun(g[p..]) == p + SpaceRun(r[p..]) && j <= t
  {
    var a, b := g[p..], r[p..];
    assert a[..t - p + 1] == b[..t - p + 1] by {
      assert a[..t - p + 1] == g[..e][p..t + 1];
      assert b[..t - p + 1] == r[..e][p..t + 1];
    }
    SpaceRunAgree(a, b, t - p);
    j := p + SpaceRun(a);
  }

  /** The search for a complete match skips the positions where no opening marker matches. */
  lemma {:induction false} ContentMatchSkips(s: string, from: nat, i: nat)
    requires from <= i
    requires forall k :: from <= k < i ==> OpenEnd(s, k, DoubleQuotes).None?
    ensures ContentMatch(s, DoubleQuotes, from) == ContentMatch(s, DoubleQuotes, i)
    decreases i - from
  {
    if from < i {
      assert OpenEnd(s, from, DoubleQuotes).None?;
      assert ContentMatch(s, DoubleQuotes, from) == ContentMatch(s, DoubleQuotes, from + 1);
      ContentMatchSkips(s, from + 1, i);
    }
  }

  /** No triple double quote inside, and no double quote at the end. */
  predicate CleanBody(c: string) {
    !Contains(c, DoubleQuotes) && (c == [] || c[|c| - 1] != '"')
  }

  /** A body read between triple double quotes contains no triple double quote and does not end with a double quote. */
  lemma DoubleQuotedBodyClean(s: string, from: nat)
    requires ContentMatch(s, DoubleQuotes, from).Some?
    ensures CleanBody(ContentMatch(s, DoubleQuotes, from).value)
  {
    var i :| from <= i && ContentClosedAt(s, i, DoubleQuotes)
             && ContentMatch(s, DoubleQuotes, from).value == ContentGroup(s, i, DoubleQuotes);
    var e := OpenEnd(s, i, DoubleQuotes).value;
    BetweenMarkersClean(s, e, FindFrom(s, DoubleQuotes, e).value);
  }

  /** The text between a position and the next triple double quote. */
  lemma BetweenMarkersClean(s: string, e: nat, f: nat)
    requires FindFrom(s, DoubleQuotes, e) == Some(f)
    ensures CleanBody(s[e..f])
  {
    var c := s[e..f];
    forall k | 0 <= k <= |c| ensures !OccursAt(c, DoubleQuotes, k) {
      NoMarkerBefore(s, c, e, f, k);
    }
    if c != [] {
      LastBeforeMarker(s, c, e, f);
    }
  }

  lemma NoMarkerBefore(s: string, c: string, e: nat, f: nat, k: nat)
    requires FindFrom(s, DoubleQuotes, e) == Some(f) && c == s[e..f] && k <= |c|
    ensures !OccursAt(c, DoubleQuotes, k)
  {
    if k + 3 <= |c| {
      SliceOfSlice(s, e, f, k, k + 3);
      assert !OccursAt(s, DoubleQuotes, e + k);
    }
  }

  lemma LastBeforeMarker(s: string, c: string, e: nat, f: nat)
    requires FindFrom(s, DoubleQuotes, e) == Some(f) && c == s[e..f] && c != []
    ensures c[|c| - 1] != '"'
  {
    assert s[f..f + 3] == DoubleQuotes;
    assert c[|c| - 1] == s[f - 1];
    assert s[f - 1..f + 2] == [s[f - 1], s[f], s[f + 1]];
    assert !OccursAt(s, DoubleQuotes, f - 1);
  }

  /** When a marker follows a body that holds none and does not end with a double quote,
      the first triple double quote from the body's start is that marker. */
  lemma ClosingAfterBody(r: string, c: string, e: nat, m: nat)
    requires e <= m && OccursAt(r, DoubleQuotes, m) && r[e..m] == c
    requires !Contains(c, DoubleQuotes) && (c == [] || c[|c| - 1] != '"')
    ensures FindFrom(r, DoubleQuotes, e) == Some(m)
  {
    forall j | e <= j < m ensures !OccursAt(r, DoubleQuotes, j) {
      NoMarkerInBody(r, c, e, m, j);
    }
  }

  lemma NoMarkerInBody(r: string, c: string, e: nat, m: nat, j: nat)
    requires e <= j < m && OccursAt(r, DoubleQuotes, m) && r[e..m] == c
    requires !Contains(c, DoubleQuotes) && (c == [] || c[|c| - 1] != '"')
    ensures !OccursAt(r, DoubleQuotes, j)
  {
    if j + 3 <= m {
      assert !OccursAt(c, DoubleQuotes, j - e);
      SliceOfSlice(r, e, m, j - e, j - e + 3);
    } else {
      assert r[m - 1] == c[|c| - 1];
      assert r[j..j + 3][m - 1 - j] == r[m - 1];
    }
  }

  /** Putting a body into a gem that has a triple-double-quoted body and reading it
      back gives that body, as long as it holds no triple double quote and does not
      end with a double quote. */
  lemma ReplaceThenGet(g: string, c: string)
    requires FirstOpen(g, DoubleQuotes, 0).Some?
    requires FindFrom(g, DoubleQuotes, FirstOpen(g, DoubleQuotes, 0).value.1).Some?
    requires !Contains(c, DoubleQuotes) && (c == [] || c[|c| - 1] != '"')
    ensures GetGemContent(ReplaceContentInGem(g, c)) == Some(c)
  {
    var (i, e) := FirstOpen(g, DoubleQuotes, 0).value;
    var f := FindFrom(g, DoubleQuotes, e).value;
    var r := ReplacedBody(g, c, i, e, f);
    ReadBackBody(g, r, c, i, e);
  }

  /** The body placed right after `g`'s first opening marker is what is read back. */
  lemma ReadBackBody(g: string, r: string, c: string, i: nat, e: nat)
    requires FirstOpen(g, DoubleQuotes, 0) == Some((i, e))
    requires e <= |r| && r[..e] == g[..e]
    requires e + |c| <= |r| && r[e..e + |c|] == c && OccursAt(r, DoubleQuotes, e + |c|)
    requires !Contains(c, DoubleQuotes) && (c == [] || c[|c| - 1] != '"')
    ensures GetGemContent(r) == Some(c)
  {
    SearchReachesOpening(g, r, i, e);
    ReadBackFrom(r, c, i, e);
  }

  /** A search that reaches the opening at `i` unchanged reads back the body after it. */
  lemma ReadBackFrom(r: string, c: string, i: nat, e: nat)
    requires ContentMatch(r, DoubleQuotes, 0) == ContentMatch(r, DoubleQuotes, i)
    requires OpenEnd(r, i, DoubleQuotes) == Some(e)
    requires e + |c| <= |r| && r[e..e + |c|] == c && OccursAt(r, DoubleQuotes, e + |c|)
    requires !Contains(c, DoubleQuotes) && (c == [] || c[|c| - 1] != '"')
    ensures GetGemContent(r) == Some(c)
  {
    BodyAtOpening(r, c, i, e);
    DoubleQuotedFirst(r);
  }

  lemma BodyAtOpening(r: string, c: string, i: nat, e: nat)
    requires OpenEnd(r, i, DoubleQuotes) == Some(e)
    requires e + |c| <= |r| && r[e..e + |c|] == c && OccursAt(r, DoubleQuotes, e + |c|)
    requires !Contains(c, DoubleQuotes) && (c == [] || c[|c| - 1] != '"')
    ensures ContentMatch(r, DoubleQuotes, i) == Some(c)
  {
    ClosingAfterBody(r, c, e, e + |c|);
    MatchAtOpening(r, i, e, e + |c|);
  }

  lemma DoubleQuotedFirst(r: string)
    requires ContentMatch(r, DoubleQuotes, 0).Some?
    ensures GetGemContent(r) == ContentMatch(r, DoubleQuotes, 0)
  {
  }

  lemma MatchAtOpening(r: string, i: nat, e: nat, f: nat)
    requires OpenEnd(r, i, DoubleQuotes) == Some(e) && FindFrom(r, DoubleQuotes, e) == Some(f)
    ensures ContentMatch(r, DoubleQuotes, i) == Some(r[e..f])
  {
  }

  /** In a text that agrees with `g` up to the end of `g`'s first opening marker, the
      search for a body gets to that opening unchanged. */
  lemma SearchReachesOpening(g: string, r: string, i: nat, e: nat)
    requires FirstOpen(g, DoubleQuotes, 0) == Some((i, e))
    requires e <= |r| && r[..e] == g[..e]
    ensures ContentMatch(r, DoubleQuotes, 0) == ContentMatch(r, DoubleQuotes, i)
    ensures OpenEnd(r, i, DoubleQuotes) == Some(e)
  {
    forall k | 0 <= k <= i ensures OpenEnd(r, k, DoubleQuotes) == OpenEnd(g, k, DoubleQuotes) {
      OpenEndAgree(g, r, k, i, e);
    }
    ContentMatchSkips(r, 0, i);
  }

  /** The gem after the replacement, when both markers are found. */
  lemma ReplacedBody(g: string, c: string, i: nat, e: nat, f: nat) returns (r: string)
    requires FirstOpen(g, DoubleQuotes, 0) == Some((i, e)) && FindFrom(g, DoubleQuotes, e) == Some(f)
    ensures r == g[..e] + c + g[f..] == ReplaceContentInGem(g, c)
    ensures e <= |r| && r[..e] == g[..e]
    ensures r[e..e + |c|] == c && OccursAt(r, DoubleQuotes, e + |c|)
  {
    ReplaceTakesDoubleQuotes(g, c, i, e, f);
    r := g[..e] + c + g[f..];
    SliceFacts(g[..e], c, g[f..]);
    assert g[f..][..3] == g[f..f + 3];
  }

  lemma SliceFacts(a: string, b: string, d: string)
    ensures var r := a + b + d; r[..|a|] == a && r[|a|..|a| + |b|] == b && r[|a| + |b|..] == d
  {
  }

  lemma ReplaceTakesDoubleQuotes(g: string, c: string, i: nat, e: nat, f: nat)
    requires FirstOpen(g, DoubleQuotes, 0) == Some((i, e)) && FindFrom(g, DoubleQuotes, e) == Some(f)
    ensures ReplaceContentInGem(g, c) == g[..e] + c + g[f..]
  {
    assert OccursAt(g, DoubleQuotes, e - 3);
  }

  /** The marker `replace_content_in_gem` works with. */
  function MarkerOf(g: string): (q: string)
    ensures |q| == 3
  {
    if Contains(g, DoubleQuotes) then DoubleQuotes else SingleQuotes
  }

  /** Without an opening marker, or without a closing one after it, the gem is returned unchanged. */
  lemma ReplaceUnchanged(g: string, c: string)
    requires var q := MarkerOf(g);
      FirstOpen(g, q, 0).None? || FindFrom(g, q, FirstOpen(g, q, 0).value.1).None?
    ensures ReplaceContentInGem(g, c) == g
  {
  }

  /** With both markers found, the result is the gem up to and including the opening
      marker, then the new body, then the gem from the closing marker on; the prefix and
      the suffix are the gem's own text. */
  lemma ReplaceSplices(g: string, c: string)
    requires var q := MarkerOf(g);
      FirstOpen(g, q, 0).Some? && FindFrom(g, q, FirstOpen(g, q, 0).value.1).Some?
    ensures var q := MarkerOf(g);
      var e := FirstOpen(g, q, 0).value.1;
      var f := FindFrom(g, q, e).value;
      var r := ReplaceContentInGem(g, c);
      && e <= f && OccursAt(g, q, e - 3) && OccursAt(g, q, f)
      && r == g[..e] + c + g[f..]
      && r[..e] == g[..e] && r[e..e + |c|] == c && r[e + |c|..] == g[f..]
  {
    var q := MarkerOf(g);
    var e := FirstOpen(g, q, 0).value.1;
    var f := FindFrom(g, q, e).value;
    SliceFacts(g[..e], c, g[f..]);
  }

  /** A triple-double-quoted body is preferred: when one is present anywhere, the result
      is the group of the leftmost `"""` match; only when none is present does the
      leftmost `'''` match count; the result is None exactly when neither pattern matches. */
  lemma GetGemContentRule(s: string)
    ensures (exists i :: ContentClosedAt(s, i, DoubleQuotes)) ==>
      exists i :: ContentClosedAt(s, i, DoubleQuotes) && GetGemContent(s) == Some(ContentGroup(s, i, DoubleQuotes))
                  && NoContentBetween(s, DoubleQuotes, 0, i)
    ensures (forall i :: !ContentClosedAt(s, i, DoubleQuotes)) && (exists i :: ContentClosedAt(s, i, SingleQuotes)) ==>
      exists i :: ContentClosedAt(s, i, SingleQuotes) && GetGemContent(s) == Some(ContentGroup(s, i, SingleQuotes))
                  && NoContentBetween(s, SingleQuotes, 0, i)
    ensures GetGemContent(s).None? <==>
      forall i :: !ContentClosedAt(s, i, DoubleQuotes) && !ContentClosedAt(s, i, SingleQuotes)
  {
    ContentMatchLeftmost(s, DoubleQuotes, 0);
    ContentMatchLeftmost(s, SingleQuotes, 0);
  }

  // ---------------------------------------------------------------------
  // main: the content map and the merge

  /** `old_content_map`: title to body for every old gem whose title and body are
      both non-empty; a later gem with the same title wins. */
  function ContentMap(gems: seq<string>): map<string, string>
    decreases |gems|
  {
    if gems == [] then map[]
    else
      var m := ContentMap(gems[..|gems| - 1]);
      var last := gems[|gems| - 1];
      var t, c := GetGemTitle(last), GetGemContent(last);
      if Truthy(t) && Truthy(c) then m[t.value := c.value] else m
  }

  /** The gem gives the map an entry for `title`. */
  predicate Provides(g: string, title: string) {
    GetGemTitle(g) == Some(title) && Truthy(GetGemContent(g))
  }

  /** Every entry of the map comes from the last old gem that gives that title, and is
      that gem's non-empty body. */
  lemma {:induction false} ContentMapSource(gems: seq<string>, title: string) returns (j: nat)
    requires title in ContentMap(gems)
    ensures j < |gems| && Provides(gems[j], title)
    ensures GetGemContent(gems[j]) == Some(ContentMap(gems)[title])
    ensures forall k :: j < k < |gems| ==> !Provides(gems[k], title)
    decreases |gems|
  {
    var init := gems[..|gems| - 1];
    if Provides(gems[|gems| - 1], title) {
      j := |gems| - 1;
      ContentMapFromLast(gems, title);
    } else {
      ContentMapLast(gems, title);
      j := ContentMapSource(init, title);
      assert gems[j] == init[j];
      assert ContentMap(gems)[title] == ContentMap(init)[title];
      forall k | j < k < |gems| ensures !Provides(gems[k], title) {
        if k < |init| {
          assert gems[k] == init[k];
        } else {
          assert k == |gems| - 1;
        }
      }
    }
  }

  lemma ContentMapFromLast(gems: seq<string>, title: string)
    requires gems != [] && Provides(gems[|gems| - 1], title)
    ensures title in ContentMap(gems) && GetGemContent(gems[|gems| - 1]) == Some(ContentMap(gems)[title])
  {
    var last := gems[|gems| - 1];
    var t, c := GetGemTitle(last), GetGemContent(last);
    assert t == Some(title) && Truthy(c);
    assert ContentMap(gems) == ContentMap(gems[..|gems| - 1])[title := c.value];
  }

  /** The last old gem sets the entry for its title and leaves the others alone. */
  lemma ContentMapLast(gems: seq<string>, title: string)
    requires gems != []
    ensures var init, last := gems[..|gems| - 1], gems[|gems| - 1];
      && (Provides(last, title) ==> title in ContentMap(gems) && Some(ContentMap(gems)[title]) == GetGemContent(last))
      && (!Provides(last, title) ==> (title in ContentMap(gems) <==> title in ContentMap(init)))
      && (!Provides(last, title) && title in ContentMap(init) ==> ContentMap(gems)[title] == ContentMap(init)[title])
  {
  }

  /** An old gem with a title and a non-empty body always gives the map an entry for that title. */
  lemma {:induction false} ContentMapHasTitles(gems: seq<string>, j: nat)
    requires j < |gems| && Truthy(GetGemTitle(gems[j])) && Truthy(GetGemContent(gems[j]))
    ensures GetGemTitle(gems[j]).value in ContentMap(gems)
    decreases |gems|
  {
    if j < |gems| - 1 {
      assert gems[..|gems| - 1][j] == gems[j];
      ContentMapHasTitles(gems[..|gems| - 1], j);
    }
  }

  /** One new gem after the merge: its body is replaced when its title is in the map. */
  function MergeOne(m: map<string, string>, g: string): string {
    var t := GetGemTitle(g);
    if Truthy(t) && t.value in m then ReplaceContentInGem(g, m[t.value]) else g
  }

  function Merged(m: map<string, string>, gems: seq<string>): seq<string>
    decreases |gems|
  {
    if gems == [] then [] else Merged(m, gems[..|gems| - 1]) + [MergeOne(m, gems[|gems| - 1])]
  }

  /** How many new gems found their title in the map. */
  function Matched(m: map<string, string>, gems: seq<string>): nat
    decreases |gems|
  {
    if gems == [] then 0
    else
      var t := GetGemTitle(gems[|gems| - 1]);
      Matched(m, gems[..|gems| - 1]) + (if Truthy(t) && t.value in m then 1 else 0)
  }

  /** The titles of the new gems that did not, in order. */
  function Unmatched(m: map<string, string>, gems: seq<string>): seq<string>
    decreases |gems|
  {
    if gems == [] then []
    else
      var t := GetGemTitle(gems[|gems| - 1]);
      Unmatched(m, gems[..|gems| - 1]) + (if Truthy(t) && t.value !in m then [t.value] else [])
  }

  /** The merge keeps the number and the order of the new gems, and changes a gem only
      when its title is a key of the map. Matched and unmatched gems are counted
      apart, and no unmatched title is a key. */
  lemma MergedShape(m: map<string, string>, gems: seq<string>)
    ensures |Merged(m, gems)| == |gems|
    ensures forall i :: 0 <= i < |gems| ==> Merged(m, gems)[i] == MergeOne(m, gems[i])
    ensures forall i :: 0 <= i < |gems| && Merged(m, gems)[i] != gems[i] ==>
      GetGemTitle(gems[i]).Some? && GetGemTitle(gems[i]).value in m
    ensures Matched(m, gems) + |Unmatched(m, gems)| <= |gems|
    ensures forall t :: t in Unmatched(m, gems) ==> t !in m && t != ""
  {
    MergedPointwise(m, gems);
    UnmatchedFacts(m, gems);
  }

  lemma {:induction false} MergedPointwise(m: map<string, string>, gems: seq<string>)
    ensures |Merged(m, gems)| == |gems|
    ensures forall i :: 0 <= i < |gems| ==> Merged(m, gems)[i] == MergeOne(m, gems[i])
    decreases |gems|
  {
    if gems != [] {
      var init := gems[..|gems| - 1];
      MergedPointwise(m, init);
      forall i | 0 <= i < |gems| ensures Merged(m, gems)[i] == MergeOne(m, gems[i]) {
        if i < |init| {
          assert gems[i] == init[i];
        }
      }
    }
  }

  lemma {:induction false} UnmatchedFacts(m: map<string, string>, gems: seq<string>)
    ensures Matched(m, gems) + |Unmatched(m, gems)| <= |gems|
    ensures forall t :: t in Unmatched(m, gems) ==> t !in m && t != ""
    decreases |gems|
  {
    if gems != [] {
      UnmatchedFacts(m, gems[..|gems| - 1]);
    }
  }

  /** A new gem with a triple-double-quoted body whose title maps to a body read from an
      old triple-double-quoted string gets exactly that body. */
  lemma MergeCarriesBody(m: map<string, string>, g: string)
    requires Truthy(GetGemTitle(g)) && GetGemTitle(g).value in m
    requires FirstOpen(g, DoubleQuotes, 0).Some?
    requires FindFrom(g, DoubleQuotes, FirstOpen(g, DoubleQuotes, 0).value.1).Some?
    requires exists src :: ContentMatch(src, DoubleQuotes, 0) == Some(m[GetGemTitle(g).value])
    ensures GetGemContent(MergeOne(m, g)) == Some(m[GetGemTitle(g).value])
  {
    var body := m[GetGemTitle(g).value];
    var src :| ContentMatch(src, DoubleQuotes, 0) == Some(body);
    DoubleQuotedBodyClean(src, 0);
    ReplaceThenGet(g, body);
  }

  /** The loop that builds `old_content_map`. */
  method BuildContentMap(oldGems: seq<string>) returns (m: map<string, string>)
    ensures m == ContentMap(oldGems)
  {
    m := map[];
    var i := 0;
    while i < |oldGems|
      invariant 0 <= i <= |oldGems|
      invariant m == ContentMap(oldGems[..i])
    {
      ContentMapStep(oldGems, i);
      var title := GetGemTitle(oldGems[i]);
      var content := GetGemContent(oldGems[i]);
      if Truthy(title) && Truthy(content) {
        m := m[title.value := content.value];
      }
      i := i + 1;
    }
    assert oldGems[..i] == oldGems;
  }

  lemma ContentMapStep(gems: seq<string>, i: nat)
    requires i < |gems|
    ensures var t, c := GetGemTitle(gems[i]), GetGemContent(gems[i]);
      ContentMap(gems[..i + 1]) == if Truthy(t) && Truthy(c) then ContentMap(gems[..i])[t.value := c.value] else ContentMap(gems[..i])
  {
    assert gems[..i + 1][..i] == gems[..i];
  }

  /** The merge loop of `main`, with its two tallies. */
  method MergeGems(m: map<string, string>, newGems: seq<string>)
    returns (merged: seq<string>, matched: nat, unmatched: seq<string>)
    ensures merged == Merged(m, newGems)
    ensures matched == Matched(m, newGems) && unmatched == Unmatched(m, newGems)
  {
    merged, matched, unmatched := [], 0, [];
    var i := 0;
    while i < |newGems|
      invariant 0 <= i <= |newGems|
      invariant merged == Merged(m, newGems[..i])
      invariant matched == Matched(m, newGems[..i]) && unmatched == Unmatched(m, newGems[..i])
    {
      assert newGems[..i + 1][..i] == newGems[..i];
      var gemText := newGems[i];
      var title := GetGemTitle(gemText);
      if Truthy(title) && title.value in m {
        merged := merged + [ReplaceContentInGem(gemText, m[title.value])];
        matched := matched + 1;
      } else {
        merged := merged + [gemText];
        if Truthy(title) {
          unmatched := unmatched + [title.value];
        }
      }
      i := i + 1;
    }
    assert newGems[..i] == newGems;
  }

  // ---------------------------------------------------------------------
  // main: rebuilding the file

  /** `re.split(r'all_gems\s*=\s*\[', s)[0]`: the text before the first list header. */
  function PreGems(s: string): (r: string)
    ensures r <= s
  {
    match FirstListOpen(s, 0)
      case None => s
      case Some((i, _)) => s[..i]
  }

  /** The last newline of `t`. */
  function LastNewline(t: string): (r: Option<nat>)
    decreases |t|
    ensures r.Some? ==> r.value < |t| && t[r.value] == '\n'
    ensures r.Some? ==> forall k :: r.value < k < |t| ==> t[k] != '\n'
    ensures r.None? ==> forall k :: 0 <= k < |t| ==> t[k] != '\n'
  {
    if t == [] then None
    else if t[|t| - 1] == '\n' then Some(|t| - 1)
    else
      var r := LastNewline(t[..|t| - 1]);
      assert forall k :: 0 <= k < |t| - 1 ==> t[..|t| - 1][k] == t[k];
      r
  }

  /** `\n\]\s*\n(.*)$` at position `i`: the greedy run backs off to its last newline,
      and the group runs to the end. */
  function PostAt(s: string, i: nat): (r: Option<nat>)
    ensures r.Some? ==> i + 3 <= r.value <= |s| && s[r.value - 1] == '\n'
  {
    if !OccursAt(s, "\n]", i) then None
    else
      var a := i + 2;
      var run := SpaceRun(s[a..]);
      match LastNewline(s[a..a + run])
        case None => None
        case Some(k) =>
          assert s[a + k] == s[a..a + run][k];
          Some(a + k + 1)
  }

  function PostFrom(s: string, from: nat): (r: Option<nat>)
    decreases |s| + 1 - from
    ensures r.Some? ==> r.value <= |s|
  {
    if from > |s| then None
    else if PostAt(s, from).Some? then PostAt(s, from)
    else PostFrom(s, from + 1)
  }

  /** `post_gems`: the group of the search, or the empty text when there is no match. */
  function PostGems(s: string): (r: string)
    ensures EndsWith(s, r)
  {
    match PostFrom(s, 0)
      case None => ""
      case Some(p) => s[p..]
  }

  /** The cleaned gem: stripped, with a leading brace and a trailing comma added when missing. */
  function CleanGem(g: string): string {
    var c := Strip(g);
    var c1 := if "{" <= c then c else "{" + c;
    if EndsWith(c1, ",") then c1 else c1 + ","
  }

  /** The indented entry written for one gem. */
  const Indent := "    "
  const NewlineIndent := "\n    "

  function Entry(g: string): string {
    Indent + ReplaceAll(CleanGem(g), "\n", NewlineIndent) + "\n"
  }

  function Entries(gems: seq<string>): string
    decreases |gems|
  {
    if gems == [] then "" else Entries(gems[..|gems| - 1]) + Entry(gems[|gems| - 1])
  }

  /** The file written: the text before the header, the list header, one entry per gem,
      the closing bracket and the text after the list. */
  const Header := "all_gems = [\n"

  function Rebuilt(newContent: string, merged: seq<string>): string {
    PreGems(newContent) + Header + Entries(merged) + ("]\n" + PostGems(newContent))
  }

  /** Every entry is an indented gem that starts with a brace and ends with a comma,
      on lines of its own. */
  lemma EntryShape(g: string)
    ensures var body := ReplaceAll(CleanGem(g), "\n", NewlineIndent);
      && Entry(g) == Indent + body + "\n"
      && body != [] && body[0] == '{' && body[|body| - 1] == ','
  {
    var c := Strip(g);
    var c1 := if "{" <= c then c else "{" + c;
    assert c1 != [] && c1[0] == '{';
    var c2 := CleanGem(g);
    assert c2 != [] && c2[0] == '{' && c2[|c2| - 1] == ',';
    ReplaceCharKeepsEnds(c2, '\n', NewlineIndent);
  }

  /** The clean-up of one gem inside the rebuild loop. */
  method CleanUp(gem: string) returns (gemClean: string)
    ensures gemClean == CleanGem(gem)
  {
    gemClean := Strip(gem);
    if !("{" <= gemClean) {
      gemClean := "{" + gemClean;
    }
    if !EndsWith(gemClean, ",") {
      gemClean := gemClean + ",";
    }
  }

  lemma EntriesStep(merged: seq<string>, i: nat, out: string, pre: string, entry: string)
    requires i < |merged| && entry == Entry(merged[i])
    requires out == pre + Entries(merged[..i])
    ensures out + entry == pre + Entries(merged[..i + 1])
  {
    EntriesAppend(merged, i);
    AppendAssoc(pre, Entries(merged[..i]), entry);
  }

  lemma EntriesAppend(merged: seq<string>, i: nat)
    requires i < |merged|
    ensures Entries(merged[..i + 1]) == Entries(merged[..i]) + Entry(merged[i])
  {
    assert merged[..i + 1][..i] == merged[..i];
  }

  /** The loop that rebuilds the file. */
  method RebuildContent(newContent: string, merged: seq<string>) returns (out: string)
    ensures out == Rebuilt(newContent, merged)
  {
    var pre := PreGems(newContent) + Header;
    out := pre;
    assert merged[..0] == [];
    var i := 0;
    while i < |merged|
      invariant 0 <= i <= |merged|
      invariant out == pre + Entries(merged[..i])
    {
      var gemClean := CleanUp(merged[i]);
      var entry := Indent + ReplaceAll(gemClean, "\n", NewlineIndent) + "\n";
      EntriesStep(merged, i, out, pre, entry);
      out := out + entry;
      i := i + 1;
    }
    assert merged[..i] == merged;
    out := out + ("]\n" + PostGems(newContent));
  }

  // ---------------------------------------------------------------------
  // main: the files

  const OldStore := "content_store_old.py"
  const NewStore := "content_store.py"
  const MergedStore := "content_store_merged.py"

  /** The merged file for an old and a new store text. */
  function MergedText(oldContent: string, newContent: string): string {
    var m := ContentMap(ExtractedGems(oldContent));
    Rebuilt(newContent, Merged(m, ExtractedGems(newContent)))
  }

  /** What `main` does to the directory: nothing when either input is missing (the open
      raises), otherwise it writes the merged store and touches no other file. */
  function MergeStores(files: map<string, string>): (r: Option<map<string, string>>)
    ensures r.Some? <==> OldStore in files && NewStore in files
    ensures r.Some? ==> r.value.Keys == files.Keys + {MergedStore}
    ensures r.Some? ==> forall p :: p in files && p != MergedStore ==> r.value[p] == files[p]
  {
    if OldStore !in files || NewStore !in files then None
    else Some(files[MergedStore := MergedText(files[OldStore], files[NewStore])])
  }

  /** `main`, step by step. */
  method Merge(files: map<string, string>) returns (r: Option<map<string, string>>, matched: nat, unmatched: seq<string>)
    ensures r == MergeStores(files)
    ensures r.Some? ==>
      var m := ContentMap(ExtractedGems(files[OldStore]));
      matched == Matched(m, ExtractedGems(files[NewStore])) && unmatched == Unmatched(m, ExtractedGems(files[NewStore]))
  {
    if OldStore !in files || NewStore !in files {
      return None, 0, [];
    }
    var oldGems := ExtractGems(files[OldStore]);
    var newGems := ExtractGems(files[NewStore]);
    var m := BuildContentMap(oldGems);
    var merged;
    merged, matched, unmatched := MergeGems(m, newGems);
    var out := RebuildContent(files[NewStore], merged);
    r := Some(files[MergedStore := out]);
  }
}
