/** MultiFileCodeParser: extracts the HTML, CSS and JavaScript fenced blocks
    from generated text.

    Each label is looked up with one `Matcher.find()` of the pattern
    `` ```label\s*\n([\s\S]*?)``` `` compiled with `CASE_INSENSITIVE`. The
    pattern is modelled twice: `RegexMatch` and `IsFirstMatch` say what a
    match is and which match `find()` reports (leftmost start, first
    alternative, greedy `\s*`, lazy body), and `Find` is a scanner proved to
    return exactly that match. */
module MultiFileCodeParser {
  import opened Common
  import opened JavaText
  import opened Artifacts

  /** `\s` of java.util.regex without UNICODE_CHARACTER_CLASS: [ \t\n\x0B\f\r]. */
  predicate RegexSpace(c: char)
  {
    c == ' ' || c == '\t' || c == '\n' || c == '\U{000B}' || c == '\U{000C}' || c == '\r'
  }

  /** The alternatives of each pattern's label group, in pattern order. */
  const HtmlLabels: seq<string> := ["html"]
  const CssLabels: seq<string> := ["css"]
  const JsLabels: seq<string> := ["js", "javascript"]

  /** Every label is a non-empty word of lower-case ASCII letters. */
  predicate ValidLabels(alts: seq<string>)
  {
    forall n :: 0 <= n < |alts| ==>
      |alts[n]| > 0 && forall k :: 0 <= k < |alts[n]| ==> 'a' <= alts[n][k] <= 'z'
  }

  /** Three backticks start at index i. */
  predicate FenceAt(s: string, i: int)
  {
    0 <= i && i + 3 <= |s| && s[i] == '`' && s[i + 1] == '`' && s[i + 2] == '`'
  }

  /** The label `a` occurs at index j, ignoring ASCII case. */
  predicate LabelAt(s: string, j: nat, a: string)
  {
    j + |a| <= |s| && forall k :: 0 <= k < |a| ==> EqualsIgnoreCase(s[j + k], a[k])
  }

  /** A match of `` ```a\s*\n([\s\S]*?)``` `` that starts at i: the `\s*`
      covers s[i+3+|a|..m], the `\n` is s[m], the captured group is
      s[m+1..e] and the closing fence starts at e. */
  ghost predicate RegexMatch(s: string, i: int, a: string, m: int, e: int)
  {
    && FenceAt(s, i)
    && LabelAt(s, i + 3, a)
    && i + 3 + |a| <= m < |s|
    && (forall k :: i + 3 + |a| <= k < m ==> RegexSpace(s[k]))
    && s[m] == '\n'
    && m + 1 <= e
    && FenceAt(s, e)
  }

  /** A match reported by the scanner: start index, index of the label
      alternative, index of the newline, index of the closing fence. */
  datatype Match = Match(start: nat, alt: nat, newline: nat, close: nat)

  /** The captured group `matcher.group(1)`. */
  function Group(s: string, r: Match): string
    requires r.newline + 1 <= r.close <= |s|
  {
    s[r.newline + 1..r.close]
  }

  /** No label alternative matches at any start before i. */
  ghost predicate NoMatchBefore(s: string, alts: seq<string>, i: int)
  {
    forall q, n, m, e :: 0 <= q < i && 0 <= n < |alts| ==> !RegexMatch(s, q, alts[n], m, e)
  }

  /** Nothing matches anywhere. */
  ghost predicate NoMatch(s: string, alts: seq<string>)
  {
    forall q, n, m, e :: 0 <= n < |alts| ==> !RegexMatch(s, q, alts[n], m, e)
  }

  /** The match `Matcher.find()` reports: the leftmost start; at that start,
      the first alternative that can match; for it the longest `\s*`
      (greedy) and then the shortest body (lazy). */
  ghost predicate IsFirstMatch(s: string, alts: seq<string>, r: Match)
  {
    && r.alt < |alts|
    && RegexMatch(s, r.start, alts[r.alt], r.newline, r.close)
    && NoMatchBefore(s, alts, r.start)
    && (forall n, m, e :: 0 <= n < r.alt ==> !RegexMatch(s, r.start, alts[n], m, e))
    && (forall m, e :: RegexMatch(s, r.start, alts[r.alt], m, e) ==> m <= r.newline)
    && (forall e :: RegexMatch(s, r.start, alts[r.alt], r.newline, e) ==> r.close <= e)
  }

  // ---------------------------------------------------------------- scanner

  /** End of the run of `\s` chars starting at j. */
  function WsEnd(s: string, j: nat): (k: nat)
    requires j <= |s|
    ensures j <= k <= |s|
    ensures forall x :: j <= x < k ==> RegexSpace(s[x])
    ensures k < |s| ==> !RegexSpace(s[k])
    decreases |s| - j
  {
    if j == |s| || !RegexSpace(s[j]) then j else WsEnd(s, j + 1)
  }

  /** The last newline in s[j..k], where greedy `\s*` backtracks to. */
  function LastNewline(s: string, j: nat, k: nat): (r: Option<nat>)
    requires j <= k <= |s|
    ensures r.Some? ==> j <= r.value < k && s[r.value] == '\n'
    ensures r.Some? ==> forall x :: r.value < x < k ==> s[x] != '\n'
    ensures r.None? ==> forall x :: j <= x < k ==> s[x] != '\n'
    decreases k - j
  {
    if k == j then None
    else if s[k - 1] == '\n' then Some(k - 1)
    else LastNewline(s, j, k - 1)
  }

  /** The first fence at or after b, where the lazy body stops. */
  function FenceFrom(s: string, b: nat): (r: Option<nat>)
    ensures r.Some? ==> b <= r.value && FenceAt(s, r.value)
    ensures r.Some? ==> forall x :: b <= x < r.value ==> !FenceAt(s, x)
    ensures r.None? ==> forall x :: b <= x ==> !FenceAt(s, x)
    decreases |s| - b
  {
    if b + 3 > |s| then None
    else if FenceAt(s, b) then Some(b)
    else FenceFrom(s, b + 1)
  }

  /** Attempts the pattern with label `a` at start i. */
  function MatchAlt(s: string, i: nat, a: string): Option<(nat, nat)>
  {
    if !(FenceAt(s, i) && LabelAt(s, i + 3, a)) then None
    else
      var j := i + 3 + |a|;
      match LastNewline(s, j, WsEnd(s, j))
      case None => None
      case Some(m) =>
        match FenceFrom(s, m + 1)
        case None => None
        case Some(e) => Some((m, e))
  }

  /** MatchAlt finds a match at i exactly when one exists, and the one it
      finds is the greedy-then-lazy one. */
  lemma MatchAltCorrect(s: string, i: nat, a: string)
    ensures MatchAlt(s, i, a).Some? ==>
      var (m, e) := MatchAlt(s, i, a).value;
      && RegexMatch(s, i, a, m, e)
      && (forall m', e' :: RegexMatch(s, i, a, m', e') ==> m' <= m)
      && (forall e' :: RegexMatch(s, i, a, m, e') ==> e <= e')
    ensures MatchAlt(s, i, a).None? ==> forall m, e :: !RegexMatch(s, i, a, m, e)
  {
    if FenceAt(s, i) && LabelAt(s, i + 3, a) {
      var j := i + 3 + |a|;
      var k := WsEnd(s, j);
      forall m', e' | RegexMatch(s, i, a, m', e')
        ensures LastNewline(s, j, k).Some? && m' <= LastNewline(s, j, k).value
        ensures FenceFrom(s, LastNewline(s, j, k).value + 1).Some?
      {
        assert RegexSpace(s[m']);
        assert m' < k;
        assert !RegexSpace(s[e']);
        assert e' >= k;
      }
    }
  }

  /** Tries the alternatives alts[n..] in order at start i. */
  function MatchFirstAlt(s: string, i: nat, alts: seq<string>, n: nat): (r: Option<(nat, nat, nat)>)
    requires n <= |alts|
    ensures r.Some? ==>
      && n <= r.value.0 < |alts|
      && RegexMatch(s, i, alts[r.value.0], r.value.1, r.value.2)
      && (forall q, m, e :: n <= q < r.value.0 ==> !RegexMatch(s, i, alts[q], m, e))
      && (forall m, e :: RegexMatch(s, i, alts[r.value.0], m, e) ==> m <= r.value.1)
      && (forall e :: RegexMatch(s, i, alts[r.value.0], r.value.1, e) ==> r.value.2 <= e)
    ensures r.None? ==> forall q, m, e :: n <= q < |alts| ==> !RegexMatch(s, i, alts[q], m, e)
    decreases |alts| - n
  {
    if n == |alts| then None
    else
      MatchAltCorrect(s, i, alts[n]);
      match MatchAlt(s, i, alts[n])
      case Some((m, e)) => Some((n, m, e))
      case None => MatchFirstAlt(s, i, alts, n + 1)
  }

  /** Scans start positions from i upwards. */
  function FindFrom(s: string, alts: seq<string>, i: nat): (r: Option<Match>)
    requires NoMatchBefore(s, alts, i)
    ensures r.Some? ==> IsFirstMatch(s, alts, r.value)
    ensures r.None? ==> NoMatch(s, alts)
    decreases |s| - i
  {
    if i + 3 > |s| then None
    else
      match MatchFirstAlt(s, i, alts, 0)
      case Some((n, m, e)) => Some(Match(i, n, m, e))
      case None => FindFrom(s, alts, i + 1)
  }

  /** `pattern.matcher(s).find()`. */
  function Find(s: string, alts: seq<string>): (r: Option<Match>)
    ensures r.Some? ==> IsFirstMatch(s, alts, r.value)
    ensures r.None? ==> NoMatch(s, alts)
  {
    FindFrom(s, alts, 0)
  }

  /** `extractByPattern`: group 1 of the first match, or null. */
  function ExtractByPattern(s: string, alts: seq<string>): (g: Option<string>)
    ensures g.None? <==> NoMatch(s, alts)
    ensures g.Some? ==> exists r :: IsFirstMatch(s, alts, r) && r.newline + 1 <= r.close <= |s| && g.value == Group(s, r)
  {
    match Find(s, alts)
    case Some(r) => Some(Group(s, r))
    case None => None
  }

  /** A null field, or a non-empty text with no char up to U+0020 at
      either end. */
  predicate NonBlankTrimmed(v: Option<string>)
  {
    v.Some? ==> v.value != [] && !Trimmable(v.value[0]) && !Trimmable(v.value[|v.value| - 1])
  }

  /** What `parse` stores for an extracted block: the trimmed text when it
      is not blank, else null. */
  function BodyField(g: string): (v: Option<string>)
    ensures v.None? <==> forall k :: 0 <= k < |g| ==> Trimmable(g[k])
    ensures NonBlankTrimmed(v)
  {
    TrimEmptyIff(g);
    if Trim(g) != [] then Some(Trim(g)) else None
  }

  /** One field of `parse`: set to the trimmed group when it is not blank. */
  function ParseField(s: string, alts: seq<string>): (v: Option<string>)
    ensures NonBlankTrimmed(v)
    ensures NoMatch(s, alts) ==> v.None?
  {
    match ExtractByPattern(s, alts)
    case Some(g) => BodyField(g)
    case None => None
  }

  /** `MultiFileCodeParser.parse`: each field extracted on its own from the
      whole input. */
  function Parse(s: string): (r: MultiFileCodeResult)
    ensures NonBlankTrimmed(r.htmlCode) && NonBlankTrimmed(r.cssCode) && NonBlankTrimmed(r.jsCode)
    ensures NoMatch(s, HtmlLabels) ==> r.htmlCode.None?
    ensures NoMatch(s, CssLabels) ==> r.cssCode.None?
    ensures NoMatch(s, JsLabels) ==> r.jsCode.None?
  {
    MultiFileCodeResult(ParseField(s, HtmlLabels), ParseField(s, CssLabels), ParseField(s, JsLabels))
  }

  // ----------------------------------------------------------- properties

  /** At most one match is the one `find()` reports. */
  lemma FirstMatchUnique(s: string, alts: seq<string>, r1: Match, r2: Match)
    requires IsFirstMatch(s, alts, r1) && IsFirstMatch(s, alts, r2)
    ensures r1 == r2
  {
  }

  /** Each field is the trimmed body of the first block for its label when
      that body is not blank, and null otherwise. */
  lemma ParseFieldOfFirstBlock(s: string, alts: seq<string>, r: Match)
    requires IsFirstMatch(s, alts, r)
    ensures ParseField(s, alts) == if Trim(Group(s, r)) == [] then None else Some(Trim(Group(s, r)))
  {
    FirstMatchUnique(s, alts, Find(s, alts).value, r);
  }

  /** With no block for the label, the field stays null. */
  lemma ParseFieldWithoutBlock(s: string, alts: seq<string>)
    requires NoMatch(s, alts)
    ensures ParseField(s, alts) == None
  {
  }

  /** A field is set exactly when a block for its label exists and the
      body of the first one has a char above U+0020; a set field is that
      body trimmed, so it neither starts nor ends with such a char. */
  lemma ParseFieldSetIff(s: string, alts: seq<string>)
    ensures ParseField(s, alts).Some? <==>
      exists r :: IsFirstMatch(s, alts, r) && exists k :: 0 <= k < |Group(s, r)| && !Trimmable(Group(s, r)[k])
    ensures ParseField(s, alts).Some? ==>
      var v := ParseField(s, alts).value;
      v != [] && !Trimmable(v[0]) && !Trimmable(v[|v| - 1])
    ensures ParseField(s, alts).Some? ==>
      exists r :: IsFirstMatch(s, alts, r) && ParseField(s, alts).value == Trim(Group(s, r))
  {
    match Find(s, alts)
    case None =>
    case Some(r) =>
      var g := Group(s, r);
      assert ParseField(s, alts) == BodyField(g);
      TrimEmptyIff(g);
      forall r' | IsFirstMatch(s, alts, r') ensures r' == r {
        FirstMatchUnique(s, alts, r, r');
      }
  }

  /** The three fields are extracted independently: once the text up to
      some point holds a block for a field's label, anything inserted after
      that point (blocks for the other labels, say) leaves the field as it
      was. Before that point other blocks can matter: a lazy body ends at
      the first fence of any block, as `UnclosedBlockEndsAtNextFence` shows. */
  lemma ParseFieldsIndependent(s: string, x: string, t: string)
    ensures Find(s, HtmlLabels).Some? ==> Parse(s + x + t).htmlCode == Parse(s + t).htmlCode
    ensures Find(s, CssLabels).Some? ==> Parse(s + x + t).cssCode == Parse(s + t).cssCode
    ensures Find(s, JsLabels).Some? ==> Parse(s + x + t).jsCode == Parse(s + t).jsCode
  {
    var a, b := s + x + t, s + t;
    LabelSetsValid();
    if Find(s, HtmlLabels).Some? {
      InsertionKeepsField(s, x, t, HtmlLabels);
      assert Parse(a).htmlCode == ParseField(a, HtmlLabels) && Parse(b).htmlCode == ParseField(b, HtmlLabels);
    }
    if Find(s, CssLabels).Some? {
      InsertionKeepsField(s, x, t, CssLabels);
      assert Parse(a).cssCode == ParseField(a, CssLabels) && Parse(b).cssCode == ParseField(b, CssLabels);
    }
    if Find(s, JsLabels).Some? {
      InsertionKeepsField(s, x, t, JsLabels);
      assert Parse(a).jsCode == ParseField(a, JsLabels) && Parse(b).jsCode == ParseField(b, JsLabels);
    }
  }

  lemma LabelSetsValid()
    ensures ValidLabels(HtmlLabels) && ValidLabels(CssLabels) && ValidLabels(JsLabels)
  {
  }

  lemma InsertionKeepsField(s: string, x: string, t: string, alts: seq<string>)
    requires ValidLabels(alts) && Find(s, alts).Some?
    ensures ParseField(s + x + t, alts) == ParseField(s + t, alts)
  {
    assert s + x + t == s + (x + t);
    ParseFieldIgnoresLaterBlocks(s, x + t, alts);
    ParseFieldIgnoresLaterBlocks(s, t, alts);
  }

  /** The opener needs a newline: text without one has no block. */
  lemma NoNewlineNoBlock(s: string, alts: seq<string>)
    requires forall k :: 0 <= k < |s| ==> s[k] != '\n'
    ensures ParseField(s, alts) == None
  {
  }

  /** An unterminated fence yields no block: a match needs a second fence. */
  lemma UnterminatedFenceNoBlock(s: string, alts: seq<string>, i: int)
    requires forall p :: FenceAt(s, p) ==> p == i
    ensures ParseField(s, alts) == None
  {
  }

  /** A null field, or a non-empty text that trimming leaves alone. */
  predicate SetAndTrimmed(v: Option<string>)
  {
    v.Some? ==> v.value != [] && Trim(v.value) == v.value
  }

  /** `parse` never fails, and every field it sets is non-empty and already
      trimmed. */
  lemma ParseFieldsTrimmed(s: string)
    ensures SetAndTrimmed(Parse(s).htmlCode)
    ensures SetAndTrimmed(Parse(s).cssCode)
    ensures SetAndTrimmed(Parse(s).jsCode)
  {
    TrimmedField(s, HtmlLabels);
    TrimmedField(s, CssLabels);
    TrimmedField(s, JsLabels);
  }

  lemma TrimmedField(s: string, alts: seq<string>)
    ensures SetAndTrimmed(ParseField(s, alts))
  {
    if ExtractByPattern(s, alts).Some? {
      TrimIdempotent(ExtractByPattern(s, alts).value);
    }
  }

  // ------------------------------------------------ first block wins

  /** A fence cannot start inside a match's opener after its first char:
      the opener continues with label letters, `\s` chars and the newline. */
  lemma OpenerPrecedesFence(u: string, i: nat, a: string, m: nat, e: nat, p: nat)
    requires |a| > 0 && forall k :: 0 <= k < |a| ==> 'a' <= a[k] <= 'z'
    requires RegexMatch(u, i, a, m, e)
    requires i < p && FenceAt(u, p)
    ensures m < p
  {
    assert EqualsIgnoreCase(u[i + 3], a[0]);
    forall x | i + 3 <= x <= m ensures u[x] != '`' {
      if x < i + 3 + |a| {
        assert EqualsIgnoreCase(u[x], a[x - i - 3]);
      } else {
        assert RegexSpace(u[x]);
      }
    }
  }

  /** A match whose newline lies before a fence of the prefix is a match of
      the prefix, closed at that fence. */
  lemma MatchInPrefix(s: string, t: string, i: nat, a: string, m: nat, e: nat, p: nat)
    requires RegexMatch(s + t, i, a, m, e)
    requires m < p && FenceAt(s, p)
    ensures RegexMatch(s, i, a, m, p)
  {
    var u := s + t;
    assert forall k :: 0 <= k < |s| ==> u[k] == s[k];
  }

  /** A match of the prefix is a match of the whole text. */
  lemma MatchInExtension(s: string, t: string, i: nat, a: string, m: nat, e: nat)
    requires RegexMatch(s, i, a, m, e)
    ensures RegexMatch(s + t, i, a, m, e)
  {
    var u := s + t;
    assert forall k :: 0 <= k < |s| ==> u[k] == s[k];
  }

  /** Only the leftmost block for a label counts: whatever follows the text
      (more blocks with the same label included) leaves the match alone. */
  lemma {:induction false} FindIgnoresSuffix(s: string, t: string, alts: seq<string>)
    requires ValidLabels(alts)
    requires Find(s, alts).Some?
    ensures Find(s + t, alts) == Find(s, alts)
  {
    var r := Find(s, alts).value;
    var u := s + t;
    var a := alts[r.alt];
    assert forall k :: 0 <= k < |s| ==> u[k] == s[k];
    MatchInExtension(s, t, r.start, a, r.newline, r.close);
    assert FenceAt(u, r.start) && FenceAt(u, r.close);
    forall q, n, m, e | 0 <= q < r.start && 0 <= n < |alts|
      ensures !RegexMatch(u, q, alts[n], m, e)
    {
      if RegexMatch(u, q, alts[n], m, e) {
        OpenerPrecedesFence(u, q, alts[n], m, e, r.start);
        MatchInPrefix(s, t, q, alts[n], m, e, r.start);
      }
    }
    forall n, m, e | 0 <= n < |alts| && RegexMatch(u, r.start, alts[n], m, e)
      ensures RegexMatch(s, r.start, alts[n], m, r.close)
    {
      OpenerPrecedesFence(u, r.start, alts[n], m, e, r.close);
      MatchInPrefix(s, t, r.start, alts[n], m, e, r.close);
    }
    forall e | RegexMatch(u, r.start, a, r.newline, e) ensures r.close <= e {
      if e < r.close {
        assert FenceAt(s, e);
        assert RegexMatch(s, r.start, a, r.newline, e);
      }
    }
    assert IsFirstMatch(u, alts, r);
    FirstMatchUnique(u, alts, Find(u, alts).value, r);
  }

  /** So a later block with the same label never changes the field. */
  lemma ParseFieldIgnoresLaterBlocks(s: string, t: string, alts: seq<string>)
    requires ValidLabels(alts)
    requires Find(s, alts).Some?
    ensures ParseField(s + t, alts) == ParseField(s, alts)
  {
    var r := Find(s, alts).value;
    FindIgnoresSuffix(s, t, alts);
    assert Group(s + t, r) == Group(s, r);
  }

  // ------------------------------------------------ one block round trip

  /** `u` spells the label `a` in some mixture of ASCII upper and lower case. */
  predicate SpelledAs(u: string, a: string)
  {
    |u| == |a| && forall k :: 0 <= k < |a| ==> LowerAscii(u[k]) == a[k]
  }

  /** A char that folds to a lower-case letter is neither `\s` nor a backtick. */
  lemma FoldsToLetter(c: char)
    requires 'a' <= LowerAscii(c) <= 'z'
    ensures !RegexSpace(c) && c != '`'
  {
  }

  /** A label that matches where a newline follows `L` chars has at most `L` chars. */
  lemma LabelEndsBeforeNewline(s: string, j: nat, b: string, L: nat)
    requires |b| > 0 && forall k :: 0 <= k < |b| ==> 'a' <= b[k] <= 'z'
    requires LabelAt(s, j, b) && j + L < |s| && s[j + L] == '\n'
    ensures |b| <= L
  {
    forall x | j <= x < j + |b| ensures s[x] != '\n' {
      assert EqualsIgnoreCase(s[j + (x - j)], b[x - j]);
    }
  }

  /** The shape of a block at i0: a fence, the label spelled by `u`, a
      newline, a body `w` without backticks, and a closing fence. */
  ghost predicate OneBlockLayout(T: string, i0: nat, u: string, w: string)
  {
    var m0 := i0 + 3 + |u|;
    var e0 := m0 + 1 + |w|;
    && e0 + 3 <= |T|
    && FenceAt(T, i0)
    && (forall k :: 0 <= k < |u| ==> T[i0 + 3 + k] == u[k])
    && T[m0] == '\n'
    && (forall k :: 0 <= k < |w| ==> T[m0 + 1 + k] == w[k] && w[k] != '`')
    && FenceAt(T, e0)
  }

  lemma OneBlockLayoutOf(p: string, u: string, w: string, q: string)
    requires forall k :: 0 <= k < |w| ==> w[k] != '`'
    ensures OneBlockLayout(p + "```" + u + "\n" + w + "```" + q, |p|, u, w)
  {
    var T := p + "```" + u + "\n" + w + "```" + q;
    var m0 := |p| + 3 + |u|;
    assert T == (p + "```") + (u + "\n") + (w + "```" + q);
    assert forall k :: 0 <= k < |u| ==> T[|p| + 3 + k] == u[k];
    assert forall k :: 0 <= k < |w| ==> T[m0 + 1 + k] == w[k];
  }

  /** In such a text the first match starts at the fence, uses a label as
      long as `u`, and its `\s*` starts at the newline after `u`. */
  lemma OneBlockStart(T: string, i0: nat, u: string, w: string, alts: seq<string>, n: nat) returns (r: Match)
    requires ValidLabels(alts) && n < |alts| && SpelledAs(u, alts[n])
    requires OneBlockLayout(T, i0, u, w) && NoMatchBefore(T, alts, i0)
    ensures IsFirstMatch(T, alts, r) && Find(T, alts) == Some(r)
    ensures r.start == i0 && |alts[r.alt]| == |u|
  {
    var m0 := i0 + 3 + |u|;
    var e0 := m0 + 1 + |w|;
    forall k | 0 <= k < |u| ensures EqualsIgnoreCase(T[i0 + 3 + k], alts[n][k]) {
      FoldsToLetter(u[k]);
    }
    forall x | i0 + 3 <= x < m0 ensures !RegexSpace(T[x]) {
      FoldsToLetter(u[x - i0 - 3]);
      assert T[i0 + 3 + (x - i0 - 3)] == u[x - i0 - 3];
    }
    assert RegexMatch(T, i0, alts[n], m0, e0);
    r := Find(T, alts).value;
    assert r.start <= i0;
    assert !(r.start < i0);
    var b := alts[r.alt];
    LabelEndsBeforeNewline(T, i0 + 3, b, |u|);
    assert i0 + 3 + |b| <= r.newline;
    assert RegexSpace(T[i0 + 3 + |b|]);
    assert i0 + 3 + |b| >= m0;
  }

  /** ...and its group is what is left of `w` after the greedy `\s*` took a
      whitespace prefix of it. */
  lemma OneBlockGroup(T: string, i0: nat, u: string, w: string, alts: seq<string>, r: Match) returns (d: nat)
    requires ValidLabels(alts)
    requires OneBlockLayout(T, i0, u, w)
    requires IsFirstMatch(T, alts, r) && r.start == i0 && |alts[r.alt]| == |u|
    ensures d <= |w| && Group(T, r) == w[d..]
    ensures forall k :: 0 <= k < d ==> Trimmable(w[k])
  {
    var m0 := i0 + 3 + |u|;
    var e0 := m0 + 1 + |w|;
    var b := alts[r.alt];
    assert RegexMatch(T, i0, b, m0, e0);
    assert m0 <= r.newline;
    assert !RegexSpace(T[e0]);
    assert r.newline < e0;
    assert RegexMatch(T, i0, b, r.newline, e0);
    forall x | m0 + 1 <= x < e0 ensures T[x] != '`' {
      assert T[m0 + 1 + (x - m0 - 1)] == w[x - m0 - 1];
    }
    assert T[r.close] == '`';
    assert r.close == e0;
    d := r.newline - m0;
    forall k | 0 <= k < d ensures Trimmable(w[k]) {
      assert RegexSpace(T[m0 + 1 + k]);
    }
    assert Group(T, r) == T[m0 + 1 + d..e0];
  }

  /** Round trip of one block anywhere in the text: whatever comes before
      it holds no match for the label, then a fence with the label in any
      casing, a newline, a body without backticks and a closing fence, then
      anything at all. The field is the trimmed body, or null when the body
      is blank. */
  lemma BlockAfterPrefixRoundTrip(p: string, u: string, w: string, q: string, alts: seq<string>, n: nat)
    requires ValidLabels(alts) && n < |alts| && SpelledAs(u, alts[n])
    requires NoMatchBefore(p + Fenced(u, w) + q, alts, |p|)
    requires forall k :: 0 <= k < |w| ==> w[k] != '`'
    ensures ParseField(p + Fenced(u, w) + q, alts) == BodyField(w)
  {
    var T := p + "```" + u + "\n" + w + "```" + q;
    FencedIn(p, u, w, q);
    OneBlockLayoutOf(p, u, w, q);
    var r := OneBlockStart(T, |p|, u, w, alts, n);
    var d := OneBlockGroup(T, |p|, u, w, alts, r);
    assert w == w[..d] + w[d..];
    TrimSkipsBlankPrefix(w[..d], w[d..]);
    ParseFieldOfFirstBlock(T, alts, r);
  }

  /** A fenced block with its label and body. */
  function Fenced(u: string, w: string): string
  {
    "```" + u + "\n" + w + "```"
  }

  lemma FencedIn(p: string, u: string, w: string, q: string)
    ensures p + Fenced(u, w) + q == p + "```" + u + "\n" + w + "```" + q
  {
  }

  /** The first block of a text, after prose without backticks. */
  lemma SingleBlockRoundTrip(p: string, u: string, w: string, q: string, alts: seq<string>, n: nat)
    requires ValidLabels(alts) && n < |alts| && SpelledAs(u, alts[n])
    requires forall k :: 0 <= k < |p| ==> p[k] != '`'
    requires forall k :: 0 <= k < |w| ==> w[k] != '`'
    ensures ParseField(p + "```" + u + "\n" + w + "```" + q, alts)
         == if Trim(w) == [] then None else Some(Trim(w))
  {
    var T := p + "```" + u + "\n" + w + "```" + q;
    FencedIn(p, u, w, q);
    assert T == p + (Fenced(u, w) + q);
    forall x | 0 <= x < |p| ensures !FenceAt(T, x) {
      assert T[x] == p[x];
    }
    BlockAfterPrefixRoundTrip(p, u, w, q, alts, n);
  }

  // ------------------------------------------------ several blocks

  /** Every fence in `P` is followed, inside `P`, by a char that does not
      fold to `c`, and `P` ends with a newline: text of this kind holds no
      opener for a label that starts with `c`. */
  predicate NoOpenerFor(P: string, c: char)
  {
    && P != [] && P[|P| - 1] == '\n'
    && forall x :: 0 <= x && x + 3 < |P| && FenceAt(P, x) ==> LowerAscii(P[x + 3]) != c
  }

  /** Every label alternative starts with the letter `c`. */
  predicate LabelsStartWith(alts: seq<string>, c: char)
  {
    forall n :: 0 <= n < |alts| ==> |alts[n]| > 0 && alts[n][0] == c
  }

  /** No match for such labels starts inside such a prefix. */
  lemma NoOpenerNoMatch(P: string, t: string, alts: seq<string>, c: char)
    requires ValidLabels(alts) && LabelsStartWith(alts, c)
    requires NoOpenerFor(P, c)
    ensures NoMatchBefore(P + t, alts, |P|)
  {
    var T := P + t;
    forall x, n, m, e | 0 <= x < |P| && 0 <= n < |alts| ensures !RegexMatch(T, x, alts[n], m, e) {
      if FenceAt(T, x) {
        assert T[|P| - 1] == '\n';
        assert x + 3 < |P|;
        assert T[x] == P[x] && T[x + 1] == P[x + 1] && T[x + 2] == P[x + 2];
        assert FenceAt(P, x);
        assert T[x + 3] == P[x + 3];
        assert 'a' <= alts[n][0] <= 'z';
        assert !EqualsIgnoreCase(T[x + 3 + 0], alts[n][0]);
        assert !LabelAt(T, x + 3, alts[n]);
      }
    }
  }

  /** Two such prefixes in a row are one. */
  lemma NoOpenerAppend(P: string, Q: string, c: char)
    requires NoOpenerFor(P, c) && NoOpenerFor(Q, c)
    ensures NoOpenerFor(P + Q, c)
  {
    var T := P + Q;
    forall x | FenceAt(T, x) && x + 3 < |T| ensures LowerAscii(T[x + 3]) != c {
      if x < |P| {
        assert T[|P| - 1] == '\n';
        assert x + 3 < |P|;
        assert T[x] == P[x] && T[x + 1] == P[x + 1] && T[x + 2] == P[x + 2] && T[x + 3] == P[x + 3];
        assert FenceAt(P, x);
      } else {
        assert T[x] == Q[x - |P|] && T[x + 1] == Q[x - |P| + 1] && T[x + 2] == Q[x - |P| + 2];
        assert T[x + 3] == Q[x - |P| + 3];
        assert FenceAt(Q, x - |P|);
      }
    }
  }

  /** A fenced block followed by a newline, whose text `X` (label, newline
      and body) has no backtick and does not start with a char folding to `c`. */
  lemma FencedBlockNoOpener(X: string, c: char)
    requires X != [] && LowerAscii(X[0]) != c && c != '\n'
    requires forall k :: 0 <= k < |X| ==> X[k] != '`'
    ensures NoOpenerFor("```" + X + "```\n", c)
  {
    var B := "```" + X + "```\n";
    assert B == "```" + (X + "```\n");
    assert forall k :: 0 <= k < |X| ==> B[3 + k] == X[k];
    assert forall k :: 3 <= k < 3 + |X| ==> B[k] != '`';
    assert B[|B| - 1] == '\n';
    forall x | FenceAt(B, x) && x + 3 < |B| ensures LowerAscii(B[x + 3]) != c {
      assert x == 0 || x == 3 + |X|;
      if x == 0 {
        assert B[3] == X[0];
      } else {
        assert B[x + 3] == '\n';
      }
    }
  }

  /** Round trip of the usual answer: an HTML, a CSS and a JavaScript block
      one after the other, each body without backticks. Each field is its
      own body trimmed, or null when that body is blank. */
  lemma ThreeBlockRoundTrip(h: string, c: string, j: string)
    requires forall k :: 0 <= k < |h| ==> h[k] != '`'
    requires forall k :: 0 <= k < |c| ==> c[k] != '`'
    requires forall k :: 0 <= k < |j| ==> j[k] != '`'
    ensures Parse("```html\n" + h + "```\n```css\n" + c + "```\n```js\n" + j + "```")
         == MultiFileCodeResult(BodyField(h), BodyField(c), BodyField(j))
  {
    ThreeBlockText(h, c, j);
    HtmlOfThree(h, c, j);
    CssOfThree(h, c, j);
    JsOfThree(h, c, j);
  }

  /** The three blocks, each followed by a newline but the last. */
  function ThreeBlocks(h: string, c: string, j: string): string
  {
    Fenced("html", h) + "\n" + Fenced("css", c) + "\n" + Fenced("js", j)
  }

  lemma ThreeBlockText(h: string, c: string, j: string)
    ensures "```html\n" + h + "```\n```css\n" + c + "```\n```js\n" + j + "```" == ThreeBlocks(h, c, j)
  {
  }

  lemma HtmlOfThree(h: string, c: string, j: string)
    requires forall k :: 0 <= k < |h| ==> h[k] != '`'
    ensures ParseField(ThreeBlocks(h, c, j), HtmlLabels) == BodyField(h)
  {
    var q := "\n" + Fenced("css", c) + "\n" + Fenced("js", j);
    assert ThreeBlocks(h, c, j) == "" + Fenced("html", h) + q;
    FencedIn("", "html", h, q);
    SingleBlockRoundTrip("", "html", h, q, HtmlLabels, 0);
  }

  lemma CssOfThree(h: string, c: string, j: string)
    requires forall k :: 0 <= k < |h| ==> h[k] != '`'
    requires forall k :: 0 <= k < |c| ==> c[k] != '`'
    ensures ParseField(ThreeBlocks(h, c, j), CssLabels) == BodyField(c)
  {
    var p := Fenced("html", h) + "\n";
    var q := "\n" + Fenced("js", j);
    assert ThreeBlocks(h, c, j) == p + Fenced("css", c) + q;
    assert p + Fenced("css", c) + q == p + (Fenced("css", c) + q);
    FencedLabelBlock("html", h, 'c');
    assert LabelsStartWith(CssLabels, 'c');
    NoOpenerNoMatch(p, Fenced("css", c) + q, CssLabels, 'c');
    BlockAfterPrefixRoundTrip(p, "css", c, q, CssLabels, 0);
  }

  lemma JsOfThree(h: string, c: string, j: string)
    requires forall k :: 0 <= k < |h| ==> h[k] != '`'
    requires forall k :: 0 <= k < |c| ==> c[k] != '`'
    requires forall k :: 0 <= k < |j| ==> j[k] != '`'
    ensures ParseField(ThreeBlocks(h, c, j), JsLabels) == BodyField(j)
  {
    var p1 := Fenced("html", h) + "\n";
    var p2 := Fenced("css", c) + "\n";
    assert ThreeBlocks(h, c, j) == (p1 + p2) + Fenced("js", j) + "";
    FencedLabelBlock("html", h, 'j');
    FencedLabelBlock("css", c, 'j');
    NoOpenerAppend(p1, p2, 'j');
    assert (p1 + p2) + Fenced("js", j) + "" == (p1 + p2) + Fenced("js", j);
    assert LabelsStartWith(JsLabels, 'j');
    NoOpenerNoMatch(p1 + p2, Fenced("js", j), JsLabels, 'j');
    BlockAfterPrefixRoundTrip(p1 + p2, "js", j, "", JsLabels, 0);
  }

  /** A fenced block whose label starts with a letter other than `c`,
      followed by a newline. */
  lemma FencedLabelBlock(tag: string, w: string, c: char)
    requires tag != [] && 'a' <= tag[0] <= 'z' && tag[0] != c && c != '\n'
    requires forall k :: 0 <= k < |tag| ==> tag[k] != '`'
    requires forall k :: 0 <= k < |w| ==> w[k] != '`'
    ensures NoOpenerFor(Fenced(tag, w) + "\n", c)
  {
    var X := tag + "\n" + w;
    assert X[0] == tag[0];
    forall k | 0 <= k < |X| ensures X[k] != '`' {
      if k > |tag| {
        assert X[k] == w[k - |tag| - 1];
      }
    }
    FencedBlockNoOpener(X, c);
    assert Fenced(tag, w) + "\n" == "```" + X + "```\n";
  }

  /** A block left open is ended by the next block's fence: on its own the
      unclosed `html` block gives no field, but once a `css` block follows,
      the `html` field is the text up to the `css` opener. */
  lemma UnclosedBlockEndsAtNextFence()
    ensures Parse("```html\n<div>\n").htmlCode == None
    ensures Parse("```html\n<div>\n```css\nx\n```").htmlCode == Some("<div>")
  {
    UnclosedHtmlBlock("```html\n<div>\n");
    HtmlBlockBeforeCss("```html\n<div>\n```css\nx\n```");
  }

  lemma UnclosedHtmlBlock(s: string)
    requires s == "```html\n<div>\n"
    ensures ParseField(s, HtmlLabels) == None
  {
    forall x | FenceAt(s, x) ensures x == 0 {
      assert s[x] == '`';
    }
    UnterminatedFenceNoBlock(s, HtmlLabels, 0);
  }

  lemma HtmlBlockBeforeCss(s: string)
    requires s == "```html\n<div>\n```css\nx\n```"
    ensures ParseField(s, HtmlLabels) == Some("<div>")
  {
    HtmlSpelling();
    UnclosedBlockText();
    SingleBlockRoundTrip("", "html", "<div>\n", "css\nx\n```", HtmlLabels, 0);
    TrimOfDivBody();
  }

  lemma HtmlSpelling()
    ensures SpelledAs("html", HtmlLabels[0])
  {
  }

  lemma UnclosedBlockText()
    ensures "" + "```" + "html" + "\n" + "<div>\n" + "```" + "css\nx\n```" == "```html\n<div>\n```css\nx\n```"
  {
  }

  lemma TrimOfDivBody()
    ensures Trim("<div>\n") == "<div>"
  {
    assert TrimStart("<div>\n") == "<div>\n";
    assert TrimEnd("<div>\n") == "<div>";
  }

  lemma TrimOfRunBody()
    ensures Trim("  run();\n") == "run();"
  {
    assert TrimStart("  run();\n") == "run();\n";
    assert TrimEnd("run();\n") == "run();";
  }

  /** A block labelled `JavaScript` in mixed case fills the script field
      through the second alternative, trimmed. */
  lemma MixedCaseJavaScriptBlock(t: string)
    requires t == "```JavaScript\n  run();\n```"
    ensures ParseField(t, JsLabels) == Some("run();")
  {
    JavaScriptSpelling();
    JavaScriptBlockText();
    SingleBlockRoundTrip("", "JavaScript", "  run();\n", "", JsLabels, 1);
    TrimOfRunBody();
  }

  lemma JavaScriptSpelling()
    ensures SpelledAs("JavaScript", JsLabels[1])
  {
  }

  lemma JavaScriptBlockText()
    ensures "" + "```" + "JavaScript" + "\n" + "  run();\n" + "```" + "" == "```JavaScript\n  run();\n```"
  {
  }
}
