/** The diagram-image script (scripts/generate_diagram_images.py): Mermaid
    fenced blocks are cut out of a Markdown text, classified by their first
    line and named `<type>_diagram_<n>.png`, one image request per block
    until a request raises. The file read, the HTTP request and the file
    write are foreign: the text is an input and the request is a function
    passed in. */
module MermaidDiagrams {
  import opened Common

  const Opener: string := "```mermaid\n"
  const Closer: string := "\n```"
  const OutputDir: string := "docs/diagrams/"

  // ------------------------------------------------ extract_mermaid_blocks

  /** A match of the pattern `open(.*?)close` under `re.DOTALL` whose group is
      `s[p + |open|..q]`: `open` at `p` and, at `q`, the first `close` after it
      (`.*?` is lazy). */
  predicate FenceAt(s: string, open: string, close: string, p: int, q: int) {
    && OccursAt(s, open, p) && p + |open| <= q && OccursAt(s, close, q)
    && NoneIn(s, close, p + |open|, q)
  }

  /** The search for the next `pat` at or after `from`, as `IndexOf` computes
      it (`FindIsIndexOf`), kept free of `IndexOf`'s contract so that reasoning
      about many searches at once brings in only the facts asked for. */
  function Find(s: string, pat: string, from: nat): (r: Option<nat>)
    ensures r.Some? ==> from <= r.value && r.value + |pat| <= |s|
    decreases |s| - from
  {
    if from + |pat| > |s| then None
    else if OccursAt(s, pat, from) then Some(from)
    else Find(s, pat, from + 1)
  }

  lemma {:induction false} FindIsIndexOf(s: string, pat: string, from: nat)
    ensures Find(s, pat, from) == IndexOf(s, pat, from)
    decreases |s| - from
  {
    if from + |pat| <= |s| && !OccursAt(s, pat, from) {
      FindIsIndexOf(s, pat, from + 1);
    }
  }

  /** What the search finds: the first `pat` at or after `from`, or none at all. */
  lemma {:induction false} FindFirst(s: string, pat: string, from: nat)
    ensures Find(s, pat, from).Some? ==>
              OccursAt(s, pat, Find(s, pat, from).value) && NoneIn(s, pat, from, Find(s, pat, from).value)
    ensures Find(s, pat, from).None? ==> forall k :: from <= k ==> !OccursAt(s, pat, k)
    decreases |s| - from
  {
    if from + |pat| <= |s| && !OccursAt(s, pat, from) {
      FindFirst(s, pat, from + 1);
    }
  }

  /** `re.findall` of that pattern from position `from`, as (open, close)
      positions: each match starts at the first `open` at or after the end of
      the previous match; once an `open` has no `close` after it, no later one
      has either, so the search ends. */
  function Spans(s: string, open: string, close: string, from: nat): seq<(nat, nat)>
    requires open != []
    decreases |s| - from
  {
    match Find(s, open, from)
    case None => []
    case Some(p) =>
      match Find(s, close, p + |open|)
      case None => []
      case Some(q) => [(p, q)] + Spans(s, open, close, q + |close|)
  }

  /** The first span found is a match at or after `from`. */
  lemma SpansHeadFence(s: string, open: string, close: string, from: nat)
    requires open != []
    ensures var spans := Spans(s, open, close, from);
      spans != [] ==> from <= spans[0].0 && FenceAt(s, open, close, spans[0].0, spans[0].1)
  {
    match Find(s, open, from)
    case None =>
    case Some(p) =>
      FindFirst(s, open, from);
      FindFirst(s, close, p + |open|);
  }

  /** The first span found starts at the first `open` after `from`
      (`SpansLeftmost` states it for every span). */
  lemma SpansHeadLeftmost(s: string, open: string, close: string, from: nat)
    requires open != []
    ensures var spans := Spans(s, open, close, from);
      spans != [] ==> IndexOf(s, open, from) == Some(spans[0].0)
  {
    FindIsIndexOf(s, open, from);
  }

  /** After the first span, the search resumes at its end. */
  lemma SpansTail(s: string, open: string, close: string, from: nat)
    requires open != []
    ensures var spans := Spans(s, open, close, from);
      spans != [] ==> spans[1..] == Spans(s, open, close, spans[0].1 + |close|)
  {
    match Find(s, open, from)
    case None =>
    case Some(p) =>
      match Find(s, close, p + |open|)
      case None =>
      case Some(q) =>
  }

  /** Every span in `spans` is a match. */
  predicate AllFences(s: string, open: string, close: string, spans: seq<(nat, nat)>) {
    spans == [] || (FenceAt(s, open, close, spans[0].0, spans[0].1) && AllFences(s, open, close, spans[1..]))
  }

  lemma {:induction false} AllFencesIndex(s: string, open: string, close: string, spans: seq<(nat, nat)>)
    requires AllFences(s, open, close, spans)
    ensures forall k :: 0 <= k < |spans| ==> FenceAt(s, open, close, spans[k].0, spans[k].1)
  {
    if spans != [] {
      AllFencesIndex(s, open, close, spans[1..]);
      forall k | 0 < k < |spans|
        ensures FenceAt(s, open, close, spans[k].0, spans[k].1)
      {
        assert spans[k] == spans[1..][k - 1];
      }
    }
  }

  /** Every span is a match: an `open`, then the nearest `close` after it. */
  lemma {:induction false} SpansAreFences(s: string, open: string, close: string, from: nat)
    requires open != []
    ensures AllFences(s, open, close, Spans(s, open, close, from))
    decreases |s| - from
  {
    var spans := Spans(s, open, close, from);
    SpansHeadFence(s, open, close, from);
    SpansTail(s, open, close, from);
    if spans != [] {
      SpansAreFences(s, open, close, spans[0].1 + |close|);
    }
  }

  /** Matches come in document order and do not overlap. */
  lemma {:induction false} SpansInOrder(s: string, open: string, close: string, from: nat)
    requires open != []
    ensures var spans := Spans(s, open, close, from);
      forall j, k :: 0 <= j < k < |spans| ==> spans[j].1 + |close| <= spans[k].0
    decreases |s| - from
  {
    var spans := Spans(s, open, close, from);
    SpansTail(s, open, close, from);
    SpansHeadFence(s, open, close, from);
    if spans != [] {
      var next := spans[0].1 + |close|;
      var rest := Spans(s, open, close, next);
      assert spans[1..] == rest;
      SpansInOrder(s, open, close, next);
      SpansHeadLeftmost(s, open, close, next);
      forall j, k | 0 <= j < k < |spans|
        ensures spans[j].1 + |close| <= spans[k].0
      {
        assert spans[k] == rest[k - 1];
        if j > 0 {
          assert spans[j] == rest[j - 1];
        } else if k > 1 {
          assert rest[0].1 + |close| <= rest[k - 1].0;
          SpansHeadFence(s, open, close, next);
        }
      }
    }
  }

  /** Where the search resumes after the first `k` matches. */
  function Resume(spans: seq<(nat, nat)>, close: string, from: nat, k: nat): nat
    requires k <= |spans|
  {
    if k == 0 then from else spans[k - 1].1 + |close|
  }

  /** Every match starts at the first `open` at or after the end of the
      previous match (or `from`, for the first): no match is skipped. */
  lemma {:induction false} SpansLeftmost(s: string, open: string, close: string, from: nat)
    requires open != []
    ensures var spans := Spans(s, open, close, from);
      forall k :: 0 <= k < |spans| ==> IndexOf(s, open, Resume(spans, close, from, k)) == Some(spans[k].0)
    decreases |s| - from
  {
    var spans := Spans(s, open, close, from);
    if spans != [] {
      SpansHeadLeftmost(s, open, close, from);
      SpansHeadFence(s, open, close, from);
      SpansTail(s, open, close, from);
      var next := spans[0].1 + |close|;
      var rest := Spans(s, open, close, next);
      SpansLeftmost(s, open, close, next);
      forall k | 0 < k < |spans|
        ensures IndexOf(s, open, Resume(spans, close, from, k)) == Some(spans[k].0)
      {
        assert spans[k] == rest[k - 1];
        assert Resume(spans, close, from, k) == Resume(rest, close, next, k - 1);
      }
    }
  }

  /** From `a` on, no `open` is followed by a `close`: nothing more can match. */
  ghost predicate NoMatchFrom(s: string, open: string, close: string, a: int) {
    forall p, q :: a <= p && p + |open| <= q && OccursAt(s, open, p) ==> !OccursAt(s, close, q)
  }

  /** When the search finds nothing, nothing matches from `from` on. */
  lemma SpansNone(s: string, open: string, close: string, from: nat)
    requires open != []
    ensures Spans(s, open, close, from) == [] ==> NoMatchFrom(s, open, close, from)
  {
    FindFirst(s, open, from);
    if Find(s, open, from).Some? {
      var p := Find(s, open, from).value;
      FindFirst(s, close, p + |open|);
      if Find(s, close, p + |open|).None? {
        forall p', q | from <= p' && p' + |open| <= q && OccursAt(s, open, p')
          ensures !OccursAt(s, close, q)
        {
          assert p <= p';
        }
      }
    }
  }

  /** No match is left after the last one. */
  lemma {:induction false} SpansExhaustive(s: string, open: string, close: string, from: nat)
    requires open != []
    ensures var spans := Spans(s, open, close, from);
      NoMatchFrom(s, open, close, Resume(spans, close, from, |spans|))
    decreases |s| - from
  {
    var spans := Spans(s, open, close, from);
    SpansNone(s, open, close, from);
    SpansTail(s, open, close, from);
    if spans != [] {
      var next := spans[0].1 + |close|;
      var rest := Spans(s, open, close, next);
      assert spans[1..] == rest;
      SpansExhaustive(s, open, close, next);
      assert Resume(spans, close, from, |spans|) == Resume(rest, close, next, |rest|);
    }
  }

  /** The Mermaid blocks' positions in the file's text. */
  function MermaidSpans(s: string): seq<(nat, nat)> {
    Spans(s, Opener, Closer, 0)
  }

  /** Every Mermaid span is a match of the pattern in the text. */
  lemma MermaidSpansAreFences(s: string)
    ensures var spans := MermaidSpans(s);
      forall k :: 0 <= k < |spans| ==> FenceAt(s, Opener, Closer, spans[k].0, spans[k].1)
  {
    SpansAreFences(s, Opener, Closer, 0);
    AllFencesIndex(s, Opener, Closer, MermaidSpans(s));
  }

  /** The group of every span. */
  function Bodies(s: string, spans: seq<(nat, nat)>): (bodies: seq<string>)
    requires forall k :: 0 <= k < |spans| ==> spans[k].0 + |Opener| <= spans[k].1 <= |s|
    ensures |bodies| == |spans|
    ensures forall k :: 0 <= k < |spans| ==> bodies[k] == s[spans[k].0 + |Opener|..spans[k].1]
  {
    seq(|spans|, k requires 0 <= k < |spans| => s[spans[k].0 + |Opener|..spans[k].1])
  }

  /** `extract_mermaid_blocks` on the file's text: the group of every match, in order. */
  function ExtractMermaidBlocks(s: string): (blocks: seq<string>)
    ensures |blocks| == |MermaidSpans(s)|
    ensures forall k :: 0 <= k < |blocks| ==>
              MermaidSpans(s)[k].0 + |Opener| <= MermaidSpans(s)[k].1 <= |s|
              && blocks[k] == s[MermaidSpans(s)[k].0 + |Opener|..MermaidSpans(s)[k].1]
  {
    MermaidSpansAreFences(s);
    Bodies(s, MermaidSpans(s))
  }

  /** No extracted block holds a closer. */
  lemma BlocksHoldNoCloser(s: string)
    ensures forall k :: 0 <= k < |ExtractMermaidBlocks(s)| ==> !Contains(ExtractMermaidBlocks(s)[k], Closer)
  {
    var spans := MermaidSpans(s);
    MermaidSpansAreFences(s);
    forall k | 0 <= k < |spans|
      ensures !Contains(ExtractMermaidBlocks(s)[k], Closer)
    {
      BodyHasNoClose(s, Opener, Closer, spans[k].0, spans[k].1);
    }
  }

  /** A window of a slice is the matching window of the whole text. */
  lemma SliceWindow(s: string, a: nat, b: nat, t: nat, n: nat)
    requires a <= b <= |s| && t + n <= b - a
    ensures s[a..b][t..t + n] == s[a + t..a + t + n]
  {
    var w := s[a..b][t..t + n];
    assert forall k :: 0 <= k < n ==> w[k] == s[a + t + k];
  }

  /** The group of a match holds no `close`. */
  lemma BodyHasNoClose(s: string, open: string, close: string, p: nat, q: nat)
    requires close != []
    requires FenceAt(s, open, close, p, q)
    ensures !Contains(s[p + |open|..q], close)
  {
    var body := s[p + |open|..q];
    ContainsIff(body, close);
    forall t | 0 <= t
      ensures !OccursAt(body, close, t)
    {
      if t + |close| <= |body| {
        SliceWindow(s, p + |open|, q, t, |close|);
        assert !OccursAt(s, close, p + |open| + t);
      }
    }
  }

  /** The first occurrence at or after `from` is the one at `p` when none lies between. */
  lemma IndexOfIs(s: string, pat: string, from: nat, p: nat)
    requires from <= p && OccursAt(s, pat, p) && NoneIn(s, pat, from, p)
    ensures IndexOf(s, pat, from) == Some(p)
  {
  }

  /** In a single fenced block whose body holds no closer, the first closer
      after the opener is the final one. */
  lemma FencedCloserFirst(body: string)
    requires !Contains(body, Closer)
    ensures var s, m := Opener + body + Closer, |Opener| + |body|;
      OccursAt(s, Opener, 0) && OccursAt(s, Closer, m) && NoneIn(s, Closer, |Opener|, m)
  {
    var s, m := Opener + body + Closer, |Opener| + |body|;
    assert s[..|Opener|] == Opener;
    assert s[m..m + |Closer|] == Closer;
    ContainsIff(body, Closer);
    forall t | |Opener| <= t < m
      ensures !OccursAt(s, Closer, t)
    {
      if t + |Closer| <= m {
        assert s[t..t + |Closer|] == body[t - |Opener|..t - |Opener| + |Closer|];
        assert !OccursAt(body, Closer, t - |Opener|);
      } else if t + |Closer| <= |s| {
        // the window would hold the closer's newline where a backquote belongs
        assert s[t..t + |Closer|][m - t] == s[m] == '\n';
      }
    }
  }

  /** A single fenced block whose body holds no closer is extracted exactly. */
  lemma ExtractFenced(body: string)
    requires !Contains(body, Closer)
    ensures ExtractMermaidBlocks(Opener + body + Closer) == [body]
  {
    var s, m := Opener + body + Closer, |Opener| + |body|;
    FencedCloserFirst(body);
    IndexOfIs(s, Opener, 0, 0);
    IndexOfIs(s, Closer, |Opener|, m);
    FindIsIndexOf(s, Opener, 0);
    FindIsIndexOf(s, Closer, |Opener|);
    assert Find(s, Opener, m + |Closer|) == None;
    assert Spans(s, Opener, Closer, m + |Closer|) == [];
    assert MermaidSpans(s) == [(0, m)];
    assert s[|Opener|..m] == body;
  }

  /** `block.split('\n')[0]`: the text before the first newline. */
  function FirstLine(block: string): (line: string)
    ensures IsPrefix(line, block) && '\n' !in line
    ensures |line| == |block| || block[|line|] == '\n'
  {
    if block == [] || block[0] == '\n' then [] else [block[0]] + FirstLine(block[1..])
  }

  /** Python's `str.isspace` for one character. */
  predicate IsSpace(c: char) {
    var n := c as int;
    || n == 0x20 || 0x09 <= n <= 0x0d || 0x1c <= n <= 0x1f || n == 0x85 || n == 0xa0
    || n == 0x1680 || 0x2000 <= n <= 0x200a || n == 0x2028 || n == 0x2029
    || n == 0x202f || n == 0x205f || n == 0x3000
  }

  /** The number of leading whitespace characters. */
  function Leading(s: string): (n: nat)
    ensures n <= |s| && (forall k :: 0 <= k < n ==> IsSpace(s[k])) && (n < |s| ==> !IsSpace(s[n]))
  {
    if s == [] || !IsSpace(s[0]) then 0 else 1 + Leading(s[1..])
  }

  /** The number of trailing whitespace characters. */
  function Trailing(s: string): (n: nat)
    ensures n <= |s| && (forall k :: |s| - n <= k < |s| ==> IsSpace(s[k]))
    ensures n < |s| ==> !IsSpace(s[|s| - n - 1])
  {
    if s == [] || !IsSpace(s[|s| - 1]) then 0 else 1 + Trailing(s[..|s| - 1])
  }

  /** The bounds of `s.strip()` in `s`: everything outside is whitespace and
      the kept text neither starts nor ends with whitespace. */
  function StripBounds(s: string): (r: (nat, nat))
    ensures r.0 <= r.1 <= |s|
    ensures forall k :: 0 <= k < r.0 || r.1 <= k < |s| ==> IsSpace(s[k])
    ensures r.0 < r.1 ==> !IsSpace(s[r.0]) && !IsSpace(s[r.1 - 1])
  {
    var a := Leading(s);
    if a == |s| then (0, 0) else (a, |s| - Trailing(s))
  }

  function Strip(s: string): string {
    s[StripBounds(s).0..StripBounds(s).1]
  }

  function LowerChar(c: char): (d: char)
    ensures IsSpace(d) <==> IsSpace(c)
  {
    if 'A' <= c <= 'Z' then (c as int + 32) as char else c
  }

  /** `str.lower()` on ASCII letters. */
  function Lower(s: string): (t: string)
    ensures |t| == |s| && forall k :: 0 <= k < |s| ==> t[k] == LowerChar(s[k])
  {
    seq(|s|, k requires 0 <= k < |s| => LowerChar(s[k]))
  }

  /** An occurrence of a word that neither starts nor ends with whitespace
      lies inside the text with whitespace cut from its ends. */
  lemma OccurrenceInTrimmed(s: string, a: nat, b: nat, word: string, t: int)
    requires a <= b <= |s| && word != []
    requires forall k :: 0 <= k < a || b <= k < |s| ==> IsSpace(s[k])
    requires !IsSpace(word[0]) && !IsSpace(word[|word| - 1])
    requires OccursAt(s, word, t)
    ensures OccursAt(s[a..b], word, t - a)
  {
    assert s[t] == s[t..t + |word|][0] == word[0];
    assert s[t + |word| - 1] == s[t..t + |word|][|word| - 1] == word[|word| - 1];
    assert a <= t && t + |word| <= b;
    SliceWindow(s, a, b, t - a, |word|);
  }

  /** A word that neither starts nor ends with whitespace occurs in a text
      exactly when it occurs in the text with whitespace cut from its ends. */
  lemma ContainsInTrimmed(s: string, a: nat, b: nat, word: string)
    requires a <= b <= |s| && word != []
    requires forall k :: 0 <= k < a || b <= k < |s| ==> IsSpace(s[k])
    requires !IsSpace(word[0]) && !IsSpace(word[|word| - 1])
    ensures Contains(s[a..b], word) <==> Contains(s, word)
  {
    ContainsIff(s[a..b], word);
    ContainsIff(s, word);
    if Contains(s[a..b], word) {
      var t :| OccursAt(s[a..b], word, t);
      OccursInSlice(s, word, a, b, t);
    }
    if Contains(s, word) {
      var t :| OccursAt(s, word, t);
      OccurrenceInTrimmed(s, a, b, word, t);
    }
  }

  /** Cutting whitespace before lower-casing never changes whether a keyword occurs. */
  lemma StripIrrelevant(line: string, word: string)
    requires word != [] && !IsSpace(word[0]) && !IsSpace(word[|word| - 1])
    ensures Contains(Lower(Strip(line)), word) <==> Contains(Lower(line), word)
  {
    var (a, b) := StripBounds(line);
    assert Lower(Strip(line)) == Lower(line)[a..b];
    ContainsInTrimmed(Lower(line), a, b, word);
  }

  /** Lines 58-67: the first keyword found, in fixed priority, decides the
      type; with none of them it is the generic `diagram`. */
  function KindOf(isClass: bool, isSequence: bool, isState: bool, isFlow: bool): (t: string)
    ensures '_' !in t && t != []
    ensures t == "class" <==> isClass
    ensures t == "sequence" <==> !isClass && isSequence
    ensures t == "state" <==> !isClass && !isSequence && isState
    ensures t == "flow" <==> !isClass && !isSequence && !isState && isFlow
    ensures t == "diagram" <==> !isClass && !isSequence && !isState && !isFlow
  {
    if isClass then "class"
    else if isSequence then "sequence"
    else if isState then "state"
    else if isFlow then "flow"
    else "diagram"
  }

  /** Line 57: the block's first line, stripped and lower-cased. */
  function PreparedLine(block: string): string {
    Lower(Strip(FirstLine(block)))
  }

  /** Lines 57-67: the keywords looked for in the prepared first line. */
  function DiagramType(block: string): (t: string)
    ensures '_' !in t && t != []
  {
    var line := PreparedLine(block);
    KindOf(Contains(line, "classdiagram"), Contains(line, "sequencediagram"),
           Contains(line, "statediagram"), Contains(line, "flowchart"))
  }

  /** A keyword occurs in the lower-cased first line of the block. */
  predicate Keyword(block: string, word: string) {
    Contains(Lower(FirstLine(block)), word)
  }

  /** Stripping the first line never changes which keyword is found. */
  lemma KeywordIgnoresStrip(block: string, word: string)
    requires word != [] && !IsSpace(word[0]) && !IsSpace(word[|word| - 1])
    ensures Contains(PreparedLine(block), word) <==> Keyword(block, word)
  {
    StripIrrelevant(FirstLine(block), word);
  }

  /** A word that neither starts nor ends with whitespace. */
  predicate Trimmed(w: string) {
    w != [] && !IsSpace(w[0]) && !IsSpace(w[|w| - 1])
  }

  /** Stripping the first line changes none of the four keyword tests. */
  lemma KindIgnoresStrip(block: string, w1: string, w2: string, w3: string, w4: string)
    requires Trimmed(w1) && Trimmed(w2) && Trimmed(w3) && Trimmed(w4)
    ensures var line := PreparedLine(block);
      KindOf(Contains(line, w1), Contains(line, w2), Contains(line, w3), Contains(line, w4))
      == KindOf(Keyword(block, w1), Keyword(block, w2), Keyword(block, w3), Keyword(block, w4))
  {
    KeywordIgnoresStrip(block, w1);
    KeywordIgnoresStrip(block, w2);
    KeywordIgnoresStrip(block, w3);
    KeywordIgnoresStrip(block, w4);
  }

  /** The type is read off the first line without regard to case or to the
      whitespace around it: that of its first keyword in priority order. */
  lemma DiagramTypeByKeyword(block: string)
    ensures DiagramType(block) == KindOf(Keyword(block, "classdiagram"), Keyword(block, "sequencediagram"),
                                         Keyword(block, "statediagram"), Keyword(block, "flowchart"))
  {
    KindIgnoresStrip(block, "classdiagram", "sequencediagram", "statediagram", "flowchart");
  }

  // ------------------------------------------------------------ the names

  /** Line 70: `f"{diagram_type}_diagram_{i+1}.png"`. */
  function OutputName(diagramType: string, i: nat): string {
    diagramType + "_diagram_" + NatToDecimal(i + 1) + ".png"
  }

  /** The index of the first `c` in `s`, or `|s|`. */
  function FirstIndex(s: string, c: char): (n: nat)
    ensures n <= |s|
  {
    if s == [] || s[0] == c then 0 else 1 + FirstIndex(s[1..], c)
  }

  lemma {:induction false} MarkerIndex(t: string, r: string, c: char)
    requires c !in t
    ensures FirstIndex(t + [c] + r, c) == |t|
  {
    if t != [] {
      assert (t + [c] + r)[1..] == t[1..] + [c] + r;
      MarkerIndex(t[1..], r, c);
    }
  }

  lemma SplitAtMarker(t1: string, r1: string, t2: string, r2: string, c: char)
    requires c !in t1 && c !in t2 && t1 + [c] + r1 == t2 + [c] + r2
    ensures t1 == t2 && r1 == r2
  {
    var s1, s2 := t1 + [c] + r1, t2 + [c] + r2;
    MarkerIndex(t1, r1, c);
    MarkerIndex(t2, r2, c);
    assert t1 == s1[..|t1|] == s2[..|t2|] == t2;
    assert r1 == s1[|t1| + 1..] == s2[|t2| + 1..] == r2;
  }

  /** A name is its type, the marker `_`, and a rest holding the numeral. */
  lemma NameParts(t: string, i: nat)
    ensures OutputName(t, i) == t + "_" + ("diagram_" + NatToDecimal(i + 1) + ".png")
  {
  }

  /** The numeral sits between the fixed `diagram_` and `.png`. */
  lemma NumeralInRest(d: string)
    ensures var r := "diagram_" + d + ".png"; |r| == |d| + 12 && r[8..|r| - 4] == d
  {
  }

  /** Two blocks never share a name: the name gives back the type and the
      position, since types hold no underscore and numerals are unique. */
  lemma OutputNameInjective(t1: string, i: nat, t2: string, j: nat)
    requires '_' !in t1 && '_' !in t2
    requires OutputName(t1, i) == OutputName(t2, j)
    ensures t1 == t2 && i == j
  {
    var d1, d2 := NatToDecimal(i + 1), NatToDecimal(j + 1);
    var r1, r2 := "diagram_" + d1 + ".png", "diagram_" + d2 + ".png";
    NameParts(t1, i);
    NameParts(t2, j);
    SplitAtMarker(t1, r1, t2, r2, '_');
    NumeralInRest(d1);
    NumeralInRest(d2);
    NatToDecimalInjective(i + 1, j + 1);
  }

  // ------------------------------------------------------------------ main

  /** The output path of the block at position `i`. */
  function OutputPath(block: string, i: nat): string {
    OutputDir + OutputName(DiagramType(block), i)
  }

  lemma OutputPathsDistinct(b1: string, i: nat, b2: string, j: nat)
    requires i != j
    ensures OutputPath(b1, i) != OutputPath(b2, j)
  {
    if OutputPath(b1, i) == OutputPath(b2, j) {
      var p1, p2 := OutputPath(b1, i), OutputPath(b2, j);
      assert OutputName(DiagramType(b1), i) == p1[|OutputDir|..] == p2[|OutputDir|..] == OutputName(DiagramType(b2), j);
      OutputNameInjective(DiagramType(b1), i, DiagramType(b2), j);
    }
  }

  /** The requests `main` makes, in order: each block with the path `name`
      gives it from the block and its position. */
  function Requests(blocks: seq<string>, name: (string, nat) -> string): seq<(string, string)> {
    if blocks == [] then []
    else
      var i := |blocks| - 1;
      Requests(blocks[..i], name) + [(blocks[i], name(blocks[i], i))]
  }

  /** One request per block, the one at position `k` for block `k` and its path. */
  lemma {:induction false} RequestsIndex(blocks: seq<string>, name: (string, nat) -> string)
    ensures |Requests(blocks, name)| == |blocks|
    ensures forall k :: 0 <= k < |blocks| ==> Requests(blocks, name)[k] == (blocks[k], name(blocks[k], k))
  {
    if blocks != [] {
      var i := |blocks| - 1;
      RequestsIndex(blocks[..i], name);
    }
  }

  /** No two of `main`'s requests write the same file. */
  lemma RequestPathsDistinct(blocks: seq<string>)
    ensures var r := Requests(blocks, OutputPath);
      forall a, b :: 0 <= a < b < |r| ==> r[a].1 != r[b].1
  {
    RequestsIndex(blocks, OutputPath);
    var r := Requests(blocks, OutputPath);
    forall a, b | 0 <= a < b < |r|
      ensures r[a].1 != r[b].1
    {
      OutputPathsDistinct(blocks[a], a, blocks[b], b);
    }
  }

  /** `generate_diagram_image` (lines 19-41) around its two foreign steps:
      `status` is what `requests.get` gave (its status code, or the text of the
      exception it raised) and `written` the outcome of writing the image,
      which only a 200 reply attempts. An exception ends the call as `Err`. */
  function DiagramImageOutcome(status: Result<int, string>, written: Result<(), string>): (r: Result<bool, string>)
    ensures r == Ok(true) <==> status == Ok(200) && written.Ok?
    ensures r == Ok(false) <==> status.Ok? && status.value != 200
    ensures status.Err? ==> r == Err(status.error)
    ensures status == Ok(200) && written.Err? ==> r == Err(written.error)
  {
    match status
    case Err(e) => Err(e)
    case Ok(code) =>
      if code != 200 then Ok(false)
      else match written
        case Err(e) => Err(e)
        case Ok(_) => Ok(true)
  }

  /** Lines 55-77: the loop over the blocks, making each request in turn and
      keeping what it returned. `generate` returns `Err` where
      `generate_diagram_image` raises, and the first such exception ends the
      loop, and `main`, in `raised`: the blocks after it get no request. */
  method RequestEach(blocks: seq<string>, name: (string, nat) -> string,
                     generate: (string, string) -> Result<bool, string>)
    returns (attempts: seq<(string, string)>, succeeded: seq<bool>, raised: Option<string>)
    ensures |attempts| <= |blocks| && attempts == Requests(blocks[..|attempts|], name)
    ensures raised.None? ==> |attempts| == |blocks| && |succeeded| == |attempts|
    ensures raised.Some? ==> 0 < |attempts| && |succeeded| == |attempts| - 1
                             && generate(attempts[|attempts| - 1].0, attempts[|attempts| - 1].1) == Err(raised.value)
    ensures forall k :: 0 <= k < |succeeded| ==> generate(attempts[k].0, attempts[k].1) == Ok(succeeded[k])
  {
    attempts, succeeded, raised := [], [], None;
    var i := 0;
    while i < |blocks| && raised.None?
      invariant 0 <= i <= |blocks| && |attempts| == i
      invariant attempts == Requests(blocks[..i], name)
      invariant raised.None? ==> |succeeded| == i
      invariant raised.Some? ==> 0 < i && |succeeded| == i - 1
                                 && generate(attempts[i - 1].0, attempts[i - 1].1) == Err(raised.value)
      invariant forall k :: 0 <= k < |succeeded| ==> generate(attempts[k].0, attempts[k].1) == Ok(succeeded[k])
    {
      var path := name(blocks[i], i);
      assert blocks[..i + 1][..i] == blocks[..i];
      attempts := attempts + [(blocks[i], path)];
      match generate(blocks[i], path) {
        case Ok(done) => succeeded := succeeded + [done];
        case Err(e) => raised := Some(e);
      }
      i := i + 1;
    }
  }

  /** `main` after the file is read: the extracted blocks are requested in
      order, each under its own path, no two for the same file, until the
      first request that raises; `generate` stands for
      `generate_diagram_image` (the request and the file write). */
  method GenerateAll(markdown: string, generate: (string, string) -> Result<bool, string>)
    returns (attempts: seq<(string, string)>, succeeded: seq<bool>, raised: Option<string>)
    ensures |attempts| <= |ExtractMermaidBlocks(markdown)|
    ensures attempts == Requests(ExtractMermaidBlocks(markdown)[..|attempts|], OutputPath)
    ensures forall a, b :: 0 <= a < b < |attempts| ==> attempts[a].1 != attempts[b].1
    ensures raised.None? ==> |attempts| == |ExtractMermaidBlocks(markdown)| && |succeeded| == |attempts|
    ensures raised.Some? ==> 0 < |attempts| && |succeeded| == |attempts| - 1
                             && generate(attempts[|attempts| - 1].0, attempts[|attempts| - 1].1) == Err(raised.value)
    ensures forall k :: 0 <= k < |succeeded| ==> generate(attempts[k].0, attempts[k].1) == Ok(succeeded[k])
  {
    var blocks := ExtractMermaidBlocks(markdown);
    attempts, succeeded, raised := RequestEach(blocks, OutputPath, generate);
    RequestPathsDistinct(blocks[..|attempts|]);
  }
}
