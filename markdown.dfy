/**
  The markdown subset in which an analysis is displayed
  (components/MarkdownRenderer.tsx). The text is cut into lines at every
  '\n'; each line becomes one block on its own: a heading of level 3, 2 or 1,
  a list item, a spacer, or a paragraph whose text is cut into plain and bold
  spans at every shortest `**…**` run, searched from left to right.
 */
module Markdown {
  import opened Wrappers
  import opened Strings

  datatype Span = Plain(text: string) | Bold(text: string)

  datatype Block =
    | Heading(level: nat, text: string)
    | ListItem(text: string)
    | Spacer
    | Paragraph(spans: seq<Span>)

  // ---------------------------------------------------------------------
  // Lines: `content.split('\n')`
  // ---------------------------------------------------------------------

  /** The pieces of `s` between its '\n' characters, in order; a text with
      n newlines has n + 1 lines, some of them possibly empty. */
  function Lines(s: string): (lines: seq<string>)
    ensures |lines| >= 1
    ensures forall i :: 0 <= i < |lines| ==> '\n' !in lines[i]
  {
    if s == [] then [[]]
    else
      var rest := Lines(s[1..]);
      if s[0] == '\n' then [[]] + rest
      else [[s[0]] + rest[0]] + rest[1..]
  }

  /** Splitting and joining again with '\n' gives back the text. */
  lemma {:induction false} LinesJoin(s: string)
    ensures Join(Lines(s), "\n") == s
  {
    if s != [] {
      var rest := Lines(s[1..]);
      LinesJoin(s[1..]);
      if s[0] == '\n' {
        assert Lines(s) == [[]] + rest;
        assert s == [s[0]] + s[1..];
      } else {
        var first := [s[0]] + rest[0];
        assert Lines(s) == [first] + rest[1..];
        if |rest| == 1 {
          assert s == [s[0]] + rest[0];
        } else {
          assert Join(rest, "\n") == rest[0] + "\n" + Join(rest[1..], "\n");
          assert ([first] + rest[1..])[1..] == rest[1..];
          assert s == [s[0]] + s[1..];
        }
      }
    }
  }

  /** A text with n line breaks has n + 1 lines. */
  lemma {:induction false} LinesCount(s: string)
    ensures |Lines(s)| == multiset(s)['\n'] + 1
  {
    if s != [] {
      LinesCount(s[1..]);
      assert s == [s[0]] + s[1..];
      assert multiset(s) == multiset([s[0]]) + multiset(s[1..]);
    }
  }

  /** A line break splits the text into the lines before it and the lines
      after it: no line's treatment depends on its neighbours. */
  lemma {:induction false} LinesAppend(a: string, b: string)
    ensures Lines(a + "\n" + b) == Lines(a) + Lines(b)
  {
    var s := a + "\n" + b;
    if a == [] {
      assert s == "\n" + b;
      assert s[1..] == b;
    } else {
      assert s[0] == a[0];
      assert s[1..] == a[1..] + "\n" + b;
      LinesAppend(a[1..], b);
    }
  }

  /** A text without '\n' is one line. */
  lemma {:induction false} LinesOfOneLine(line: string)
    requires '\n' !in line
    ensures Lines(line) == [line]
  {
    if line != [] {
      LinesOfOneLine(line[1..]);
      assert line == [line[0]] + line[1..];
    }
  }

  /** The lines of a text are determined by their two properties: none holds
      a '\n', and joined with '\n' they give the text back. */
  lemma {:induction false} LinesUnique(s: string, lines: seq<string>)
    requires |lines| >= 1
    requires forall i :: 0 <= i < |lines| ==> '\n' !in lines[i]
    requires Join(lines, "\n") == s
    ensures lines == Lines(s)
    decreases |lines|
  {
    if |lines| == 1 {
      LinesOfOneLine(s);
    } else {
      var tail := Join(lines[1..], "\n");
      assert s == lines[0] + "\n" + tail;
      LinesUnique(tail, lines[1..]);
      LinesAppend(lines[0], tail);
      LinesOfOneLine(lines[0]);
      assert lines == [lines[0]] + lines[1..];
    }
  }

  // ---------------------------------------------------------------------
  // The bold pattern /(\*\*.*?\*\*)/ as an explicit scanner
  // ---------------------------------------------------------------------

  /** The characters that the pattern's `.` does not match. */
  predicate IsLineTerminator(c: char)
  {
    c == '\n' || c == '\r' || c as int == 0x2028 || c as int == 0x2029
  }

  /** `**` stands at position k. */
  predicate StarPairAt(s: string, k: nat)
  {
    k + 1 < |s| && s[k] == '*' && s[k + 1] == '*'
  }

  /** `s[q..e]` matches `\*\*.*?\*\*`: two stars, characters other than line
      terminators, two stars. */
  ghost predicate Delimits(s: string, q: nat, e: nat)
  {
    q + 4 <= e <= |s| && StarPairAt(s, q) && StarPairAt(s, e - 2) &&
    forall k :: q + 2 <= k < e - 2 ==> !IsLineTerminator(s[k])
  }

  /** The lazy `.*?` makes the match at q the shortest one. */
  ghost predicate ShortestMatch(s: string, q: nat, e: nat)
  {
    Delimits(s, q, e) && forall e': nat :: e' < e ==> !Delimits(s, q, e')
  }

  /** No match starts at position j. */
  ghost predicate NoMatchAt(s: string, j: nat)
  {
    forall e :: !Delimits(s, j, e)
  }

  /** No match starts at any position in [lo, hi), stated one position at
      a time from the right. */
  ghost predicate NoMatchIn(s: string, lo: nat, hi: nat)
    decreases hi
  {
    hi <= lo || (NoMatchIn(s, lo, hi - 1) && NoMatchAt(s, hi - 1))
  }

  lemma {:induction false} NoMatchInAt(s: string, lo: nat, hi: nat, j: nat)
    requires NoMatchIn(s, lo, hi)
    ensures lo <= j < hi ==> NoMatchAt(s, j)
    decreases hi
  {
    if lo <= j < hi - 1 {
      NoMatchInAt(s, lo, hi - 1, j);
    }
  }

  lemma {:induction false} NoMatchInAll(s: string, lo: nat, hi: nat)
    requires forall j :: lo <= j < hi ==> NoMatchAt(s, j)
    ensures NoMatchIn(s, lo, hi)
    decreases hi
  {
    if lo < hi {
      NoMatchInAll(s, lo, hi - 1);
    }
  }

  /** Looks for the closing `**` of a run opened at q, scanning from j. */
  function CloseFrom(s: string, q: nat, j: nat): (e: Option<nat>)
    requires StarPairAt(s, q) && q + 2 <= j <= |s|
    requires forall k :: q + 2 <= k < j ==> !IsLineTerminator(s[k]) && !StarPairAt(s, k)
    decreases |s| - j
    ensures e.Some? ==> ShortestMatch(s, q, e.value)
    ensures e.None? ==> forall e' :: !Delimits(s, q, e')
  {
    if j + 2 > |s| then None
    else if StarPairAt(s, j) then Some(j + 2)
    else if IsLineTerminator(s[j]) then None
    else CloseFrom(s, q, j + 1)
  }

  /** The end of the match of the bold pattern anchored at q, if there is one
      (the pattern run with the sticky flag at position q). */
  function MatchAt(s: string, q: nat): (e: Option<nat>)
    ensures e.Some? ==> ShortestMatch(s, q, e.value)
    ensures e.None? ==> forall e' :: !Delimits(s, q, e')
  {
    if StarPairAt(s, q) then CloseFrom(s, q, q + 2) else None
  }

  /** The split loop: `p` is where the current text between matches began,
      `q` the next position to try. */
  function SplitFrom(s: string, p: nat, q: nat): seq<string>
    requires p <= q <= |s|
    decreases |s| - q
  {
    if q == |s| then [s[p..]]
    else
      match MatchAt(s, q)
      case Some(e) => [s[p..q], s[q..e]] + SplitFrom(s, e, e)
      case None => SplitFrom(s, p, q + 1)
  }

  /** `line.split(/(\*\*.*?\*\*)/g)`: the texts between matches, with each
      match (the captured group) in between. */
  function BoldSplit(line: string): seq<string>
  {
    SplitFrom(line, 0, 0)
  }

  /** The declarative reading of that split: `parts` alternates between a
      text in which no match starts and the shortest match at the position
      right after it, and ends with a text reaching the end of `s`. */
  ghost predicate Tokenizes(s: string, p: nat, parts: seq<string>)
    decreases |parts|
  {
    p <= |s| && |parts| >= 1 &&
    var q := p + |parts[0]|;
    q <= |s| && parts[0] == s[p..q] && NoMatchIn(s, p, q) &&
    if |parts| == 1 then q == |s|
    else
      |parts| >= 3 &&
      var e := q + |parts[1]|;
      ShortestMatch(s, q, e) && parts[1] == s[q..e] && Tokenizes(s, e, parts[2..])
  }

  lemma {:induction false} SplitFromTokenizes(s: string, p: nat, q: nat)
    requires p <= q <= |s| && NoMatchIn(s, p, q)
    ensures Tokenizes(s, p, SplitFrom(s, p, q))
    decreases |s| - q
  {
    if q == |s| {
      assert s[p..] == s[p..q];
    } else {
      match MatchAt(s, q)
      case Some(e) =>
        SplitFromTokenizes(s, e, e);
        TokenizesCons(s, p, q, e, SplitFrom(s, e, e));
      case None =>
        assert NoMatchAt(s, q);
        SplitFromTokenizes(s, p, q + 1);
    }
  }

  /** A text without a match, then the shortest match right after it, then
      a split of the rest, is a split. */
  lemma TokenizesCons(s: string, p: nat, q: nat, e: nat, rest: seq<string>)
    requires p <= q && NoMatchIn(s, p, q) && ShortestMatch(s, q, e) && Tokenizes(s, e, rest)
    ensures Tokenizes(s, p, [s[p..q], s[q..e]] + rest)
  {
    var parts := [s[p..q], s[q..e]] + rest;
    assert parts[2..] == rest;
  }

  /** The scanner computes the leftmost-shortest split. */
  lemma BoldSplitTokenizes(line: string)
    ensures Tokenizes(line, 0, BoldSplit(line))
  {
    SplitFromTokenizes(line, 0, 0);
  }

  /** There is only one leftmost-shortest split. */
  lemma {:induction false} TokenizesUnique(s: string, p: nat, a: seq<string>, b: seq<string>)
    requires Tokenizes(s, p, a) && Tokenizes(s, p, b)
    ensures a == b
    decreases |a|
  {
    SameFirstCut(s, p, a, b);
    if |a| > 1 {
      var e := TokenizesRest(s, p, a);
      var e' := TokenizesRest(s, p, b);
      assert e == e';
      TokenizesUnique(s, e, a[2..], b[2..]);
    }
    SameParts(a, b);
  }

  /** What follows the first text and the first match is a split of the rest. */
  lemma TokenizesRest(s: string, p: nat, parts: seq<string>) returns (e: nat)
    requires Tokenizes(s, p, parts) && |parts| > 1
    ensures e == p + |parts[0]| + |parts[1]| && Tokenizes(s, e, parts[2..])
  {
    e := p + |parts[0]| + |parts[1]|;
  }

  /** Two sequences of parts that agree on their first two parts and on the
      rest are equal. */
  lemma SameParts(a: seq<string>, b: seq<string>)
    requires |a| >= 1 && |b| >= 1 && a[0] == b[0] && (|a| > 1 <==> |b| > 1)
    requires |a| > 1 ==> a[1] == b[1] && a[2..] == b[2..]
    requires |a| == 1 ==> |b| == 1
    ensures a == b
  {
    if |a| > 1 {
      assert a == [a[0], a[1]] + a[2..];
      assert b == [b[0], b[1]] + b[2..];
    }
  }

  /** Two leftmost-shortest splits cut their first text and their first
      match at the same places: a match starting earlier would lie inside
      the other split's first text, and a match ending earlier would make the
      other one not the shortest. */
  lemma SameFirstCut(s: string, p: nat, a: seq<string>, b: seq<string>)
    requires Tokenizes(s, p, a) && Tokenizes(s, p, b)
    ensures |a| >= 1 && |b| >= 1 && a[0] == b[0] && (|a| > 1 <==> |b| > 1)
    ensures |a| > 1 ==> a[1] == b[1]
  {
    SameFirstGap(s, p, a, b);
    var qa, ea := TokenizesHead(s, p, a);
    var qb, eb := TokenizesHead(s, p, b);
    assert qa == qb;
    if |a| > 1 {
      ShortestMatchUnique(s, qa, ea, eb);
      assert a[1] == s[qa..ea] == b[1];
    }
  }

  /** The facts a split states about its first text and its first match. */
  lemma TokenizesHead(s: string, p: nat, parts: seq<string>) returns (q: nat, e: nat)
    requires Tokenizes(s, p, parts)
    ensures q == p + |parts[0]| <= |s| && parts[0] == s[p..q] && NoMatchIn(s, p, q)
    ensures |parts| == 1 ==> q == |s|
    ensures |parts| > 1 ==> e == q + |parts[1]| && ShortestMatch(s, q, e) && parts[1] == s[q..e]
  {
    q := p + |parts[0]|;
    e := if |parts| > 1 then q + |parts[1]| else q;
  }

  /** At one position there is only one shortest match. */
  lemma ShortestMatchUnique(s: string, q: nat, e1: nat, e2: nat)
    requires ShortestMatch(s, q, e1) && ShortestMatch(s, q, e2)
    ensures e1 == e2
  {
  }

  /** The first texts of two splits have the same length. */
  lemma SameFirstGap(s: string, p: nat, a: seq<string>, b: seq<string>)
    requires Tokenizes(s, p, a) && Tokenizes(s, p, b)
    ensures |a| >= 1 && |b| >= 1 && |a[0]| == |b[0]| && (|a| > 1 <==> |b| > 1)
  {
    var qa, ea := TokenizesHead(s, p, a);
    var qb, eb := TokenizesHead(s, p, b);
    NoMatchInAt(s, p, qb, qa);
    NoMatchInAt(s, p, qa, qb);
    if |a| > 1 {
      assert Delimits(s, qa, ea);
    }
    if |b| > 1 {
      assert Delimits(s, qb, eb);
    }
  }

  /** The parts of the split, from position p on, concatenate to `s[p..]`. */
  lemma {:induction false} SplitFromConcat(s: string, p: nat, q: nat)
    requires p <= q <= |s|
    ensures Concat(SplitFrom(s, p, q)) == s[p..]
    decreases |s| - q
  {
    var parts := SplitFrom(s, p, q);
    if q == |s| {
      assert parts == [s[p..]];
      assert Concat(parts) == s[p..] + Concat([]);
    } else {
      match MatchAt(s, q)
      case Some(e) =>
        SplitFromConcat(s, e, e);
        assert parts[1..][1..] == SplitFrom(s, e, e);
        assert Concat(parts) == s[p..q] + (s[q..e] + Concat(SplitFrom(s, e, e)));
        SliceInThree(s, p, q, e);
      case None =>
        SplitFromConcat(s, p, q + 1);
    }
  }

  /** A suffix of `s` cut at two further positions. */
  lemma SliceInThree(s: string, p: nat, q: nat, e: nat)
    requires p <= q <= e <= |s|
    ensures s[p..] == s[p..q] + (s[q..e] + s[e..])
  {
  }

  /** Joining the parts of a paragraph reproduces its line exactly. */
  lemma BoldSplitConcat(line: string)
    ensures Concat(BoldSplit(line)) == line
  {
    SplitFromConcat(line, 0, 0);
  }

  /** A delimited part: `**`, an inner text with no line terminator, no `**`
      and no trailing `*`, then `**`. */
  predicate IsBoldRun(x: string)
  {
    |x| >= 4 && StarPairAt(x, 0) && StarPairAt(x, |x| - 2) &&
    forall k :: 2 <= k < |x| - 2 ==> !IsLineTerminator(x[k]) && !StarPairAt(x, k)
  }

  /** Every second part is a shortest delimited run; the parts between hold no
      delimited run at all. */
  lemma {:induction false} TokenizesParts(s: string, p: nat, parts: seq<string>, i: nat)
    requires Tokenizes(s, p, parts) && i < |parts|
    ensures i % 2 == 1 ==> IsBoldRun(parts[i])
    ensures i % 2 == 0 ==> forall j, e :: !Delimits(parts[i], j, e)
    decreases i
  {
    if i == 0 {
      GapHoldsNoMatch(s, p, parts);
    } else if i == 1 {
      MatchIsBoldRun(s, p, parts);
    } else {
      var e := TokenizesRest(s, p, parts);
      TokenizesParts(s, e, parts[2..], i - 2);
      assert parts[2..][i - 2] == parts[i];
    }
  }

  /** The first text of a split holds no match of its own. */
  lemma GapHoldsNoMatch(s: string, p: nat, parts: seq<string>)
    requires Tokenizes(s, p, parts)
    ensures forall j, e :: !Delimits(parts[0], j, e)
  {
    var q := p + |parts[0]|;
    forall j, e | Delimits(parts[0], j, e)
      ensures false
    {
      NoMatchInAt(s, p, q, p + j);
      assert Delimits(s, p + j, p + e) by {
        forall k | p + j + 2 <= k < p + e - 2
          ensures !IsLineTerminator(s[k])
        {
          assert s[k] == parts[0][k - p];
        }
      }
    }
  }

  /** The first match of a split is a delimited run: being the shortest, its
      inner text holds no `**`. */
  lemma MatchIsBoldRun(s: string, p: nat, parts: seq<string>)
    requires Tokenizes(s, p, parts) && |parts| > 1
    ensures IsBoldRun(parts[1])
  {
    var q := p + |parts[0]|;
    var x := parts[1];
    assert ShortestMatch(s, q, q + |x|) && x == s[q..q + |x|];
    forall k | 2 <= k < |x| - 2
      ensures !IsLineTerminator(x[k]) && !StarPairAt(x, k)
    {
      assert x[k] == s[q + k] && x[k + 1] == s[q + k + 1];
      if StarPairAt(x, k) {
        assert Delimits(s, q, q + k + 2);
      }
    }
  }

  /** The split of a paragraph line: every odd-numbered part is a delimited
      run, every even-numbered one holds none. */
  lemma BoldSplitParts(line: string, i: nat)
    requires i < |BoldSplit(line)|
    ensures i % 2 == 1 ==> IsBoldRun(BoldSplit(line)[i])
    ensures i % 2 == 0 ==> forall j, e :: !Delimits(BoldSplit(line)[i], j, e)
  {
    BoldSplitTokenizes(line);
    TokenizesParts(line, 0, BoldSplit(line), i);
  }

  /** A line with no complete `**…**` run stays a single part. */
  lemma UnclosedStaysWhole(line: string)
    requires forall j, e :: !Delimits(line, j, e)
    ensures BoldSplit(line) == [line]
  {
    BoldSplitTokenizes(line);
    assert Tokenizes(line, 0, [line]) by {
      NoMatchInAll(line, 0, |line|);
      assert line[0..|line|] == line;
    }
    TokenizesUnique(line, 0, BoldSplit(line), [line]);
  }

  // ---------------------------------------------------------------------
  // Spans and blocks
  // ---------------------------------------------------------------------

  /** One part of the split: bold when it starts and ends with `**`, its text
      then being `part.slice(2, -2)` (empty for a part shorter than four). */
  function ClassifyPart(part: string): (span: Span)
    ensures span.Bold? <==> StartsWith(part, "**") && EndsWith(part, "**")
    ensures span.Bold? && |part| >= 4 ==> part == "**" + span.text + "**"
    ensures span.Bold? && |part| < 4 ==> span.text == []
    ensures span.Plain? ==> span.text == part
  {
    if StartsWith(part, "**") && EndsWith(part, "**") then
      Bold(if |part| >= 4 then part[2..|part| - 2] else [])
    else
      Plain(part)
  }

  /** The spans of a paragraph line, one per part of its split. */
  function Spans(line: string): seq<Span>
  {
    var parts := BoldSplit(line);
    seq(|parts|, i requires 0 <= i < |parts| => ClassifyPart(parts[i]))
  }

  /** Every delimited run becomes a bold span holding its inner text, which
      contains no `**`. */
  lemma BoldRunsBecomeBold(line: string, i: nat)
    requires i < |BoldSplit(line)| && i % 2 == 1
    ensures Spans(line)[i].Bold?
    ensures BoldSplit(line)[i] == "**" + Spans(line)[i].text + "**"
    ensures forall k :: 0 <= k < |Spans(line)[i].text| ==> !StarPairAt(Spans(line)[i].text + "*", k)
  {
    BoldSplitParts(line, i);
    var x := BoldSplit(line)[i];
    var t := Spans(line)[i].text;
    assert x[..2] == "**" && x[|x| - 2..] == "**";
    forall k | 0 <= k < |t|
      ensures !StarPairAt(t + "*", k)
    {
      assert (t + "*")[k] == x[k + 2] && (t + "*")[k + 1] == x[k + 3];
      assert !StarPairAt(x, k + 2);
    }
  }

  /** The opening marker of a heading of the given level. */
  function HeadingMarker(level: nat): string
    requires 1 <= level <= 3
  {
    if level == 3 then "### " else if level == 2 then "## " else "# "
  }

  /** The classification of one line; the tests run in the order heading 3,
      2, 1, list item, blank line, paragraph, and the first that holds wins. */
  function Classify(line: string): (b: Block)
    ensures b.Heading? <==> StartsWith(line, "### ") || StartsWith(line, "## ") || StartsWith(line, "# ")
    ensures b.Heading? ==> 1 <= b.level <= 3 && line == HeadingMarker(b.level) + b.text
    ensures b.ListItem? <==> StartsWith(line, "* ") || StartsWith(line, "- ")
    ensures b.ListItem? ==> line == "* " + b.text || line == "- " + b.text
    ensures b.Spacer? <==> IsBlank(line)
    ensures b.Paragraph? ==> b.spans == Spans(line)
  {
    if StartsWith(line, "### ") then
      assert line == line[..4] + line[4..] && line[0] == '#';
      Heading(3, line[4..])
    else if StartsWith(line, "## ") then
      assert line == line[..3] + line[3..] && line[0] == '#';
      Heading(2, line[3..])
    else if StartsWith(line, "# ") then
      assert line == line[..2] + line[2..] && line[0] == '#';
      Heading(1, line[2..])
    else if StartsWith(line, "* ") || StartsWith(line, "- ") then
      assert line == line[..2] + line[2..] && line[0] == line[..2][0];
      ListItem(line[2..])
    else if Trim(line) == [] then
      Spacer
    else
      Paragraph(Spans(line))
  }

  /** `content.split('\n').map(...)`: one block per line, in order. */
  function Render(content: string): seq<Block>
  {
    var lines := Lines(content);
    seq(|lines|, i requires 0 <= i < |lines| => Classify(lines[i]))
  }

  /** One block per line: a text with n line breaks renders as n + 1 blocks,
      the i-th being the classification of the i-th line alone. */
  lemma RenderBlockPerLine(content: string, i: nat)
    requires i < |Render(content)|
    ensures |Render(content)| == multiset(content)['\n'] + 1
    ensures i < |Lines(content)| && Render(content)[i] == Classify(Lines(content)[i])
  {
    LinesCount(content);
  }

  /** A line on its own renders as its own block. */
  lemma RenderOneLine(line: string)
    requires '\n' !in line
    ensures Render(line) == [Classify(line)]
  {
    LinesOfOneLine(line);
  }

  /** Rendering is local to lines: a line break separates the blocks of what
      stands before it from those of what stands after it. */
  lemma RenderAppend(a: string, b: string)
    ensures Render(a + "\n" + b) == Render(a) + Render(b)
  {
    LinesAppend(a, b);
  }

  /** The empty text is one empty line and renders as one spacer. */
  lemma RenderEmpty()
    ensures Render("") == [Spacer]
  {
    assert Lines("") == [[]];
  }

  /** Each heading marker gives its own level and drops exactly its own
      length from the line, whatever follows it. */
  lemma HeadingLevels(text: string)
    ensures Classify("### " + text) == Heading(3, text)
    ensures Classify("## " + text) == Heading(2, text)
    ensures Classify("# " + text) == Heading(1, text)
  {
    assert ("### " + text)[4..] == text;
    assert ("## " + text)[2] == ' ' && ("## " + text)[3..] == text;
    assert ("# " + text)[1] == ' ' && ("# " + text)[2..] == text;
  }

  /** Four hashes are not a heading: the line falls through to a paragraph. */
  lemma FourHashesIsParagraph(rest: string)
    ensures Classify("####" + rest).Paragraph?
  {
    var line := "####" + rest;
    assert line[0] == line[1] == line[2] == line[3] == '#';
    assert !IsWhitespace(line[0]);
  }

  /** A hash followed by neither a space nor another hash is not a heading. */
  lemma HashWithoutSpaceIsParagraph(c: char, rest: string)
    requires c != ' ' && c != '#'
    ensures Classify("#" + [c] + rest).Paragraph?
  {
    var line := "#" + [c] + rest;
    assert line[1] == c;
    assert !IsWhitespace(line[0]);
  }

  /** A bare "- " is an empty list item: the marker is the whole line and
      nothing is left for the item's text. */
  lemma BareDashIsEmptyListItem()
    ensures Classify("- ") == ListItem("")
  {
  }

  /** A list line is never blank, since its marker character is not white
      space: the list test and the blank-line test never both hold, so their
      order cannot change a line's block. */
  lemma ListLineIsNotBlank(line: string)
    requires StartsWith(line, "* ") || StartsWith(line, "- ")
    ensures !IsBlank(line)
  {
    assert line[0] == line[..2][0];
    assert !IsWhitespace(line[0]);
  }

  /** A line of just two or three stars has no closing run; its single part
      starts and ends with `**` and so renders as an empty bold span. */
  lemma LoneStarsRenderEmptyBold(line: string)
    requires line == "**" || line == "***"
    ensures Classify(line) == Paragraph([Bold("")])
  {
    forall j: nat, e: nat | j + 4 <= e
      ensures !Delimits(line, j, e)
    {
    }
    UnclosedStaysWhole(line);
    assert line[0] == '*' && !IsWhitespace(line[0]);
    assert ClassifyPart(line) == Bold("");
    assert Spans(line) == [Bold("")];
  }

  /** An unterminated run stays plain text: "a **b c" is one plain span. */
  lemma UnterminatedRunIsPlain()
    ensures Classify("a **b c") == Paragraph([Plain("a **b c")])
  {
    var line := "a **b c";
    forall k | StarPairAt(line, k)
      ensures k == 2
    {
    }
    OnePairNoMatch(line, 2);
    UnclosedStaysWhole(line);
    assert line[0] == 'a' && !IsWhitespace(line[0]);
    assert ClassifyPart(line) == Plain(line);
    assert Spans(line) == [Plain(line)];
  }

  /** A run at the line's edges still has its texts around it: as with
      `split`, "**x**" gives an empty plain span on either side of the bold
      one. */
  lemma RunAtEdgesKeepsEmptyPlains()
    ensures Classify("**x**") == Paragraph([Plain(""), Bold("x"), Plain("")])
  {
    var line := "**x**";
    EdgeRunSplit();
    SpansOfThree(line, "", "**x**", "");
    assert ClassifyPart("**x**") == Bold("x");
    assert line[0] == '*' && line[1] == '*' && !IsWhitespace(line[0]);
  }

  lemma EdgeRunSplit()
    ensures BoldSplit("**x**") == ["", "**x**", ""]
  {
    var line := "**x**";
    assert StarPairAt(line, 0) && !StarPairAt(line, 2) && StarPairAt(line, 3);
    assert CloseFrom(line, 0, 3) == Some(5);
    assert MatchAt(line, 0) == Some(5);
    assert |line| == 5 && line[5..] == [] && line[0..0] == [] && line[0..5] == line;
    assert SplitFrom(line, 5, 5) == [""];
  }

  /** A run inside a line splits it into three spans: "a **b** c" is the
      plain "a ", the bold "b" and the plain " c". */
  lemma RunInsideLine()
    ensures Classify("a **b** c") == Paragraph([Plain("a "), Bold("b"), Plain(" c")])
  {
    var line := "a **b** c";
    InsideRunSplit();
    SpansOfThree(line, "a ", "**b**", " c");
    assert ClassifyPart("**b**") == Bold("b");
    assert line[0] == 'a' && !IsWhitespace(line[0]);
  }

  lemma InsideRunSplit()
    ensures BoldSplit("a **b** c") == ["a ", "**b**", " c"]
  {
    var line := "a **b** c";
    InsideRunMatch();
    InsideRunRest();
    assert line[0..2] == "a " && line[2..7] == "**b**";
    assert !StarPairAt(line, 0) && !StarPairAt(line, 1);
    assert SplitFrom(line, 0, 2) == ["a ", "**b**", " c"];
    assert SplitFrom(line, 0, 1) == SplitFrom(line, 0, 2);
  }

  lemma InsideRunMatch()
    ensures MatchAt("a **b** c", 2) == Some(7)
  {
    var line := "a **b** c";
    assert StarPairAt(line, 2) && !StarPairAt(line, 4) && StarPairAt(line, 5);
    assert CloseFrom(line, 2, 5) == Some(7);
  }

  lemma InsideRunRest()
    ensures SplitFrom("a **b** c", 7, 7) == [" c"]
  {
    var line := "a **b** c";
    assert !StarPairAt(line, 7) && !StarPairAt(line, 8);
    assert |line| == 9 && line[7..] == " c";
    assert SplitFrom(line, 7, 8) == [" c"];
  }

  /** A line split into three parts has one span per part. */
  lemma SpansOfThree(line: string, x: string, y: string, z: string)
    requires BoldSplit(line) == [x, y, z]
    ensures Spans(line) == [ClassifyPart(x), ClassifyPart(y), ClassifyPart(z)]
  {
  }

  /** A line with `**` at one place only holds no complete run. */
  lemma OnePairNoMatch(line: string, i: nat)
    requires forall k :: StarPairAt(line, k) ==> k == i
    ensures forall j, e :: !Delimits(line, j, e)
  {
  }
}
