/** The caption-anchored table extractor of content.py: it walks each page's
    text blocks from top to bottom, seeds a region at every table caption,
    grows it forwards and backwards over nearby blocks, and stops the whole
    document at a back-matter heading when cutting is on.

    `ExtractTablesAndLegends` is the loop program; `Extract` is a recursive
    reference definition of the same result, about which the lemmas below
    state what the extractor promises. */
module Content {
  import opened Text

  /** One text block of a rendered page: its text and the top of its box. */
  datatype Block = Block(text: string, y: real)

  /** A region seeded by the caption block `seed`; `members` are the block
      indices whose texts form the region, top to bottom. */
  datatype Region = Region(seed: nat, members: seq<nat>)

  /** The regions found on one page and whether a back-matter heading
      stopped the scan. */
  datatype PageScan = PageScan(regions: seq<Region>, stopped: bool)

  // ---------------------------------------------------------------------
  // Ordering the blocks of a page (blocks.sort(key=lambda b: b[1]))
  // ---------------------------------------------------------------------

  predicate SortedByY(s: seq<Block>) {
    forall i, j :: 0 <= i < j < |s| ==> s[i].y <= s[j].y
  }

  /** Puts `b` in front of the first block that is not above it, so a block
      stays ahead of the later blocks with the same `y`. */
  function InsertByY(b: Block, s: seq<Block>): (r: seq<Block>)
    ensures multiset(r) == multiset(s) + multiset{b}
  {
    if s == [] || b.y <= s[0].y then [b] + s
    else
      assert s == [s[0]] + s[1..];
      [s[0]] + InsertByY(b, s[1..])
  }

  lemma {:induction false} InsertByYSorted(b: Block, s: seq<Block>)
    requires SortedByY(s)
    ensures SortedByY(InsertByY(b, s))
  {
    if s != [] && b.y > s[0].y {
      var t := InsertByY(b, s[1..]);
      InsertByYSorted(b, s[1..]);
      assert s == [s[0]] + s[1..];
      forall k | 0 <= k < |t|
        ensures s[0].y <= t[k].y
      {
        assert t[k] in multiset(t);
        assert t[k] == b || t[k] in s[1..];
      }
    }
  }

  /** Python's stable `list.sort` keyed by the vertical position. */
  function SortByY(s: seq<Block>): (r: seq<Block>)
    ensures SortedByY(r)
    ensures multiset(r) == multiset(s)
  {
    if s == [] then []
    else
      assert s == [s[0]] + s[1..];
      InsertByYSorted(s[0], SortByY(s[1..]));
      InsertByY(s[0], SortByY(s[1..]))
  }

  // ---------------------------------------------------------------------
  // The two regular expressions, as predicates
  // ---------------------------------------------------------------------

  /** Length of the run of digits at the front of `s`. */
  function DigitRun(s: string): (n: nat)
    ensures n <= |s|
  {
    if s == [] || !IsDigit(s[0]) then 0 else 1 + DigitRun(s[1..])
  }

  /** `DigitRun` counts the longest digit run at the front. */
  lemma {:induction false} DigitRunIsLongest(s: string)
    ensures var n := DigitRun(s);
      && (forall i :: 0 <= i < n ==> IsDigit(s[i]))
      && (n < |s| ==> !IsDigit(s[n]))
  {
    if s != [] && IsDigit(s[0]) {
      DigitRunIsLongest(s[1..]);
    }
  }

  predicate IsCaptionSeparator(c: char) {
    c == ':' || c == '.' || IsSpace(c)
  }

  /** `re.match(r'^(Table|TABLE)\s*\d+[:.\s]', t)`, computed greedily:
      the longest whitespace run, the longest digit run, then a separator. */
  predicate IsCaption(t: string)
    ensures IsCaption(t) ==> 7 <= |t| && t[0] == 'T'
  {
    && |t| >= 5
    && (t[..5] == "Table" || t[..5] == "TABLE")
    && var w := LeadingSpaces(t[5..]);
       var d := DigitRun(t[5 + w..]);
       1 <= d && 5 + w + d < |t| && IsCaptionSeparator(t[5 + w + d])
  }

  /** One way the caption pattern can match: `w` whitespace characters and
      `d` digits after the word, then the separator at `5 + w + d`. */
  ghost predicate CaptionSplit(t: string, w: nat, d: nat) {
    && 5 + w + d < |t|
    && (t[..5] == "Table" || t[..5] == "TABLE")
    && 1 <= d
    && (forall i :: 5 <= i < 5 + w ==> IsSpace(t[i]))
    && (forall i :: 5 + w <= i < 5 + w + d ==> IsDigit(t[i]))
    && IsCaptionSeparator(t[5 + w + d])
  }

  /** The greedy test accepts exactly the texts on which the backtracking
      regular expression finds some match. */
  lemma CaptionPatternExact(t: string)
    ensures IsCaption(t) <==> exists w: nat, d: nat :: CaptionSplit(t, w, d)
  {
    if IsCaption(t) {
      var w := LeadingSpaces(t[5..]);
      var d := DigitRun(t[5 + w..]);
      LeadingSpacesRun(t[5..]);
      DigitRunIsLongest(t[5 + w..]);
      assert CaptionSplit(t, w, d);
    }
    if w: nat, d: nat :| CaptionSplit(t, w, d) {
      var rest := t[5..];
      LeadingSpacesRun(rest);
      // the whitespace run cannot go on into the first digit
      assert !IsSpace(rest[w]);
      assert LeadingSpaces(rest) == w;
      var digits := t[5 + w..];
      DigitRunIsLongest(digits);
      // a separator is never a digit, so the digit run ends right there
      assert !IsDigit(digits[d]);
      assert DigitRun(digits) == d;
    }
  }

  /** The heading `word` at the front of `s`, followed by a word boundary
      (`\b`): the text ends there or a non-word character follows. */
  predicate StartsWithWord(s: string, word: string) {
    |word| <= |s| && s[..|word|] == word && (|s| == |word| || !IsWordChar(s[|word|]))
  }

  /** `re.match(r'^\s*(references|appendix|acknowledg(?:ement|ments)|
      supplementary\s+material|ablation)\b', lowered)`. */
  predicate IsBackMatter(lowered: string)
    ensures IsBackMatter(lowered) ==> LeadingSpaces(lowered) + 8 <= |lowered|
  {
    var s := lowered[LeadingSpaces(lowered)..];
    || StartsWithWord(s, "references")
    || StartsWithWord(s, "appendix")
    || StartsWithWord(s, "acknowledgement")
    || StartsWithWord(s, "acknowledgments")
    || StartsWithWord(s, "ablation")
    || (&& |s| >= 13 && s[..13] == "supplementary"
        && var w := LeadingSpaces(s[13..]);
           1 <= w && StartsWithWord(s[13 + w..], "material"))
  }

  /** `supplementary\s+material` at the front of `s`, with exactly `w`
      whitespace characters between the two words. */
  ghost predicate SupplementaryAt(s: string, w: nat) {
    && 1 <= w && 13 + w <= |s| && s[..13] == "supplementary"
    && (forall i :: 13 <= i < 13 + w ==> IsSpace(s[i]))
    && StartsWithWord(s[13 + w..], "material")
  }

  /** One of the pattern's headings, followed by a word boundary, at the
      front of `s`. */
  ghost predicate HeadingAt(s: string) {
    || StartsWithWord(s, "references")
    || StartsWithWord(s, "appendix")
    || StartsWithWord(s, "acknowledgement")
    || StartsWithWord(s, "acknowledgments")
    || StartsWithWord(s, "ablation")
    || exists w: nat :: SupplementaryAt(s, w)
  }

  /** One way the back-matter pattern can match: `k` whitespace characters,
      then a heading. */
  ghost predicate BackMatterSplit(lowered: string, k: nat) {
    && k <= |lowered|
    && (forall i :: 0 <= i < k ==> IsSpace(lowered[i]))
    && HeadingAt(lowered[k..])
  }

  lemma WordHead(s: string, word: string)
    requires StartsWithWord(s, word) && word != []
    ensures s != [] && s[0] == word[0]
  {
    assert s[..|word|][0] == s[0];
  }

  /** Every heading starts with a lower-case letter, so never with whitespace. */
  lemma HeadingStartsWithLetter(s: string)
    requires HeadingAt(s)
    ensures s != [] && 'a' <= s[0] <= 'z'
  {
    if w: nat :| SupplementaryAt(s, w) {
      assert s[..13][0] == s[0];
    } else if StartsWithWord(s, "references") {
      WordHead(s, "references");
    } else if StartsWithWord(s, "appendix") {
      WordHead(s, "appendix");
    } else if StartsWithWord(s, "acknowledgement") {
      WordHead(s, "acknowledgement");
    } else if StartsWithWord(s, "acknowledgments") {
      WordHead(s, "acknowledgments");
    } else {
      WordHead(s, "ablation");
    }
  }

  /** The greedy heading test on a text with no leading whitespace: the
      five plain headings, or `supplementary`, the longest whitespace run
      (at least one character) and `material`. */
  predicate GreedyHeading(s: string) {
    || StartsWithWord(s, "references")
    || StartsWithWord(s, "appendix")
    || StartsWithWord(s, "acknowledgement")
    || StartsWithWord(s, "acknowledgments")
    || StartsWithWord(s, "ablation")
    || (&& |s| >= 13 && s[..13] == "supplementary"
        && var w := LeadingSpaces(s[13..]);
           1 <= w && StartsWithWord(s[13 + w..], "material"))
  }

  /** `\s+` inside `supplementary\s+material` can only match the longest
      whitespace run, since `material` starts with a letter. */
  lemma GreedyHeadingExact(s: string)
    ensures GreedyHeading(s) <==> HeadingAt(s)
  {
    if |s| >= 13 && s[..13] == "supplementary" {
      var rest := s[13..];
      var n := LeadingSpaces(rest);
      LeadingSpacesRun(rest);
      assert s[13 + n..] == rest[n..];
      if 1 <= n && StartsWithWord(rest[n..], "material") {
        assert SupplementaryAt(s, n);
      }
      if w: nat :| SupplementaryAt(s, w) {
        WordHead(s[13 + w..], "material");
        assert s[13 + w..][0] == rest[w];
        assert n == w;
      }
    } else if w: nat :| SupplementaryAt(s, w) {
      assert false;
    }
  }

  /** The greedy test accepts exactly the texts on which the backtracking
      regular expression finds some match, however the leading `\s*` and
      the `\s+` inside `supplementary\s+material` split the text. */
  lemma BackMatterPatternExact(lowered: string)
    ensures IsBackMatter(lowered) <==> exists k: nat :: BackMatterSplit(lowered, k)
  {
    var n := LeadingSpaces(lowered);
    LeadingSpacesRun(lowered);
    GreedyHeadingExact(lowered[n..]);
    assert IsBackMatter(lowered) <==> GreedyHeading(lowered[n..]);
    if IsBackMatter(lowered) {
      assert BackMatterSplit(lowered, n);
    }
    if k: nat :| BackMatterSplit(lowered, k) {
      HeadingStartsWithLetter(lowered[k..]);
      assert lowered[k..][0] == lowered[k];
      assert k == n;
    }
  }

  /** A text whose `k`-th character differs from the heading's does not
      start with that heading. */
  lemma NotWordAt(s: string, word: string, k: nat)
    requires k < |word| && k < |s| && s[k] != word[k]
    ensures !StartsWithWord(s, word)
  {
    if |word| <= |s| {
      assert s[..|word|][k] == s[k];
    }
  }

  /** The alternation `acknowledg(?:ement|ments)` accepts two of the four
      usual spellings of the heading and rejects the other two. */
  lemma AcknowledgementSpellings()
    ensures IsBackMatter("acknowledgement") && IsBackMatter("acknowledgments")
    ensures !IsBackMatter("acknowledgements") && !IsBackMatter("acknowledgment")
  {
    var british, american := "acknowledgements", "acknowledgment";
    assert LeadingSpaces(british) == 0 && LeadingSpaces(american) == 0;
    assert british[..0 + |british| - 0] == british[0..];
    NotWordAt(british, "references", 0);
    NotWordAt(british, "appendix", 1);
    NotWordAt(british, "acknowledgments", 10);
    NotWordAt(british, "ablation", 1);
    NotWordAt(british, "supplementary", 0);
    assert !StartsWithWord(british, "acknowledgement") by {
      assert IsWordChar(british[15]);
    }
    NotWordAt(american, "references", 0);
    NotWordAt(american, "appendix", 1);
    NotWordAt(american, "acknowledgement", 10);
    NotWordAt(american, "ablation", 1);
    NotWordAt(american, "supplementary", 0);
    assert !StartsWithWord(american, "acknowledgments");
    assert LeadingSpaces("acknowledgement") == 0 && LeadingSpaces("acknowledgments") == 0;
    assert "acknowledgement"[0..] == "acknowledgement";
    assert "acknowledgments"[0..] == "acknowledgments";
    assert StartsWithWord("acknowledgement", "acknowledgement");
    assert StartsWithWord("acknowledgments", "acknowledgments");
  }

  // ---------------------------------------------------------------------
  // Growing one region (content.py, the two inner loops)
  // ---------------------------------------------------------------------

  /** A block as the extractor sees it: its stripped text, its height, and
      whether that text is a table caption or (lower-cased) a back-matter
      heading. */
  datatype Row = Row(line: string, y: real, caption: bool, backMatter: bool)

  /** Every test reads the stripped text, so surrounding whitespace never
      hides a caption or a heading; a caption or heading line is never
      empty. */
  function RowOf(b: Block): (r: Row)
    ensures r.y == b.y && |r.line| <= |b.text|
    ensures r.line != [] ==> !IsSpace(r.line[0]) && !IsSpace(r.line[|r.line| - 1])
    ensures r.caption || r.backMatter ==> r.line != []
  {
    var line := Strip(b.text);
    Row(line, b.y, IsCaption(line), IsBackMatter(Lower(line)))
  }

  /** The rows of a page, block by block. */
  function Rows(blocks: seq<Block>): (r: seq<Row>)
    ensures |r| == |blocks|
  {
    if blocks == [] then [] else [RowOf(blocks[0])] + Rows(blocks[1..])
  }

  lemma {:induction false} RowsAt(blocks: seq<Block>, k: nat)
    requires k < |blocks|
    ensures Rows(blocks)[k] == RowOf(blocks[k])
  {
    if k > 0 {
      RowsAt(blocks[1..], k - 1);
    }
  }

  /** The texts of the rows `ms`, in that order (an index past the end of
      the page, which no region holds, reads as empty). */
  function Lines(rows: seq<Row>, ms: seq<nat>): (r: seq<string>)
    ensures |r| == |ms|
  {
    if ms == [] then []
    else [if ms[0] < |rows| then rows[ms[0]].line else ""] + Lines(rows, ms[1..])
  }

  predicate StrictlyIncreasing(s: seq<nat>) {
    forall p, q :: 0 <= p < q < |s| ==> s[p] < s[q]
  }

  /** Two increasing runs, the first wholly below the second, make one. */
  lemma IncreasingConcat(a: seq<nat>, b: seq<nat>)
    requires StrictlyIncreasing(a) && StrictlyIncreasing(b)
    requires forall x, y :: x in a && y in b ==> x < y
    ensures StrictlyIncreasing(a + b)
  {
    forall p, q | 0 <= p < q < |a + b|
      ensures (a + b)[p] < (a + b)[q]
    {
      if q >= |a| && p < |a| {
        assert (a + b)[p] in a && (a + b)[q] in b;
      }
    }
  }

  function Elems(s: seq<nat>): set<nat> {
    set x | x in s
  }

  lemma ElemsAppend(a: seq<nat>, b: seq<nat>)
    ensures Elems(a + b) == Elems(a) + Elems(b)
  {
    assert forall x :: x in a + b <==> x in a || x in b;
  }

  /** Row `j` below the caption at height `y0` may join its region. */
  predicate JoinsBelow(rows: seq<Row>, j: nat, y0: real, distance: real)
    requires j < |rows|
  {
    rows[j].line != "" && rows[j].y - y0 < distance
  }

  /** Row `j` above the caption at height `y0` may join its region. */
  predicate JoinsAbove(rows: seq<Row>, j: nat, y0: real, distance: real)
    requires j < |rows|
  {
    rows[j].line != "" && y0 - rows[j].y < distance
  }

  /** The forward scan from index `j`: consumed blocks are skipped, and the
      scan ends at the first unconsumed block that does not join. */
  function Below(rows: seq<Row>, y0: real, used: set<nat>, j: nat, distance: real): (r: seq<nat>)
    requires j <= |rows|
    ensures forall x :: x in r ==> j <= x < |rows|
    decreases |rows| - j
  {
    if j == |rows| then []
    else if j in used then Below(rows, y0, used, j + 1, distance)
    else if JoinsBelow(rows, j, y0, distance) then [j] + Below(rows, y0, used, j + 1, distance)
    else []
  }

  /** The forward scan lists unconsumed, joining blocks in ascending order. */
  lemma {:induction false} BelowTakes(rows: seq<Row>, y0: real, used: set<nat>, j: nat, distance: real)
    requires j <= |rows|
    ensures var r := Below(rows, y0, used, j, distance);
      && StrictlyIncreasing(r)
      && forall x :: x in r ==> x !in used && JoinsBelow(rows, x, y0, distance)
    decreases |rows| - j
  {
    if j < |rows| && (j in used || JoinsBelow(rows, j, y0, distance)) {
      BelowTakes(rows, y0, used, j + 1, distance);
      if j !in used {
        IncreasingConcat([j], Below(rows, y0, used, j + 1, distance));
      }
    }
  }

  /** Where the forward scan from `j` stops. */
  function BelowEnd(rows: seq<Row>, y0: real, used: set<nat>, j: nat, distance: real): (hi: nat)
    requires j <= |rows|
    ensures j <= hi <= |rows|
    decreases |rows| - j
  {
    if j == |rows| then j
    else if j in used || JoinsBelow(rows, j, y0, distance) then BelowEnd(rows, y0, used, j + 1, distance)
    else j
  }

  /** The backward scan over indices `n - 1`, `n - 2`, ..., `0`, listed top
      to bottom (each hit is put in front of the region). */
  function Above(rows: seq<Row>, y0: real, used: set<nat>, n: nat, distance: real): (r: seq<nat>)
    requires n <= |rows|
    ensures forall x :: x in r ==> x < n
  {
    if n == 0 then []
    else if n - 1 in used then Above(rows, y0, used, n - 1, distance)
    else if JoinsAbove(rows, n - 1, y0, distance) then Above(rows, y0, used, n - 1, distance) + [n - 1]
    else []
  }

  /** The backward scan lists unconsumed, joining blocks in ascending order. */
  lemma {:induction false} AboveTakes(rows: seq<Row>, y0: real, used: set<nat>, n: nat, distance: real)
    requires n <= |rows|
    ensures var r := Above(rows, y0, used, n, distance);
      && StrictlyIncreasing(r)
      && forall x :: x in r ==> x !in used && JoinsAbove(rows, x, y0, distance)
  {
    if n > 0 && (n - 1 in used || JoinsAbove(rows, n - 1, y0, distance)) {
      AboveTakes(rows, y0, used, n - 1, distance);
      if n - 1 !in used {
        IncreasingConcat(Above(rows, y0, used, n - 1, distance), [n - 1]);
      }
    }
  }

  /** The lowest index the backward scan below `n` reaches. */
  function AboveStart(rows: seq<Row>, y0: real, used: set<nat>, n: nat, distance: real): (lo: nat)
    requires n <= |rows|
    ensures lo <= n
  {
    if n == 0 then 0
    else if n - 1 in used || JoinsAbove(rows, n - 1, y0, distance) then AboveStart(rows, y0, used, n - 1, distance)
    else n
  }

  /** The region seeded by caption `i` when the blocks in `used` are
      already consumed: backward hits, the caption, forward hits. The
      backward scan sees the forward hits as consumed. */
  function GrowRegion(rows: seq<Row>, i: nat, used: set<nat>, distance: real): (r: seq<nat>)
    requires i < |rows|
    ensures i in r
    ensures forall x :: x in r ==> x < |rows|
  {
    var y0 := rows[i].y;
    var below := Below(rows, y0, used + {i}, i + 1, distance);
    var above := Above(rows, y0, used + {i} + Elems(below), i, distance);
    above + [i] + below
  }

  /** A region lists its blocks top to bottom; apart from the caption, each
      was unconsumed and lies within `distance` of the caption on its side. */
  lemma RegionTakes(rows: seq<Row>, i: nat, used: set<nat>, distance: real)
    requires i < |rows|
    ensures var r := GrowRegion(rows, i, used, distance);
      && StrictlyIncreasing(r)
      && (forall x :: x in r ==> x == i || x !in used)
      && (forall x :: x in r && x < i ==> JoinsAbove(rows, x, rows[i].y, distance))
      && (forall x :: x in r && x > i ==> JoinsBelow(rows, x, rows[i].y, distance))
  {
    var y0 := rows[i].y;
    var below := Below(rows, y0, used + {i}, i + 1, distance);
    var above := Above(rows, y0, used + {i} + Elems(below), i, distance);
    BelowTakes(rows, y0, used + {i}, i + 1, distance);
    AboveTakes(rows, y0, used + {i} + Elems(below), i, distance);
    IncreasingConcat(above, [i]);
    IncreasingConcat(above + [i], below);
  }

  /** The indices in `[lo, hi)` that are not in `used`, ascending. */
  function UnusedIn(lo: nat, hi: nat, used: set<nat>): seq<nat>
    decreases hi
  {
    if hi <= lo then [] else UnusedIn(lo, hi - 1, used) + (if hi - 1 in used then [] else [hi - 1])
  }

  lemma {:induction false} UnusedInFront(lo: nat, hi: nat, used: set<nat>)
    requires lo < hi
    ensures UnusedIn(lo, hi, used) == (if lo in used then [] else [lo]) + UnusedIn(lo + 1, hi, used)
    decreases hi
  {
    if lo + 1 < hi {
      UnusedInFront(lo, hi - 1, used);
    }
  }

  /** Only the part of `used` inside the window matters. */
  lemma {:induction false} UnusedInFrame(lo: nat, hi: nat, a: set<nat>, b: set<nat>)
    requires forall x :: lo <= x < hi ==> (x in a <==> x in b)
    ensures UnusedIn(lo, hi, a) == UnusedIn(lo, hi, b)
    decreases hi
  {
    if lo < hi {
      UnusedInFrame(lo, hi - 1, a, b);
    }
  }

  /** The forward scan takes every unconsumed block of a window starting at
      `j`, and the window ends at the end of the page or at an unconsumed
      block that does not join. */
  lemma {:induction false} BelowIsWindow(rows: seq<Row>, y0: real, used: set<nat>, j: nat, distance: real)
    requires j <= |rows|
    ensures var hi := BelowEnd(rows, y0, used, j, distance);
      && Below(rows, y0, used, j, distance) == UnusedIn(j, hi, used)
      && (hi < |rows| ==> hi !in used && !JoinsBelow(rows, hi, y0, distance))
    decreases |rows| - j
  {
    if j < |rows| {
      var hi := BelowEnd(rows, y0, used, j, distance);
      if j in used || JoinsBelow(rows, j, y0, distance) {
        BelowIsWindow(rows, y0, used, j + 1, distance);
        assert hi == BelowEnd(rows, y0, used, j + 1, distance);
        UnusedInFront(j, hi, used);
      } else {
        assert hi == j;
      }
    }
  }

  /** The backward scan takes every unconsumed block of a window ending
      just before `n`, and the window starts at the top of the page or just
      below an unconsumed block that does not join. */
  lemma {:induction false} AboveIsWindow(rows: seq<Row>, y0: real, used: set<nat>, n: nat, distance: real)
    requires n <= |rows|
    ensures var lo := AboveStart(rows, y0, used, n, distance);
      && Above(rows, y0, used, n, distance) == UnusedIn(lo, n, used)
      && (0 < lo ==> lo - 1 !in used && !JoinsAbove(rows, lo - 1, y0, distance))
  {
    if n > 0 {
      AboveIsWindow(rows, y0, used, n - 1, distance);
    }
  }

  /** Where the region seeded by caption `i` ends (exclusive). */
  function RegionEnd(rows: seq<Row>, i: nat, used: set<nat>, distance: real): nat
    requires i < |rows|
  {
    BelowEnd(rows, rows[i].y, used + {i}, i + 1, distance)
  }

  /** Where the region seeded by caption `i` starts. */
  function RegionStart(rows: seq<Row>, i: nat, used: set<nat>, distance: real): nat
    requires i < |rows|
  {
    var y0 := rows[i].y;
    var below := Below(rows, y0, used + {i}, i + 1, distance);
    AboveStart(rows, y0, used + {i} + Elems(below), i, distance)
  }

  /** A region is the caption together with every block of the window
      `[lo, hi)` around it that was not consumed before, and the window is
      as wide as the scans allow: on each side it stops at the page edge
      or at an unconsumed block that is empty or too far from the caption. */
  lemma RegionShape(rows: seq<Row>, i: nat, used: set<nat>, distance: real)
    requires i < |rows|
    ensures var y0 := rows[i].y;
      var lo := RegionStart(rows, i, used, distance);
      var hi := RegionEnd(rows, i, used, distance);
      && lo <= i < hi <= |rows|
      && GrowRegion(rows, i, used, distance) == UnusedIn(lo, i, used) + [i] + UnusedIn(i + 1, hi, used)
      && (hi < |rows| ==> hi !in used && !JoinsBelow(rows, hi, y0, distance))
      && (0 < lo ==> lo - 1 !in used && !JoinsAbove(rows, lo - 1, y0, distance))
  {
    var y0 := rows[i].y;
    var used0 := used + {i};
    var below := Below(rows, y0, used0, i + 1, distance);
    var used1 := used0 + Elems(below);
    var hi := BelowEnd(rows, y0, used0, i + 1, distance);
    var lo := AboveStart(rows, y0, used1, i, distance);
    var above := Above(rows, y0, used1, i, distance);
    assert GrowRegion(rows, i, used, distance) == above + [i] + below;
    assert lo == RegionStart(rows, i, used, distance) && hi == RegionEnd(rows, i, used, distance);
    BelowIsWindow(rows, y0, used0, i + 1, distance);
    AboveIsWindow(rows, y0, used1, i, distance);
    UnusedInFrame(i + 1, hi, used0, used);
    UnusedInFrame(lo, i, used1, used);
    assert below == UnusedIn(i + 1, hi, used) && above == UnusedIn(lo, i, used);
  }

  // ---------------------------------------------------------------------
  // Scanning a page and the document (content.py, the two outer loops)
  // ---------------------------------------------------------------------

  /** The texts of the regions `rs`, each joined by newlines. */
  function RegionTexts(rows: seq<Row>, rs: seq<Region>): (r: seq<string>)
    ensures |r| == |rs|
  {
    if rs == [] then [] else [Join(Lines(rows, rs[0].members), "\n")] + RegionTexts(rows, rs[1..])
  }

  /** The scan of a sorted page from block `i` on, with the blocks in `used`
      consumed. Every caption seeds a region, even one that an earlier
      region has already taken in. */
  function ScanPage(rows: seq<Row>, cut: bool, distance: real, i: nat, used: set<nat>): (r: PageScan)
    requires i <= |rows|
    ensures !cut ==> !r.stopped
    decreases |rows| - i
  {
    if i == |rows| then PageScan([], false)
    else if cut && rows[i].backMatter then PageScan([], true)
    else if rows[i].caption then
      var ms := GrowRegion(rows, i, used, distance);
      var rest := ScanPage(rows, cut, distance, i + 1, used + Elems(ms));
      PageScan([Region(i, ms)] + rest.regions, rest.stopped)
    else ScanPage(rows, cut, distance, i + 1, used)
  }

  /** The region texts of the whole document, in encounter order, up to a
      back-matter heading when cutting is on. */
  function Tables(pages: seq<seq<Row>>, cut: bool, distance: real): (r: seq<string>)
    ensures |r| <= CaptionCount(pages)
    ensures !cut ==> |r| == CaptionCount(pages)
  {
    if pages == [] then []
    else
      var scan := ScanPage(pages[0], cut, distance, 0, {});
      ScanPageSeeds(pages[0], cut, distance, 0, {});
      CaptionsInShorter(pages[0], 0, if cut then FirstBackMatter(pages[0], 0) else |pages[0]|, |pages[0]|);
      var texts := RegionTexts(pages[0], scan.regions);
      if scan.stopped then texts else texts + Tables(pages[1..], cut, distance)
  }

  /** Number of captions in the document. */
  function CaptionCount(pages: seq<seq<Row>>): nat {
    if pages == [] then 0 else |CaptionsIn(pages[0], 0, |pages[0]|)| + CaptionCount(pages[1..])
  }

  predicate RowsSorted(rows: seq<Row>) {
    forall i, j :: 0 <= i < j < |rows| ==> rows[i].y <= rows[j].y
  }

  /** A sorted page gives its rows in the same top-to-bottom order. */
  lemma RowsKeepOrder(blocks: seq<Block>)
    requires SortedByY(blocks)
    ensures RowsSorted(Rows(blocks))
  {
    forall k | 0 <= k < |blocks|
      ensures Rows(blocks)[k].y == blocks[k].y
    {
      RowsAt(blocks, k);
    }
  }

  /** Inserting a block adds exactly its row. */
  lemma {:induction false} RowsInsert(b: Block, s: seq<Block>)
    ensures multiset(Rows(InsertByY(b, s))) == multiset(Rows(s)) + multiset{RowOf(b)}
  {
    if s == [] || b.y <= s[0].y {
      assert ([b] + s)[1..] == s;
    } else {
      RowsInsert(b, s[1..]);
      assert ([s[0]] + InsertByY(b, s[1..]))[1..] == InsertByY(b, s[1..]);
    }
  }

  /** Sorting a page permutes its rows. */
  lemma {:induction false} RowsSort(s: seq<Block>)
    ensures multiset(Rows(SortByY(s))) == multiset(Rows(s))
  {
    if s != [] {
      RowsSort(s[1..]);
      RowsInsert(s[0], SortByY(s[1..]));
    }
  }

  /** Every page's rows, one per block, sorted from top to bottom. */
  function PageRows(pages: seq<seq<Block>>): (r: seq<seq<Row>>)
    ensures |r| == |pages|
    ensures forall p :: 0 <= p < |r| ==> |r[p]| == |pages[p]| && RowsSorted(r[p])
  {
    var r := seq(|pages|, p requires 0 <= p < |pages| => Rows(SortByY(pages[p])));
    assert forall p :: 0 <= p < |r| ==> |r[p]| == |pages[p]| && RowsSorted(r[p]) by {
      forall p | 0 <= p < |r|
        ensures |r[p]| == |pages[p]| && RowsSorted(r[p])
      {
        RowsKeepOrder(SortByY(pages[p]));
        assert |multiset(SortByY(pages[p]))| == |multiset(pages[p])|;
      }
    }
    r
  }

  /** A page's rows are the rows of its own blocks, each block once: the
      sort only reorders them. */
  lemma PageRowsPermute(pages: seq<seq<Block>>, p: nat)
    requires p < |pages|
    ensures multiset(PageRows(pages)[p]) == multiset(Rows(pages[p]))
  {
    RowsSort(pages[p]);
  }

  /** The extractor's result: the regions separated by blank lines, stripped. */
  function Extract(pages: seq<seq<Block>>, cut: bool, distance: real): (r: string)
    ensures r != [] ==> !IsSpace(r[0]) && !IsSpace(r[|r| - 1])
  {
    Strip(Join(Tables(PageRows(pages), cut, distance), "\n\n"))
  }


  /** A caption whose neighbours on both sides are unconsumed and do not
      join forms a region of its own, whose text is the caption line. */
  lemma LoneCaption(rows: seq<Row>, i: nat, used: set<nat>, distance: real)
    requires i < |rows|
    requires i + 1 < |rows| ==> i + 1 !in used && !JoinsBelow(rows, i + 1, rows[i].y, distance)
    requires 0 < i ==> i - 1 !in used && !JoinsAbove(rows, i - 1, rows[i].y, distance)
    ensures GrowRegion(rows, i, used, distance) == [i]
    ensures Join(Lines(rows, GrowRegion(rows, i, used, distance)), "\n") == rows[i].line
  {
    var y0 := rows[i].y;
    assert Below(rows, y0, used + {i}, i + 1, distance) == [];
    assert Elems([]) == {};
    assert Above(rows, y0, used + {i} + Elems([]), i, distance) == [];
    assert GrowRegion(rows, i, used, distance) == [] + [i] + [];
    LinesCons(rows, i, []);
  }

  /** The forward scan does not test for back matter: an unconsumed block
      right below a caption joins its region whenever it is close enough,
      even a back-matter heading that will end the page scan next. */
  lemma ForwardIgnoresBackMatter(rows: seq<Row>, i: nat, used: set<nat>, distance: real)
    requires i + 1 < |rows| && i + 1 !in used
    requires JoinsBelow(rows, i + 1, rows[i].y, distance)
    ensures i + 1 in GrowRegion(rows, i, used, distance)
  {
    var below := Below(rows, rows[i].y, used + {i}, i + 1, distance);
    assert below[0] == i + 1;
  }

  /** The caption indices among rows `lo` .. `hi - 1`, ascending. */
  function CaptionsIn(rows: seq<Row>, lo: nat, hi: nat): (r: seq<nat>)
    requires lo <= hi <= |rows|
    decreases hi - lo
  {
    if lo == hi then []
    else (if rows[lo].caption then [lo] else []) + CaptionsIn(rows, lo + 1, hi)
  }

  /** Stopping earlier never finds more captions. */
  lemma {:induction false} CaptionsInShorter(rows: seq<Row>, lo: nat, hi: nat, end: nat)
    requires lo <= hi <= end <= |rows|
    ensures |CaptionsIn(rows, lo, hi)| <= |CaptionsIn(rows, lo, end)|
    decreases hi - lo
  {
    if lo < hi {
      CaptionsInShorter(rows, lo + 1, hi, end);
    }
  }

  /** The first back-matter row at or after `i`, or `|rows|` if none. */
  function FirstBackMatter(rows: seq<Row>, i: nat): (k: nat)
    requires i <= |rows|
    ensures i <= k <= |rows|
    ensures forall j :: i <= j < k ==> !rows[j].backMatter
    ensures k < |rows| ==> rows[k].backMatter
    decreases |rows| - i
  {
    if i == |rows| || rows[i].backMatter then i else FirstBackMatter(rows, i + 1)
  }

  function Seeds(rs: seq<Region>): (r: seq<nat>)
    ensures |r| == |rs|
  {
    if rs == [] then [] else [rs[0].seed] + Seeds(rs[1..])
  }

  /** The page scan seeds one region at every caption, in order, up to the
      first back-matter row when cutting (every caption when not), and it
      reports a stop exactly when it met such a row. */
  lemma {:induction false} ScanPageSeeds(rows: seq<Row>, cut: bool, distance: real, i: nat, used: set<nat>)
    requires i <= |rows|
    ensures var scan := ScanPage(rows, cut, distance, i, used);
      var stop := if cut then FirstBackMatter(rows, i) else |rows|;
      Seeds(scan.regions) == CaptionsIn(rows, i, stop) && scan.stopped == (stop < |rows|)
    decreases |rows| - i
  {
    if i == |rows| || (cut && rows[i].backMatter) {
    } else if rows[i].caption {
      var ms := GrowRegion(rows, i, used, distance);
      var rest := ScanPage(rows, cut, distance, i + 1, used + Elems(ms));
      ScanPageSeeds(rows, cut, distance, i + 1, used + Elems(ms));
      var rs := [Region(i, ms)] + rest.regions;
      assert rs[0].seed == i && rs[1..] == rest.regions;
    } else {
      ScanPageSeeds(rows, cut, distance, i + 1, used);
    }
  }

  /** Every region of a page scan is seeded by a caption at or after `i`,
      holds that caption, lists its blocks top to bottom, and apart from
      its seed takes only blocks that were not consumed when the scan
      began. */
  lemma {:induction false} ScanPageRegion(rows: seq<Row>, cut: bool, distance: real, i: nat, used: set<nat>, k: nat)
    requires i <= |rows|
    requires k < |ScanPage(rows, cut, distance, i, used).regions|
    ensures var r := ScanPage(rows, cut, distance, i, used).regions[k];
      && i <= r.seed < |rows| && rows[r.seed].caption
      && r.seed in r.members && StrictlyIncreasing(r.members)
      && (forall x :: x in r.members ==> x < |rows| && (x == r.seed || x !in used))
    decreases |rows| - i
  {
    if i == |rows| || (cut && rows[i].backMatter) {
    } else if rows[i].caption {
      var ms := GrowRegion(rows, i, used, distance);
      if k == 0 {
        RegionTakes(rows, i, used, distance);
      } else {
        ScanPageRegion(rows, cut, distance, i + 1, used + Elems(ms), k - 1);
      }
    } else {
      ScanPageRegion(rows, cut, distance, i + 1, used, k);
    }
  }

  /** Within one page, a block enters at most one region, except that a
      caption already taken into an earlier region still seeds its own. */
  lemma {:induction false} ScanPageExclusive(rows: seq<Row>, cut: bool, distance: real, i: nat, used: set<nat>, a: nat, b: nat, x: nat)
    requires i <= |rows|
    requires a < b < |ScanPage(rows, cut, distance, i, used).regions|
    requires var rs := ScanPage(rows, cut, distance, i, used).regions;
      x in rs[a].members && x in rs[b].members
    ensures x == ScanPage(rows, cut, distance, i, used).regions[b].seed
    decreases |rows| - i
  {
    if i == |rows| || (cut && rows[i].backMatter) {
    } else if rows[i].caption {
      var ms := GrowRegion(rows, i, used, distance);
      if a == 0 {
        ScanPageRegion(rows, cut, distance, i + 1, used + Elems(ms), b - 1);
        assert x in Elems(ms);
      } else {
        ScanPageExclusive(rows, cut, distance, i + 1, used + Elems(ms), a - 1, b - 1, x);
      }
    } else {
      ScanPageExclusive(rows, cut, distance, i + 1, used, a, b, x);
    }
  }

  /** Cutting only shortens a page scan: its regions are the first ones of
      the uncut scan, and all of them when no back-matter row was met. */
  lemma {:induction false} CutIsPrefix(rows: seq<Row>, distance: real, i: nat, used: set<nat>)
    requires i <= |rows|
    ensures var c := ScanPage(rows, true, distance, i, used);
      var f := ScanPage(rows, false, distance, i, used);
      c.regions <= f.regions && (!c.stopped ==> c == f)
    decreases |rows| - i
  {
    if i == |rows| || rows[i].backMatter {
    } else if rows[i].caption {
      var ms := GrowRegion(rows, i, used, distance);
      CutIsPrefix(rows, distance, i + 1, used + Elems(ms));
    } else {
      CutIsPrefix(rows, distance, i + 1, used);
    }
  }

  lemma {:induction false} RegionTextsPrefix(rows: seq<Row>, a: seq<Region>, b: seq<Region>)
    requires a <= b
    ensures RegionTexts(rows, a) <= RegionTexts(rows, b)
  {
    if a != [] {
      assert a[1..] <= b[1..];
      RegionTextsPrefix(rows, a[1..], b[1..]);
    }
  }

  /** Without cutting every page is scanned: the document's region texts
      are those of its first pages followed by those of the rest. */
  lemma {:induction false} TablesNoCutAppend(a: seq<seq<Row>>, b: seq<seq<Row>>, distance: real)
    ensures Tables(a + b, false, distance) == Tables(a, false, distance) + Tables(b, false, distance)
  {
    if a == [] {
      assert a + b == b;
    } else {
      assert (a + b)[0] == a[0] && (a + b)[1..] == a[1..] + b;
      TablesNoCutAppend(a[1..], b, distance);
      var texts := RegionTexts(a[0], ScanPage(a[0], false, distance, 0, {}).regions);
      AppendAssoc(texts, Tables(a[1..], false, distance), Tables(b, false, distance));
    }
  }

  /** Cutting only shortens the document's region list. */
  lemma {:induction false} TablesCutPrefix(pages: seq<seq<Row>>, distance: real)
    ensures Tables(pages, true, distance) <= Tables(pages, false, distance)
  {
    if pages != [] {
      var rows := pages[0];
      var c := ScanPage(rows, true, distance, 0, {});
      var f := ScanPage(rows, false, distance, 0, {});
      CutIsPrefix(rows, distance, 0, {});
      RegionTextsPrefix(rows, c.regions, f.regions);
      TablesCutPrefix(pages[1..], distance);
    }
  }

  /** Once a page's scan stops at a back-matter row, no later page
      contributes a region. */
  lemma {:induction false} TablesStopAt(pages: seq<seq<Row>>, distance: real, p: nat)
    requires p < |pages|
    requires ScanPage(pages[p], true, distance, 0, {}).stopped
    ensures Tables(pages, true, distance) == Tables(pages[..p + 1], true, distance)
  {
    var first := pages[..p + 1];
    assert first[0] == pages[0];
    if p > 0 {
      assert pages[1..][p - 1] == pages[p];
      TablesStopAt(pages[1..], distance, p - 1);
      assert first[1..] == pages[1..][..p];
    }
  }

  /** A page without captions yields no region. */
  lemma {:induction false} NoCaptionNoRegion(rows: seq<Row>, cut: bool, distance: real, i: nat, used: set<nat>)
    requires i <= |rows|
    requires forall k :: i <= k < |rows| ==> !rows[k].caption
    ensures ScanPage(rows, cut, distance, i, used).regions == []
    decreases |rows| - i
  {
    if i < |rows| && !(cut && rows[i].backMatter) {
      NoCaptionNoRegion(rows, cut, distance, i + 1, used);
    }
  }

  /** Pages without caption rows yield no region. */
  lemma {:induction false} NoCaptionNoTables(pages: seq<seq<Row>>, cut: bool, distance: real)
    requires forall p, k :: 0 <= p < |pages| && 0 <= k < |pages[p]| ==> !pages[p][k].caption
    ensures Tables(pages, cut, distance) == []
  {
    if pages != [] {
      NoCaptionNoRegion(pages[0], cut, distance, 0, {});
      NoCaptionNoTables(pages[1..], cut, distance);
    }
  }

  /** A document in which no block is a caption yields the empty string. */
  lemma NoCaptionEmpty(pages: seq<seq<Block>>, cut: bool, distance: real)
    requires forall p, k :: 0 <= p < |pages| && 0 <= k < |pages[p]| ==> !IsCaption(Strip(pages[p][k].text))
    ensures Extract(pages, cut, distance) == ""
  {
    var rp: seq<seq<Row>> := PageRows(pages);
    forall p: int, k: int | 0 <= p < |rp| && 0 <= k < |rp[p]|
      ensures !rp[p][k].caption
    {
      var sorted := SortByY(pages[p]);
      RowsAt(sorted, k);
      assert sorted[k] in multiset(pages[p]);
      var m :| 0 <= m < |pages[p]| && pages[p][m] == sorted[k];
    }
    NoCaptionNoTables(rp, cut, distance);
  }

  // ---------------------------------------------------------------------
  // The loops' own state, step by step
  // ---------------------------------------------------------------------

  /** The consumed set and the table after the forward loop has visited
      rows `j`, `j + 1`, ... */
  function TakeBelow(rows: seq<Row>, y0: real, distance: real, j: nat, used: set<nat>, table: seq<string>)
    : (set<nat>, seq<string>)
    requires j <= |rows|
    decreases |rows| - j
  {
    if j == |rows| then (used, table)
    else if j in used then TakeBelow(rows, y0, distance, j + 1, used, table)
    else if JoinsBelow(rows, j, y0, distance) then
      TakeBelow(rows, y0, distance, j + 1, used + {j}, table + [rows[j].line])
    else (used, table)
  }

  /** The consumed set and the table after the backward loop has visited
      rows `n - 1`, `n - 2`, ..., `0`. */
  function TakeAbove(rows: seq<Row>, y0: real, distance: real, n: nat, used: set<nat>, table: seq<string>)
    : (set<nat>, seq<string>)
    requires n <= |rows|
  {
    if n == 0 then (used, table)
    else if n - 1 in used then TakeAbove(rows, y0, distance, n - 1, used, table)
    else if JoinsAbove(rows, n - 1, y0, distance) then
      TakeAbove(rows, y0, distance, n - 1, used + {n - 1}, [rows[n - 1].line] + table)
    else (used, table)
  }

  /** The consumed set and the table once caption `i` has grown its region. */
  function GrowText(rows: seq<Row>, i: nat, used: set<nat>, distance: real): (set<nat>, seq<string>)
    requires i < |rows|
  {
    var y0 := rows[i].y;
    var below := TakeBelow(rows, y0, distance, i + 1, used + {i}, [rows[i].line]);
    TakeAbove(rows, y0, distance, i, below.0, below.1)
  }

  /** The texts collected and whether the scan stopped, once the page loop
      has visited rows `i`, `i + 1`, ... */
  function ScanFrom(rows: seq<Row>, cut: bool, distance: real, i: nat, used: set<nat>, texts: seq<string>)
    : (seq<string>, bool)
    requires i <= |rows|
    decreases |rows| - i
  {
    if i == |rows| then (texts, false)
    else if cut && rows[i].backMatter then (texts, true)
    else if rows[i].caption then
      var grown := GrowText(rows, i, used, distance);
      ScanFrom(rows, cut, distance, i + 1, grown.0, texts + [Join(grown.1, "\n")])
    else ScanFrom(rows, cut, distance, i + 1, used, texts)
  }

  lemma {:induction false} LinesAppend(rows: seq<Row>, a: seq<nat>, b: seq<nat>)
    ensures Lines(rows, a + b) == Lines(rows, a) + Lines(rows, b)
  {
    if a == [] {
      assert a + b == b;
    } else {
      assert (a + b)[1..] == a[1..] + b;
      LinesAppend(rows, a[1..], b);
    }
  }

  /** The forward scan from `j` looks at no row before `j`. */
  lemma {:induction false} BelowFrame(rows: seq<Row>, y0: real, a: set<nat>, b: set<nat>, j: nat, distance: real)
    requires j <= |rows|
    requires forall x :: j <= x < |rows| ==> (x in a <==> x in b)
    ensures Below(rows, y0, a, j, distance) == Below(rows, y0, b, j, distance)
    decreases |rows| - j
  {
    if j < |rows| {
      BelowFrame(rows, y0, a, b, j + 1, distance);
    }
  }

  /** The backward scan below `n` looks at no row from `n` on. */
  lemma {:induction false} AboveFrame(rows: seq<Row>, y0: real, a: set<nat>, b: set<nat>, n: nat, distance: real)
    requires n <= |rows|
    requires forall x :: x < n ==> (x in a <==> x in b)
    ensures Above(rows, y0, a, n, distance) == Above(rows, y0, b, n, distance)
  {
    if n > 0 {
      AboveFrame(rows, y0, a, b, n - 1, distance);
    }
  }

  /** The forward loop consumes exactly the forward hits and appends their
      texts in order. */
  lemma {:induction false} TakeBelowIsBelow(rows: seq<Row>, y0: real, distance: real, j: nat, used: set<nat>, table: seq<string>)
    requires j <= |rows|
    ensures var below := Below(rows, y0, used, j, distance);
      TakeBelow(rows, y0, distance, j, used, table) == (used + Elems(below), table + Lines(rows, below))
    decreases |rows| - j
  {
    if j == |rows| {
      assert used + Elems([]) == used && table + Lines(rows, []) == table;
    } else if j in used {
      TakeBelowIsBelow(rows, y0, distance, j + 1, used, table);
    } else if JoinsBelow(rows, j, y0, distance) {
      TakeBelowIsBelow(rows, y0, distance, j + 1, used + {j}, table + [rows[j].line]);
      TakeBelowJoin(rows, y0, distance, j, used, table);
    } else {
      assert Below(rows, y0, used, j, distance) == [];
      assert used + Elems([]) == used && table + Lines(rows, []) == table;
    }
  }

  /** The backward loop consumes exactly the backward hits and puts their
      texts, top to bottom, in front of the table. */
  lemma {:induction false} TakeAboveIsAbove(rows: seq<Row>, y0: real, distance: real, n: nat, used: set<nat>, table: seq<string>)
    requires n <= |rows|
    ensures var above := Above(rows, y0, used, n, distance);
      TakeAbove(rows, y0, distance, n, used, table) == (used + Elems(above), Lines(rows, above) + table)
  {
    if n == 0 {
      assert used + Elems([]) == used && Lines(rows, []) + table == table;
    } else if n - 1 in used {
      assert Above(rows, y0, used, n, distance) == Above(rows, y0, used, n - 1, distance);
      TakeAboveIsAbove(rows, y0, distance, n - 1, used, table);
    } else if JoinsAbove(rows, n - 1, y0, distance) {
      TakeAboveIsAbove(rows, y0, distance, n - 1, used + {n - 1}, [rows[n - 1].line] + table);
      TakeAboveJoin(rows, y0, distance, n, used, table);
    } else {
      assert Above(rows, y0, used, n, distance) == [];
      assert used + Elems([]) == used && Lines(rows, []) + table == table;
    }
  }

  /** One joining step of the forward loop, given what the loop does from
      the next row on. */
  lemma TakeBelowJoin(rows: seq<Row>, y0: real, distance: real, j: nat, used: set<nat>, table: seq<string>)
    requires j < |rows| && j !in used && JoinsBelow(rows, j, y0, distance)
    requires var line := rows[j].line;
      var rest := Below(rows, y0, used + {j}, j + 1, distance);
      TakeBelow(rows, y0, distance, j + 1, used + {j}, table + [line])
        == (used + {j} + Elems(rest), table + [line] + Lines(rows, rest))
    ensures var below := Below(rows, y0, used, j, distance);
      TakeBelow(rows, y0, distance, j, used, table) == (used + Elems(below), table + Lines(rows, below))
  {
    var line := rows[j].line;
    var rest := Below(rows, y0, used, j + 1, distance);
    BelowFrame(rows, y0, used + {j}, used, j + 1, distance);
    assert Below(rows, y0, used, j, distance) == [j] + rest;
    ConsumeOne(used, j, rest);
    LinesCons(rows, j, rest);
    AppendAssoc(table, [line], Lines(rows, rest));
  }

  /** One joining step of the backward loop, given what the loop does from
      the row above on. */
  lemma TakeAboveJoin(rows: seq<Row>, y0: real, distance: real, n: nat, used: set<nat>, table: seq<string>)
    requires 0 < n <= |rows| && n - 1 !in used && JoinsAbove(rows, n - 1, y0, distance)
    requires var line := rows[n - 1].line;
      var rest := Above(rows, y0, used + {n - 1}, n - 1, distance);
      TakeAbove(rows, y0, distance, n - 1, used + {n - 1}, [line] + table)
        == (used + {n - 1} + Elems(rest), Lines(rows, rest) + ([line] + table))
    ensures var above := Above(rows, y0, used, n, distance);
      TakeAbove(rows, y0, distance, n, used, table) == (used + Elems(above), Lines(rows, above) + table)
  {
    var line := rows[n - 1].line;
    var rest := Above(rows, y0, used, n - 1, distance);
    AboveFrame(rows, y0, used + {n - 1}, used, n - 1, distance);
    assert Above(rows, y0, used, n, distance) == rest + [n - 1];
    ConsumeOne(used, n - 1, rest);
    LinesSnoc(rows, rest, n - 1);
    AppendAssoc(Lines(rows, rest), [line], table);
    assert Lines(rows, rest + [n - 1]) + table == Lines(rows, rest) + ([line] + table);
  }

  /** Consuming row `j` and then the rows `rest` consumes the rows of
      `rest` with `j` added at either end. */
  lemma ConsumeOne(used: set<nat>, j: nat, rest: seq<nat>)
    ensures (used + {j}) + Elems(rest) == used + Elems([j] + rest)
    ensures (used + {j}) + Elems(rest) == used + Elems(rest + [j])
  {
    assert Elems([j] + rest) == Elems(rest) + {j};
    assert Elems(rest + [j]) == Elems(rest) + {j};
  }

  lemma LinesCons(rows: seq<Row>, j: nat, rest: seq<nat>)
    requires j < |rows|
    ensures Lines(rows, [j] + rest) == [rows[j].line] + Lines(rows, rest)
  {
    assert ([j] + rest)[1..] == rest;
  }

  lemma LinesSnoc(rows: seq<Row>, rest: seq<nat>, j: nat)
    requires j < |rows|
    ensures Lines(rows, rest + [j]) == Lines(rows, rest) + [rows[j].line]
  {
    assert Lines(rows, [j]) == [rows[j].line];
    LinesAppend(rows, rest, [j]);
  }

  /** Growing caption `i` step by step yields the region `GrowRegion`
      describes: its texts, and its rows added to the consumed set. */
  lemma GrowTextIsRegion(rows: seq<Row>, i: nat, used: set<nat>, distance: real)
    requires i < |rows|
    ensures var ms := GrowRegion(rows, i, used, distance);
      GrowText(rows, i, used, distance) == (used + Elems(ms), Lines(rows, ms))
  {
    var y0 := rows[i].y;
    var line := rows[i].line;
    var below := Below(rows, y0, used + {i}, i + 1, distance);
    var used1 := used + {i} + Elems(below);
    var above := Above(rows, y0, used1, i, distance);
    TakeBelowIsBelow(rows, y0, distance, i + 1, used + {i}, [line]);
    TakeAboveIsAbove(rows, y0, distance, i, used1, [line] + Lines(rows, below));
    RegionLines(rows, above, i, below);
    RegionElems(used, above, i, below);
  }

  /** The blocks of a region put together from its three parts. */
  lemma RegionElems(used: set<nat>, above: seq<nat>, i: nat, below: seq<nat>)
    ensures used + {i} + Elems(below) + Elems(above) == used + Elems(above + [i] + below)
  {
    ElemsAppend(above, [i]);
    ElemsAppend(above + [i], below);
    assert Elems([i]) == {i};
  }

  /** The texts of a region put together from its three parts. */
  lemma RegionLines(rows: seq<Row>, above: seq<nat>, i: nat, below: seq<nat>)
    requires i < |rows|
    ensures Lines(rows, above + [i] + below) == Lines(rows, above) + ([rows[i].line] + Lines(rows, below))
  {
    LinesSnoc(rows, above, i);
    LinesAppend(rows, above + [i], below);
    AppendAssoc(Lines(rows, above), [rows[i].line], Lines(rows, below));
  }

  /** The page loop, run from row `i`, appends the texts of the regions
      `ScanPage` finds there and stops exactly when `ScanPage` does. */
  lemma {:induction false} ScanFromIsScanPage(rows: seq<Row>, cut: bool, distance: real, i: nat, used: set<nat>, texts: seq<string>)
    requires i <= |rows|
    ensures var scan := ScanPage(rows, cut, distance, i, used);
      ScanFrom(rows, cut, distance, i, used, texts) == (texts + RegionTexts(rows, scan.regions), scan.stopped)
    decreases |rows| - i
  {
    if i == |rows| || (cut && rows[i].backMatter) {
      assert texts + [] == texts;
    } else if rows[i].caption {
      var ms := GrowRegion(rows, i, used, distance);
      var t := Join(Lines(rows, ms), "\n");
      GrowTextIsRegion(rows, i, used, distance);
      ScanFromIsScanPage(rows, cut, distance, i + 1, used + Elems(ms), texts + [t]);
      var rest := ScanPage(rows, cut, distance, i + 1, used + Elems(ms));
      var rs := [Region(i, ms)] + rest.regions;
      assert rs[0] == Region(i, ms) && rs[1..] == rest.regions;
      assert RegionTexts(rows, rs) == [t] + RegionTexts(rows, rest.regions);
      AppendAssoc(texts, [t], RegionTexts(rows, rest.regions));
    } else {
      ScanFromIsScanPage(rows, cut, distance, i + 1, used, texts);
    }
  }

  /** The document from page `p` on: that page's region texts, then the
      rest unless the page ended the scan. */
  lemma TablesStep(pages: seq<seq<Row>>, cut: bool, distance: real, p: nat, texts: seq<string>, stopped: bool)
    requires p < |pages|
    requires var scan := ScanPage(pages[p], cut, distance, 0, {});
      texts == RegionTexts(pages[p], scan.regions) && stopped == scan.stopped
    ensures Tables(pages[p..], cut, distance) == if stopped then texts else texts + Tables(pages[p + 1..], cut, distance)
  {
    assert pages[p..][0] == pages[p] && pages[p..][1..] == pages[p + 1..];
  }

  // ---------------------------------------------------------------------
  // The extractor itself
  // ---------------------------------------------------------------------

  /** The forward loop of content.py: takes the blocks below caption `i`
      into `table`, skipping consumed ones, until one does not join.
      `used` already holds the caption. */
  method CollectBelow(blocks: seq<Block>, i: nat, distance: real, used: set<nat>, table: seq<string>)
      returns (usedOut: set<nat>, tableOut: seq<string>)
    requires i < |blocks|
    ensures (usedOut, tableOut) == TakeBelow(Rows(blocks), blocks[i].y, distance, i + 1, used, table)
  {
    ghost var rows := Rows(blocks);
    var y0 := blocks[i].y;
    usedOut, tableOut := used, table;
    for j := i + 1 to |blocks|
      invariant TakeBelow(rows, y0, distance, i + 1, used, table) == TakeBelow(rows, y0, distance, j, usedOut, tableOut)
    {
      if j in usedOut {
        continue;
      }
      RowsAt(blocks, j);
      var bText := Strip(blocks[j].text);
      if bText != "" && blocks[j].y - y0 < distance {
        tableOut := tableOut + [bText];
        usedOut := usedOut + {j};
      } else {
        break;
      }
    }
  }

  /** The backward loop of content.py: puts the blocks above caption `i`
      in front of `table`, skipping consumed ones, until one does not join. */
  method CollectAbove(blocks: seq<Block>, i: nat, distance: real, used: set<nat>, table: seq<string>)
      returns (usedOut: set<nat>, tableOut: seq<string>)
    requires i < |blocks|
    ensures (usedOut, tableOut) == TakeAbove(Rows(blocks), blocks[i].y, distance, i, used, table)
  {
    ghost var rows := Rows(blocks);
    var y0 := blocks[i].y;
    usedOut, tableOut := used, table;
    for j := i downto 0
      invariant TakeAbove(rows, y0, distance, i, used, table) == TakeAbove(rows, y0, distance, j, usedOut, tableOut)
    {
      if j in usedOut {
        continue;
      }
      RowsAt(blocks, j);
      var bText := Strip(blocks[j].text);
      if bText != "" && y0 - blocks[j].y < distance {
        tableOut := [bText] + tableOut;
        usedOut := usedOut + {j};
      } else {
        break;
      }
    }
  }

  /** The caption branch of the page loop: the caption's text starts the
      table, the caption is consumed, and the two inner loops grow the
      region downwards, then upwards. */
  method GrowTable(blocks: seq<Block>, i: nat, distance: real, used: set<nat>, text: string)
      returns (usedOut: set<nat>, table: seq<string>)
    requires i < |blocks| && text == Strip(blocks[i].text)
    ensures (usedOut, table) == GrowText(Rows(blocks), i, used, distance)
    ensures var ms := GrowRegion(Rows(blocks), i, used, distance);
      usedOut == used + Elems(ms) && table == Lines(Rows(blocks), ms)
  {
    RowsAt(blocks, i);
    GrowTextIsRegion(Rows(blocks), i, used, distance);
    table := [text];
    usedOut := used + {i};
    usedOut, table := CollectBelow(blocks, i, distance, usedOut, table);
    usedOut, table := CollectAbove(blocks, i, distance, usedOut, table);
  }

  /** The loop over one sorted page: the texts of the regions it yields and
      whether a back-matter heading ended it. */
  method ScanBlocks(blocks: seq<Block>, cut: bool, distance: real) returns (texts: seq<string>, stopped: bool)
    ensures (texts, stopped) == ScanFrom(Rows(blocks), cut, distance, 0, {}, [])
    ensures var scan := ScanPage(Rows(blocks), cut, distance, 0, {});
      texts == RegionTexts(Rows(blocks), scan.regions) && stopped == scan.stopped
  {
    ghost var rows := Rows(blocks);
    ScanFromIsScanPage(rows, cut, distance, 0, {}, []);
    var used: set<nat> := {};
    texts, stopped := [], false;
    for i := 0 to |blocks|
      invariant ScanFrom(rows, cut, distance, 0, {}, []) == ScanFrom(rows, cut, distance, i, used, texts)
    {
      RowsAt(blocks, i);
      var text := Strip(blocks[i].text);
      if cut && IsBackMatter(Lower(text)) {
        return texts, true;
      }
      if IsCaption(text) {
        var table;
        used, table := GrowTable(blocks, i, distance, used, text);
        texts := texts + [Join(table, "\n")];
      }
    }
  }

  /** content.py `extract_tables_and_legends`, with the pages handed in
      already rendered. */
  method ExtractTablesAndLegends(pages: seq<seq<Block>>, cut: bool, distance: real) returns (result: string)
    ensures result == Extract(pages, cut, distance)
  {
    ghost var rp := PageRows(pages);
    var tableTexts: seq<string> := [];
    assert rp[0..] == rp;
    for p := 0 to |pages|
      invariant tableTexts + Tables(rp[p..], cut, distance) == Tables(rp, cut, distance)
    {
      var blocks := SortByY(pages[p]);
      var texts, stopped := ScanBlocks(blocks, cut, distance);
      TablesStep(rp, cut, distance, p, texts, stopped);
      AppendAssoc(tableTexts, texts, Tables(rp[p + 1..], cut, distance));
      tableTexts := tableTexts + texts;
      if stopped {
        return Strip(Join(tableTexts, "\n\n"));
      }
    }
    assert rp[|pages|..] == [];
    assert tableTexts + [] == tableTexts;
    result := Strip(Join(tableTexts, "\n\n"));
  }
}
