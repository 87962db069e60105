/** Overlapping character windows (app/services/ingestion/chunker.py). */
module Chunker {
  import opened Text
  import opened Wrappers

  datatype Page = Page(text: string, page: Option<int>)

  datatype TextChunk = TextChunk(
    ordinal: nat, text: string, tokenCount: nat, page: Option<int>, section: Option<string>)

  /** The overlap the code really applies: clamped to `[0, size - 1]`. */
  function Clamped(size: int, overlap: int): (c: nat)
    requires size > 0
    ensures c < size
    ensures 0 <= overlap < size ==> c == overlap
    ensures overlap < 0 ==> c == 0
    ensures overlap >= size ==> c == size - 1
  {
    var low := if overlap < size - 1 then overlap else size - 1;
    if low < 0 then 0 else low
  }

  /** The code's `max(1, ...)` never acts, because the overlap is already clamped. */
  function Step(size: int, overlap: int): (step: nat)
    requires size > 0
    ensures 1 <= step <= size && step == size - Clamped(size, overlap)
  {
    size - Clamped(size, overlap)
  }

  // ----- Specification -----

  /** The stripped, non-blank windows of `text` from position `start` on. */
  function Windows(text: string, size: nat, step: nat, start: nat): seq<string>
    requires step > 0
    decreases |text| - start
  {
    if start >= |text| then []
    else
      var window := Strip(Slice(text, start, size));
      (if window != "" then [window] else []) + Windows(text, size, step, start + step)
  }

  lemma NextWindow(text: string, size: nat, step: nat, start: nat)
    requires step > 0
    ensures Windows(text, size, step, start)
         == if start >= |text| then []
            else (if Strip(Slice(text, start, size)) != "" then [Strip(Slice(text, start, size))] else [])
                 + Windows(text, size, step, start + step)
  {
    hide Strip, Slice;
  }

  function Number(windows: seq<string>, ordinal: nat, page: Option<int>, section: Option<string>)
    : seq<TextChunk>
  {
    seq(|windows|, i requires 0 <= i < |windows| =>
      TextChunk(ordinal + i, windows[i], |Words(windows[i])|, page, section))
  }

  /** All chunks of the pages; ordinals run on from page to page. */
  function AllChunks(pages: seq<Page>, size: nat, step: nat, latestSection: string -> Option<string>)
    : seq<TextChunk>
    requires step > 0
  {
    if pages == [] then []
    else
      var before := AllChunks(pages[..|pages| - 1], size, step, latestSection);
      var text := Strip(pages[|pages| - 1].text);
      before + Number(Windows(text, size, step, 0), |before|, pages[|pages| - 1].page, latestSection(text))
  }

  function ChunkResult(pages: seq<Page>, size: int, overlap: int, latestSection: string -> Option<string>)
    : Result<seq<TextChunk>>
  {
    if size <= 0 then Err("chunk size must be positive")
    else Ok(AllChunks(pages, size, Step(size, overlap), latestSection))
  }

  lemma NumberFirst(
      chunks: seq<TextChunk>, window: string, later: seq<string>, page: Option<int>, section: Option<string>)
    ensures var longer := chunks + [TextChunk(|chunks|, window, |Words(window)|, page, section)];
      chunks + Number([window] + later, |chunks|, page, section) == longer + Number(later, |longer|, page, section)
  {
    hide Runs;
  }

  // ----- The loop -----

  method ChunkPages(pages: seq<Page>, size: int, overlap: int, latestSection: string -> Option<string>)
    returns (r: Result<seq<TextChunk>>)
    ensures r == ChunkResult(pages, size, overlap, latestSection)
  {
    hide Strip, Windows, Number;
    if size <= 0 {
      return Err("chunk size must be positive");
    }
    var step := Step(size, overlap);
    var chunks: seq<TextChunk> := [];
    for p := 0 to |pages|
      invariant chunks == AllChunks(pages[..p], size, step, latestSection)
    {
      assert pages[..p + 1][..p] == pages[..p];
      var text := Strip(pages[p].text);
      if text == "" {
        NothingToNumber(text, size, step, |chunks|, pages[p].page, latestSection(text));
        assert chunks + [] == chunks;
        continue;
      }
      chunks := CutPage(chunks, text, size, step, pages[p].page, latestSection(text));
    }
    assert pages[..|pages|] == pages;
    return Ok(chunks);
  }

  lemma NothingToNumber(text: string, size: nat, step: nat, ordinal: nat, page: Option<int>, section: Option<string>)
    requires text == "" && step > 0
    ensures Number(Windows(text, size, step, 0), ordinal, page, section) == []
  {
  }

  /** The inner loop of `chunk_pages`; the running ordinal is the number of chunks so far. */
  method CutPage(
      before: seq<TextChunk>, text: string, size: nat, step: nat, page: Option<int>, section: Option<string>)
    returns (chunks: seq<TextChunk>)
    requires step > 0
    ensures chunks == before + Number(Windows(text, size, step, 0), |before|, page, section)
  {
    hide Strip, Slice, Runs;
    chunks := before;
    var start := 0;
    while start < |text|
      invariant chunks + Number(Windows(text, size, step, start), |chunks|, page, section)
             == before + Number(Windows(text, size, step, 0), |before|, page, section)
      decreases |text| - start
    {
      var window := Strip(Slice(text, start, size));
      ghost var later := Windows(text, size, step, start + step);
      if window != "" {
        NumberFirst(chunks, window, later, page, section);
        chunks := chunks + [TextChunk(|chunks|, window, |Words(window)|, page, section)];
      } else {
        assert Windows(text, size, step, start) == [] + later == later;
      }
      start := start + step;
    }
    assert chunks + [] == chunks;
  }

  // ----- What the windows cover -----

  lemma SliceReach(text: string, start: nat, size: nat)
    ensures |Slice(text, start, size)|
         == if start >= |text| then 0 else if |text| - start < size then |text| - start else size
  {
  }

  /** A short stretch lies whole inside one of the windows. */
  lemma {:induction false} CoveringWindow(text: string, size: nat, step: nat, start: nat, i: nat, j: nat)
      returns (at: nat, n: nat)
    requires 1 <= step <= size && start <= i < j <= |text| && j - i <= size - step + 1
    ensures at <= i && j - at <= |Slice(text, at, size)|
    ensures Strip(Slice(text, at, size)) != "" ==>
              && n < |Windows(text, size, step, start)|
              && Windows(text, size, step, start)[n] == Strip(Slice(text, at, size))
    decreases |text| - start
  {
    hide Strip, Slice, Windows, IsSpace;
    NextWindow(text, size, step, start);
    SliceReach(text, start, size);
    if i < start + step {
      at, n := start, 0;
    } else {
      at, n := CoveringWindow(text, size, step, start + step, i, j);
      if Strip(Slice(text, start, size)) != "" {
        n := n + 1;
      }
    }
  }

  /** Any stretch of at most overlap + 1 characters with non-blank ends occurs
      whole in some chunk of the page. */
  lemma {:induction false} OverlapKeepsStretch(text: string, size: int, overlap: int, i: nat, j: nat) returns (n: nat)
    requires size > 0 && i < j <= |text| && j - i <= Clamped(size, overlap) + 1
    requires NonSpace(text[i]) && NonSpace(text[j - 1])
    ensures n < |Windows(text, size, Step(size, overlap), 0)|
    ensures Contains(Windows(text, size, Step(size, overlap), 0)[n], text[i..j])
  {
    var at;
    at, n := CoveringWindow(text, size, Step(size, overlap), 0, i, j);
    StretchInWindow(text, at, size, i, j);
  }

  lemma StretchInWindow(text: string, at: nat, size: nat, i: nat, j: nat)
    requires at <= i < j <= |text| && j - at <= |Slice(text, at, size)|
    requires NonSpace(text[i]) && NonSpace(text[j - 1])
    ensures Contains(Strip(Slice(text, at, size)), text[i..j])
    ensures Strip(Slice(text, at, size)) != ""
  {
    hide IsSpace, NonSpace, StripFrom, StripTo;
    var raw := Slice(text, at, size);
    SliceIsSlice(text, at, size);
    StripKeeps(raw, i - at, j - at);
    var k := i - at - StripFrom(raw);
    SliceOfSlice(raw, StripFrom(raw), StripTo(raw), k, k + (j - i));
    SliceOfSlice(text, at, at + |raw|, i - at, j - at);
    assert OccursAt(Strip(raw), text[i..j], k);
  }

  lemma SliceIsSlice(text: string, at: nat, size: nat)
    requires at <= |text|
    ensures at + |Slice(text, at, size)| <= |text|
    ensures Slice(text, at, size) == text[at..at + |Slice(text, at, size)|]
  {
  }

  /** A run that lies inside a slice is a run of the slice. */
  lemma RunInside(s: string, a: nat, b: nat, i: nat, j: nat)
    requires a <= i && j <= b <= |s| && IsRun(Lower(s), IsAlnum, i, j)
    ensures IsRun(Lower(s[a..b]), IsAlnum, i - a, j - a)
    ensures Lower(s[a..b])[i - a..j - a] == Lower(s)[i..j]
  {
    hide IsAlnum, LowerChar;
    assert Lower(s[a..b]) == Lower(s)[a..b];
    SliceOfSlice(Lower(s), a, b, i - a, j - a);
  }

  lemma AlnumIsInk(c: char)
    requires IsAlnum(LowerChar(c))
    ensures NonSpace(c)
  {
  }

  lemma TokenSurvivesStrip(s: string, i: nat, j: nat)
    requires IsRun(Lower(s), IsAlnum, i, j)
    ensures Lower(s)[i..j] in Tokens(Strip(s))
    ensures StripFrom(s) <= i && j <= StripTo(s) && Strip(s) != ""
  {
    hide IsSpace, NonSpace, IsAlnum, LowerChar, StripFrom, StripTo, Runs;
    AlnumIsInk(s[i]);
    AlnumIsInk(s[j - 1]);
    StripKeeps(s, i, j);
    RunInside(s, StripFrom(s), StripTo(s), i, j);
    RunFound(Lower(Strip(s)), IsAlnum, i - StripFrom(s), j - StripFrom(s));
  }

  lemma RunBounds(s: string, i: int, j: int)
    requires IsRun(s, IsAlnum, i, j)
    ensures 0 <= i < j <= |s|
  {
  }

  lemma TokenInWindow(page: string, at: nat, size: nat, i: nat, j: nat)
    requires IsRun(Lower(page), IsAlnum, i, j) && at <= i && j - at <= |Slice(page, at, size)|
    ensures Lower(page)[i..j] in Tokens(Strip(Slice(page, at, size)))
    ensures Strip(Slice(page, at, size)) != ""
  {
    hide IsSpace, IsAlnum, LowerChar, Strip, Slice, Tokens, StripFrom, StripTo, IsRun, NonSpace;
    var raw := Slice(page, at, size);
    RunBounds(Lower(page), i, j);
    SliceIsSlice(page, at, size);
    RunInside(page, at, at + |raw|, i, j);
    TokenSurvivesStrip(raw, i - at, j - at);
  }

  /** Every token of at most overlap + 1 characters is a whole token of a chunk. */
  lemma {:induction false} OverlapKeepsToken(text: string, size: int, overlap: int, t: string) returns (n: nat)
    requires size > 0 && t in Tokens(text) && |t| <= Clamped(size, overlap) + 1
    ensures var windows := Windows(Strip(text), size, Step(size, overlap), 0);
      n < |windows| && t in Tokens(windows[n])
  {
    hide IsSpace, IsAlnum, Strip;
    var i, j := FoundRun(Lower(text), IsAlnum, t);
    TokenSurvivesStrip(text, i, j);
    assert t in Tokens(Strip(text));
    var page := Strip(text);
    i, j := FoundRun(Lower(page), IsAlnum, t);
    var at;
    at, n := CoveringWindow(page, size, Step(size, overlap), 0, i, j);
    TokenInWindow(page, at, size, i, j);
  }

  /** Every token of length `n` of every text reaches some chunk whole. */
  ghost predicate KeepsTokens(size: int, overlap: int, n: nat)
    requires size > 0
  {
    forall text, t :: t in Tokens(text) && |t| == n ==>
      TokenInSome(Windows(Strip(text), size, Step(size, overlap), 0), t)
  }

  predicate TokenInSome(windows: seq<string>, t: string) {
    exists k :: 0 <= k < |windows| && t in Tokens(windows[k])
  }

  /** Where a window comes from: the first one, or one a whole step further on. */
  lemma {:induction false} WindowOrigin(s: string, size: nat, step: nat, start: nat, k: nat) returns (at: nat)
    requires step > 0 && k < |Windows(s, size, step, start)|
    ensures at < |s| && Windows(s, size, step, start)[k] == Strip(Slice(s, at, size))
    ensures at == start || at >= start + step
    decreases |s| - start
  {
    hide Strip, Slice, Windows;
    NextWindow(s, size, step, start);
    if Strip(Slice(s, start, size)) == "" {
      at := WindowOrigin(s, size, step, start + step, k);
    } else if k == 0 {
      at := start;
    } else {
      at := WindowOrigin(s, size, step, start + step, k - 1);
    }
  }

  /** The text that defeats the overlap: a word whose start just misses the
      second window and whose end just misses the first. */
  function Straddling(step: nat, n: nat): (text: string)
    requires step > 0
    ensures |text| == step - 1 + n
    ensures forall k :: 0 <= k < |text| ==> text[k] == (if k < step - 1 then '.' else 'a')
  {
    seq(step - 1, _ => '.') + seq(n, _ => 'a')
  }

  lemma StraddlingHasToken(step: nat, n: nat)
    requires step > 0 && n > 0
    ensures Straddling(step, n)[step - 1..] in Tokens(Straddling(step, n))
  {
    var text := Straddling(step, n);
    assert Lower(text) == text;
    assert IsRun(text, IsAlnum, step - 1, |text|);
    RunFound(text, IsAlnum, step - 1, |text|);
    assert text[step - 1..|text|] == text[step - 1..];
  }

  lemma InkIsStripped(text: string)
    requires text != "" ==> NonSpace(text[0]) && NonSpace(text[|text| - 1])
    ensures Strip(text) == text
  {
    hide IsSpace;
    if text != "" {
      StripKeeps(text, 0, |text|);
    }
  }

  /** No window of the straddling text has room for a run of `n` letters. */
  lemma WindowTooSmall(step: nat, n: nat, at: nat, size: nat, t: string)
    requires 1 <= step <= size && at < step - 1 + n && |t| == n > size - step + 1
    requires at == 0 || at >= step
    ensures t !in Tokens(Strip(Slice(Straddling(step, n), at, size)))
  {
    hide IsSpace;
    var raw := Slice(Straddling(step, n), at, size);
    var w := Strip(raw);
    if t in Tokens(w) {
      var i, j := FoundRun(Lower(w), IsAlnum, t);
      LettersStartLate(step, n, at, size, i, j);
    }
  }

  lemma LettersStartLate(step: nat, n: nat, at: nat, size: nat, i: int, j: int)
    requires 1 <= step && at < step - 1 + n
    requires IsRun(Lower(Strip(Slice(Straddling(step, n), at, size))), IsAlnum, i, j)
    ensures at + StripFrom(Slice(Straddling(step, n), at, size)) + i >= step - 1
  {
    hide IsSpace;
    var raw := Slice(Straddling(step, n), at, size);
    assert IsAlnum(Lower(Strip(raw))[i]);
    assert raw[StripFrom(raw) + i] == Straddling(step, n)[at + StripFrom(raw) + i];
  }

  lemma DotIsInk()
    ensures NonSpace('.')
  {
  }

  lemma StraddlingIsLost(size: int, overlap: int, n: nat)
    requires size > 0 && n > Clamped(size, overlap) + 1
    ensures !KeepsTokens(size, overlap, n)
  {
    hide IsSpace, IsAlnum, Strip, Slice, Runs;
    var step := Step(size, overlap);
    var text := Straddling(step, n);
    var t := text[step - 1..];
    StraddlingHasToken(step, n);
    AlnumIsInk('a');
    DotIsInk();
    InkIsStripped(text);
    var windows := Windows(text, size, step, 0);
    forall k | 0 <= k < |windows|
      ensures t !in Tokens(windows[k])
    {
      var at := WindowOrigin(text, size, step, 0, k);
      WindowTooSmall(step, n, at, size, t);
    }
    assert !TokenInSome(Windows(Strip(text), size, step, 0), t);
  }

  /** The bound overlap + 1 is exact. */
  lemma TokenBoundExact(size: int, overlap: int, n: nat)
    requires size > 0
    ensures KeepsTokens(size, overlap, n) <==> n <= Clamped(size, overlap) + 1
  {
    hide IsSpace, IsAlnum, Strip, Slice, Runs;
    if n <= Clamped(size, overlap) + 1 {
      forall text, t | t in Tokens(text) && |t| == n
        ensures TokenInSome(Windows(Strip(text), size, Step(size, overlap), 0), t)
      {
        var k := OverlapKeepsToken(text, size, overlap, t);
      }
    } else {
      StraddlingIsLost(size, overlap, n);
    }
  }

  // ----- Counting words -----

  function TotalWords(windows: seq<string>): nat {
    if windows == [] then 0 else |Words(windows[0])| + TotalWords(windows[1..])
  }

  /** What is left of the text from `start` on. */
  function Rest(text: string, start: nat): string {
    if start <= |text| then text[start..] else ""
  }

  lemma TotalFirst(window: string, later: seq<string>)
    ensures TotalWords([window] + later) == |Words(window)| + TotalWords(later)
    ensures TotalWords([] + later) == TotalWords(later)
    ensures |Words("")| == 0
  {
    assert ([window] + later)[1..] == later;
    assert [] + later == later;
  }

  lemma SliceSplits(text: string, start: nat, step: nat, size: nat)
    requires start < |text| && step <= size
    ensures Rest(text, start) == Slice(text, start, step) + Rest(text, start + step)
    ensures Slice(text, start, step) <= Slice(text, start, size)
    ensures step > 0 ==> Slice(text, start, step) != ""
  {
  }

  /** Overlapping windows never lose a word. */
  lemma {:induction false} WordsAtLeast(text: string, size: nat, step: nat, start: nat, prev: bool)
    requires 1 <= step <= size
    ensures CountRuns(Rest(text, start), NonSpace, prev) <= TotalWords(Windows(text, size, step, start))
    decreases |text| - start
  {
    hide Strip, Slice, Runs, IsSpace, Windows, TotalWords, CountRuns, Rest;
    NextWindow(text, size, step, start);
    NoRestLeft(text, start);
    if start < |text| {
      var head, window, rest := Slice(text, start, step), Slice(text, start, size), Rest(text, start + step);
      SliceSplits(text, start, step, size);
      CountConcat(head, rest, NonSpace, prev);
      CountFlag(head, NonSpace);
      CountConcat(head, window[|head|..], NonSpace, false);
      assert window == head + window[|head|..];
      StripKeepsWordCount(window);
      TotalFirst(Strip(window), Windows(text, size, step, start + step));
      WordsAtLeast(text, size, step, start + step, NonSpace(head[|head| - 1]));
    }
  }

  lemma NoRestLeft(text: string, start: nat)
    ensures start >= |text| ==> Rest(text, start) == "" && TotalWords([]) == 0
    ensures start >= |text| ==> forall prev :: CountRuns(Rest(text, start), NonSpace, prev) == 0
  {
  }

  /** Without overlap every window after the first adds at most one broken word. */
  lemma {:induction false} WordsAtMost(text: string, size: nat, start: nat)
    requires 1 <= size
    ensures TotalWords(Windows(text, size, size, start))
         <= CountRuns(Rest(text, start), NonSpace, true) + |Windows(text, size, size, start)|
    decreases |text| - start
  {
    hide Strip, Slice, Runs, IsSpace, Windows, TotalWords, CountRuns, Rest;
    NextWindow(text, size, size, start);
    NoRestLeft(text, start);
    if start < |text| {
      var head, rest := Slice(text, start, size), Rest(text, start + size);
      SliceSplits(text, start, size, size);
      CountConcat(head, rest, NonSpace, true);
      CountFlag(head, NonSpace);
      CountFlag(rest, NonSpace);
      StripKeepsWordCount(head);
      TotalFirst(Strip(head), Windows(text, size, size, start + size));
      WordsAtMost(text, size, start + size);
    }
  }

  /** Token counts of a page of `T` words: at least `T`, and without overlap at
      most `T` plus one for every chunk after the first. */
  lemma PageTokenCounts(text: string, size: int, overlap: int)
    requires size > 0 && Strip(text) != ""
    ensures var windows := Windows(Strip(text), size, Step(size, overlap), 0);
      && |Words(text)| <= TotalWords(windows)
      && (Clamped(size, overlap) == 0 ==> TotalWords(windows) <= |Words(text)| + |windows| - 1)
  {
    hide IsSpace, StripFrom, StripTo, Runs, Windows, Slice;
    var page, step := Strip(text), Step(size, overlap);
    CountIsScan(text, NonSpace);
    StripKeepsWordCount(text);
    CountIsScan(page, NonSpace);
    assert Rest(page, 0) == page;
    WordsAtLeast(page, size, step, 0, false);
    if Clamped(size, overlap) == 0 {
      FirstWindowCounts(page, size);
    }
  }

  lemma FirstWindowCounts(page: string, size: nat)
    requires size > 0 && page != "" && NonSpace(page[0])
    ensures TotalWords(Windows(page, size, size, 0))
         <= CountRuns(page, NonSpace, false) + |Windows(page, size, size, 0)| - 1
  {
    var head, rest := Slice(page, 0, size), Rest(page, size);
    SliceSplits(page, 0, size, size);
    assert page[0..] == page;
    CountConcat(head, rest, NonSpace, false);
    CountFlag(rest, NonSpace);
    StripKeepsWordCount(head);
    StripKeeps(head, 0, 1);
    TotalFirst(Strip(head), Windows(page, size, size, size));
    assert Strip(head) != "";
    WordsAtMost(page, size, size);
  }

  // ----- Conservation of characters -----

  function Ink(windows: seq<string>): string {
    if windows == [] then "" else Squeeze(windows[0]) + Ink(windows[1..])
  }

  lemma InkFirst(window: string, later: seq<string>)
    ensures Ink([window] + later) == Squeeze(window) + Ink(later)
    ensures Ink([] + later) == Ink(later)
  {
    assert ([window] + later)[1..] == later;
    assert [] + later == later;
  }

  lemma {:induction false} InkConserved(text: string, size: nat, start: nat)
    requires size > 0
    ensures Ink(Windows(text, size, size, start)) == Squeeze(Rest(text, start))
    decreases |text| - start
  {
    hide Strip, Slice, IsSpace;
    if start < |text| {
      var head := Slice(text, start, size);
      SliceSplits(text, start, size, size);
      SqueezeConcat(head, Rest(text, start + size));
      StripKeepsInk(head);
      InkFirst(Strip(head), Windows(text, size, size, start + size));
      InkConserved(text, size, start + size);
    }
  }

  ghost predicate ConservesInk(size: int, overlap: int)
    requires size > 0
  {
    forall text :: Ink(Windows(Strip(text), size, Step(size, overlap), 0)) == Squeeze(text)
  }

  /** Chunking neither loses nor repeats a character on every page exactly when
      the clamped overlap is zero. */
  lemma ConservationExact(size: int, overlap: int)
    requires size > 0
    ensures ConservesInk(size, overlap) <==> Clamped(size, overlap) == 0
  {
    hide Strip, Slice, Windows, Ink, IsSpace;
    var step := Step(size, overlap);
    if Clamped(size, overlap) == 0 {
      forall text ensures Ink(Windows(Strip(text), size, step, 0)) == Squeeze(text) {
        InkConserved(Strip(text), size, 0);
        assert Rest(Strip(text), 0) == Strip(text);
        StripKeepsInk(text);
      }
    } else {
      var text := seq(step + 1, _ => 'a');
      AlnumIsInk('a');
      RepeatedInk(text, size, step);
      assert Ink(Windows(Strip(text), size, step, 0)) != Squeeze(text);
    }
  }

  lemma RepeatedInk(text: string, size: nat, step: nat)
    requires 1 <= step < size && |text| == step + 1 && forall k :: 0 <= k < |text| ==> NonSpace(text[k])
    ensures Strip(text) == text
    ensures |Ink(Windows(text, size, step, 0))| > |Squeeze(text)|
  {
    hide IsSpace, Strip;
    var last := Slice(text, step, size);
    InkIsStripped(text);
    InkIsStripped(last);
    assert Slice(text, 0, size) == text;
    assert last == [text[step]];
    assert Windows(text, size, step, step) == [last] + Windows(text, size, step, step + step);
    assert Windows(text, size, step, 0) == [text] + Windows(text, size, step, 0 + step);
    assert Windows(text, size, step, 0) == [text, last];
    assert Ink([last]) == Squeeze(last) + Ink([]);
    assert [text, last][1..] == [last];
    assert Ink([text, last]) == Squeeze(text) + Ink([last]);
    assert Squeeze(last) == last + Squeeze(last[1..]);
  }

  // ----- The numbered chunks -----

  predicate WellFormed(chunk: TextChunk, k: nat, size: nat) {
    chunk.ordinal == k && 0 < |chunk.text| <= size && chunk.tokenCount == |Words(chunk.text)|
  }

  /** Ordinals are exactly `0..n-1` across pages, and every chunk is a non-blank
      stripped text no longer than a window, with its own word count. */
  lemma {:induction false} ChunksWellFormed(pages: seq<Page>, size: nat, step: nat, ls: string -> Option<string>)
    requires step > 0
    ensures forall k :: 0 <= k < |AllChunks(pages, size, step, ls)| ==>
              WellFormed(AllChunks(pages, size, step, ls)[k], k, size)
    decreases |pages|
  {
    hide Strip, Windows, Runs;
    if pages != [] {
      ChunksWellFormed(pages[..|pages| - 1], size, step, ls);
      var text := Strip(pages[|pages| - 1].text);
      WindowsShort(text, size, step, 0);
    }
  }

  lemma {:induction false} WindowsShort(text: string, size: nat, step: nat, start: nat)
    requires step > 0
    ensures forall k :: 0 <= k < |Windows(text, size, step, start)| ==>
              0 < |Windows(text, size, step, start)[k]| <= size
    decreases |text| - start
  {
    hide Strip, Slice;
    if start < |text| {
      WindowsShort(text, size, step, start + step);
    }
  }

  /** Every window of every page is the text of a chunk carrying that page's data. */
  lemma {:induction false} WindowBecomesChunk(
      pages: seq<Page>, size: nat, step: nat, ls: string -> Option<string>, q: nat, k: nat) returns (n: nat)
    requires step > 0 && q < |pages| && k < |Windows(Strip(pages[q].text), size, step, 0)|
    ensures n < |AllChunks(pages, size, step, ls)|
    ensures var chunk := AllChunks(pages, size, step, ls)[n];
      && chunk.text == Windows(Strip(pages[q].text), size, step, 0)[k]
      && chunk.page == pages[q].page && chunk.section == ls(Strip(pages[q].text))
    decreases |pages|
  {
    hide Strip, Windows, Runs;
    var before := pages[..|pages| - 1];
    if q < |pages| - 1 {
      n := WindowBecomesChunk(before, size, step, ls, q, k);
    } else {
      n := |AllChunks(before, size, step, ls)| + k;
    }
  }

  /** The keyword test of retrieval accepts the chunk that holds a short token. */
  lemma TokenReachesChunk(
      pages: seq<Page>, size: int, overlap: int, ls: string -> Option<string>, q: nat, t: string) returns (n: nat)
    requires size > 0 && q < |pages| && t in Tokens(pages[q].text) && |t| <= Clamped(size, overlap) + 1
    ensures ChunkResult(pages, size, overlap, ls).Ok?
    ensures var chunks := ChunkResult(pages, size, overlap, ls).value;
      n < |chunks| && t in Tokens(chunks[n].text) && chunks[n].page == pages[q].page
  {
    hide Strip, Windows, Runs, IsAlnum;
    var k := OverlapKeepsToken(pages[q].text, size, overlap, t);
    n := WindowBecomesChunk(pages, size, Step(size, overlap), ls, q, k);
  }

  // ----- Where a chunk comes from -----

  lemma {:induction false} WindowSource(text: string, size: nat, step: nat, start: nat, k: nat)
      returns (m: nat, at: nat)
    requires step > 0 && k < |Windows(text, size, step, start)|
    ensures at == start + m * step && at < |text|
    ensures Windows(text, size, step, start)[k] == Strip(Slice(text, at, size))
    decreases |text| - start
  {
    hide Strip, Slice, Windows;
    NextWindow(text, size, step, start);
    if Strip(Slice(text, start, size)) != "" && k == 0 {
      m, at := 0, start;
    } else {
      var skipped := if Strip(Slice(text, start, size)) != "" then 1 else 0;
      m, at := WindowSource(text, size, step, start + step, k - skipped);
      OneStepMore(m, step);
      m := m + 1;
    }
  }

  lemma OneStepMore(m: nat, step: nat)
    ensures step + m * step == (m + 1) * step
  {
  }

  /** The chunk is the stripped window of the page that begins at `at`, and carries the
      page's number and section. */
  predicate CutFrom(chunk: TextChunk, page: Page, size: nat, ls: string -> Option<string>, at: nat) {
    var text := Strip(page.text);
    at < |text| && chunk.text == Strip(Slice(text, at, size)) && chunk.page == page.page && chunk.section == ls(text)
  }

  /** Every chunk is a stripped window of one page, at a multiple of the step, and
      carries that page's number and section. */
  lemma {:induction false} ChunkSource(
      pages: seq<Page>, size: nat, step: nat, ls: string -> Option<string>, n: nat) returns (q: nat, m: nat, at: nat)
    requires step > 0 && n < |AllChunks(pages, size, step, ls)|
    ensures q < |pages| && at == m * step && CutFrom(AllChunks(pages, size, step, ls)[n], pages[q], size, ls, at)
    decreases |pages|
  {
    hide Strip, Windows, Slice, Runs, CutFrom;
    var before := pages[..|pages| - 1];
    var early := |AllChunks(before, size, step, ls)|;
    if n < early {
      q, m, at := ChunkSource(before, size, step, ls, n);
    } else {
      q := |pages| - 1;
      m, at := WindowSource(Strip(pages[q].text), size, step, 0, n - early);
      MeansCutFrom(AllChunks(pages, size, step, ls)[n], pages[q], size, ls, at);
    }
  }

  lemma MeansCutFrom(chunk: TextChunk, page: Page, size: nat, ls: string -> Option<string>, at: nat)
    requires at < |Strip(page.text)| && chunk.text == Strip(Slice(Strip(page.text), at, size))
    requires chunk.page == page.page && chunk.section == ls(Strip(page.text))
    ensures CutFrom(chunk, page, size, ls, at)
  {
  }

  predicate HasInk(page: Page) { exists i :: 0 <= i < |page.text| && NonSpace(page.text[i]) }

  lemma InkMeansStripped(page: Page)
    ensures HasInk(page) <==> Strip(page.text) != ""
  {
    BlankEnds(page.text);
    if i :| 0 <= i < |page.text| && NonSpace(page.text[i]) {
      StripKeeps(page.text, i, i + 1);
    }
    if Strip(page.text) != "" {
      assert NonSpace(page.text[StripFrom(page.text)]);
    }
  }

  lemma InkMeansWindows(page: Page, size: nat, step: nat)
    requires size > 0 && step > 0
    ensures HasInk(page) <==> Windows(Strip(page.text), size, step, 0) != []
  {
    InkMeansStripped(page);
    var text := Strip(page.text);
    NextWindow(text, size, step, 0);
    if text != "" {
      assert NonSpace(text[0]);
      hide Windows, IsSpace;
      StripKeeps(Slice(text, 0, size), 0, 1);
    }
  }

  /** There are chunks exactly when some page has a character that is not blank. */
  lemma {:induction false} ChunksExist(pages: seq<Page>, size: nat, step: nat, ls: string -> Option<string>)
    requires size > 0 && step > 0
    ensures AllChunks(pages, size, step, ls) != [] <==> exists q :: 0 <= q < |pages| && HasInk(pages[q])
    decreases |pages|
  {
    hide Strip, Windows, HasInk, Runs;
    if pages != [] {
      var n := |pages| - 1;
      ChunksExist(pages[..n], size, step, ls);
      InkMeansWindows(pages[n], size, step);
      SomePage(pages);
      LastPageChunks(pages, size, step, ls);
    }
  }

  lemma SomePage(pages: seq<Page>)
    requires pages != []
    ensures var before := pages[..|pages| - 1];
      (exists q :: 0 <= q < |pages| && HasInk(pages[q]))
      <==> HasInk(pages[|pages| - 1]) || exists q :: 0 <= q < |before| && HasInk(before[q])
  {
    hide HasInk;
    var before := pages[..|pages| - 1];
    if q :| 0 <= q < |before| && HasInk(before[q]) {
      assert HasInk(pages[q]);
    }
    if q :| 0 <= q < |pages| && HasInk(pages[q]) {
      if q < |before| { assert HasInk(before[q]); }
    }
  }

  lemma LastPageChunks(pages: seq<Page>, size: nat, step: nat, ls: string -> Option<string>)
    requires pages != [] && step > 0
    ensures var n := |pages| - 1;
      |AllChunks(pages, size, step, ls)|
      == |AllChunks(pages[..n], size, step, ls)| + |Windows(Strip(pages[n].text), size, step, 0)|
  {
    hide Strip, Windows, Runs;
  }
}
