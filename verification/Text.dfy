/** Character classes, stripping and the two `findall` scans the services use:
    `\S+` (words) and `[a-z0-9]+` over lowered text (tokens). */
module Text {

  /** Python's whitespace: the characters `str.strip` removes and `\s` matches. */
  predicate IsSpace(c: char) {
    || '\U{9}' <= c <= '\U{d}'
    || '\U{1c}' <= c <= '\U{20}'
    || c == '\U{85}' || c == '\U{a0}' || c == '\U{1680}'
    || '\U{2000}' <= c <= '\U{200a}'
    || c == '\U{2028}' || c == '\U{2029}' || c == '\U{202f}' || c == '\U{205f}' || c == '\U{3000}'
  }

  predicate NonSpace(c: char) { !IsSpace(c) }

  /** The character class of the pattern `[a-z0-9]`. */
  predicate IsAlnum(c: char) { 'a' <= c <= 'z' || '0' <= c <= '9' }

  /** ASCII letters, and the only other character that Python lowers to one of the
      class `[a-z0-9]`: the Kelvin sign. */
  function LowerChar(c: char): char {
    if 'A' <= c <= 'Z' then c - 'A' + 'a' else if c == '\U{212A}' then 'k' else c
  }

  function Lower(s: string): (r: string)
    ensures |r| == |s| && forall i :: 0 <= i < |s| ==> r[i] == LowerChar(s[i])
  {
    seq(|s|, i requires 0 <= i < |s| => LowerChar(s[i]))
  }

  /** `text[start : start + size]`, which Python truncates at the end of the text. */
  function Slice(text: string, start: nat, size: nat): (r: string)
    ensures |r| <= size
  {
    if start >= |text| then ""
    else if start + size <= |text| then text[start..start + size]
    else text[start..]
  }

  lemma SliceOfSlice(s: string, a: nat, b: nat, i: nat, j: nat)
    requires a <= b <= |s| && i <= j <= b - a
    ensures s[a..b][i..j] == s[a + i..a + j]
  {
    var left, right := s[a..b][i..j], s[a + i..a + j];
    assert forall k :: 0 <= k < j - i ==> left[k] == right[k];
  }

  predicate OccursAt(s: string, sub: string, i: int) {
    0 <= i <= |s| - |sub| && s[i..i + |sub|] == sub
  }

  predicate Contains(s: string, sub: string) {
    exists i :: 0 <= i <= |s| && OccursAt(s, sub, i)
  }

  lemma ContainsExact(s: string, sub: string)
    ensures Contains(s, sub) <==> exists before: string, after: string :: s == before + sub + after
  {
    if i :| 0 <= i <= |s| && OccursAt(s, sub, i) {
      assert s == s[..i] + sub + s[i + |sub|..];
    }
    if before: string, after: string :| s == before + sub + after {
      assert OccursAt(s, sub, |before|);
    }
  }

  // ----- Strip -----

  function LeadingRun(s: string, p: char -> bool): (n: nat)
    ensures n <= |s|
    ensures forall k :: 0 <= k < n ==> p(s[k])
    ensures n < |s| ==> !p(s[n])
  {
    if s == "" || !p(s[0]) then 0 else 1 + LeadingRun(s[1..], p)
  }

  function TrailingRun(s: string, p: char -> bool): (n: nat)
    ensures n <= |s|
    ensures forall k :: |s| - n <= k < |s| ==> p(s[k])
    ensures n < |s| ==> !p(s[|s| - n - 1])
  {
    if s == "" || !p(s[|s| - 1]) then 0 else 1 + TrailingRun(s[..|s| - 1], p)
  }

  /** Where the stripped text begins and ends inside `s`. */
  function StripFrom(s: string): (from: nat)
    ensures from <= |s|
  {
    LeadingRun(s, IsSpace)
  }

  function StripTo(s: string): (to: nat)
    ensures StripFrom(s) <= to <= |s|
    ensures forall k :: to <= k < |s| ==> IsSpace(s[k])
    ensures StripFrom(s) < to ==> NonSpace(s[StripFrom(s)]) && NonSpace(s[to - 1])
  {
    if StripFrom(s) == |s| then |s|
    else
      assert NonSpace(s[StripFrom(s)]);
      |s| - TrailingRun(s, IsSpace)
  }

  function Strip(s: string): (r: string)
    ensures |r| <= |s|
  {
    s[StripFrom(s)..StripTo(s)]
  }

  /** A stretch with non-blank ends lies inside the stripped text. */
  lemma StripKeeps(s: string, i: nat, j: nat)
    requires i < j <= |s| && NonSpace(s[i]) && NonSpace(s[j - 1])
    ensures StripFrom(s) <= i && j <= StripTo(s)
  {
  }

  lemma BlankEnds(s: string)
    ensures forall k :: 0 <= k < StripFrom(s) ==> IsSpace(s[k])
    ensures forall k :: StripTo(s) <= k < |s| ==> IsSpace(s[k])
  {
    hide IsSpace;
  }

  // ----- Maximal runs -----

  /** `re.findall` of a one-or-more character class: the maximal runs, left to right. */
  function Runs(s: string, p: char -> bool): seq<string>
    decreases |s|
  {
    if s == "" then []
    else if !p(s[0]) then Runs(s[1..], p)
    else [s[..LeadingRun(s, p)]] + Runs(s[LeadingRun(s, p)..], p)
  }

  function Words(s: string): seq<string> { Runs(s, NonSpace) }

  function Tokens(s: string): seq<string> { Runs(Lower(s), IsAlnum) }

  function TokenSet(s: string): set<string> { set t | t in Tokens(s) }

  /** `s[i..j]` is a run that no neighbour extends. */
  predicate IsRun(s: string, p: char -> bool, i: int, j: int) {
    && 0 <= i < j <= |s|
    && (forall k :: i <= k < j ==> p(s[k]))
    && (i == 0 || !p(s[i - 1]))
    && (j == |s| || !p(s[j]))
  }

  /** Length of what one step of the scan consumes. */
  function ScanStep(s: string, p: char -> bool): (n: nat)
    requires s != ""
    ensures 0 < n <= |s|
  {
    if p(s[0]) then LeadingRun(s, p) else 1
  }

  /** The runs of what the scan leaves are the runs of the text from there on. */
  lemma RunShift(s: string, p: char -> bool, i: int, j: int)
    requires s != "" && i >= 0
    ensures var n := ScanStep(s, p);
      && (IsRun(s[n..], p, i, j) <==> IsRun(s, p, n + i, n + j))
      && (IsRun(s[n..], p, i, j) ==> s[n..][i..j] == s[n + i..n + j])
  {
    var n := ScanStep(s, p);
    var rest := s[n..];
    if IsRun(rest, p, i, j) {
      forall k | n + i <= k < n + j ensures p(s[k]) { assert s[k] == rest[k - n]; }
    }
    if IsRun(s, p, n + i, n + j) {
      forall k | i <= k < j ensures p(rest[k]) { assert rest[k] == s[n + k]; }
    }
  }

  /** A maximal run that begins inside the leading run is the leading run. */
  lemma RunFromStart(s: string, p: char -> bool, i: int, j: int)
    requires IsRun(s, p, i, j) && i < ScanStep(s, p)
    ensures p(s[0]) && i == 0 && j == ScanStep(s, p)
  {
    hide LeadingRun;
    assert p(s[0]);
  }

  lemma {:induction false} RunFound(s: string, p: char -> bool, i: int, j: int)
    requires IsRun(s, p, i, j)
    ensures s[i..j] in Runs(s, p)
    decreases |s|
  {
    hide LeadingRun;
    var n := ScanStep(s, p);
    if i < n {
      RunFromStart(s, p, i, j);
      assert s[i..j] == s[..n] == Runs(s, p)[0];
    } else {
      RunShift(s, p, i - n, j - n);
      RunFound(s[n..], p, i - n, j - n);
    }
  }

  lemma RunsSplit(s: string, p: char -> bool, t: string)
    requires t in Runs(s, p)
    ensures s != "" && ((p(s[0]) && t == s[..ScanStep(s, p)]) || t in Runs(s[ScanStep(s, p)..], p))
  {
  }

  lemma LeadingIsRun(s: string, p: char -> bool)
    requires s != "" && p(s[0])
    ensures IsRun(s, p, 0, ScanStep(s, p)) && s[0..ScanStep(s, p)] == s[..ScanStep(s, p)]
  {
  }

  lemma {:induction false} FoundRun(s: string, p: char -> bool, t: string) returns (i: int, j: int)
    requires t in Runs(s, p)
    ensures IsRun(s, p, i, j) && s[i..j] == t
    decreases |s|
  {
    RunsSplit(s, p, t);
    hide Runs, ScanStep, IsRun;
    var n := ScanStep(s, p);
    if p(s[0]) && t == s[..n] {
      LeadingIsRun(s, p);
      i, j := 0, n;
    } else {
      i, j := FoundRun(s[n..], p, t);
      RunShift(s, p, i, j);
      i, j := n + i, n + j;
    }
  }

  /** The scan finds exactly the maximal runs. */
  lemma RunsExact(s: string, p: char -> bool, t: string)
    ensures t in Runs(s, p) <==> exists i, j :: IsRun(s, p, i, j) && s[i..j] == t
  {
    if t in Runs(s, p) {
      var i, j := FoundRun(s, p, t);
    }
    forall i, j | IsRun(s, p, i, j) && s[i..j] == t ensures t in Runs(s, p) {
      RunFound(s, p, i, j);
    }
  }

  /** Number of runs of `s` when `prev` tells whether the preceding character
      already belongs to a run. */
  function CountRuns(s: string, p: char -> bool, prev: bool): nat {
    if s == "" then 0
    else (if p(s[0]) && !prev then 1 else 0) + CountRuns(s[1..], p, p(s[0]))
  }

  lemma {:induction false} CountInsideRun(s: string, p: char -> bool, n: nat)
    requires n <= |s| && forall k :: 0 <= k < n ==> p(s[k])
    ensures CountRuns(s, p, true) == CountRuns(s[n..], p, true)
    decreases n
  {
    if n > 0 {
      CountInsideRun(s[1..], p, n - 1);
      assert s[1..][n - 1..] == s[n..];
    } else {
      assert s[n..] == s;
    }
  }

  /** Counting run starts left to right agrees with the scan. */
  lemma {:induction false} CountIsScan(s: string, p: char -> bool)
    ensures |Runs(s, p)| == CountRuns(s, p, false)
    decreases |s|
  {
    if s == "" {
    } else if !p(s[0]) {
      CountIsScan(s[1..], p);
    } else {
      var n := LeadingRun(s, p);
      var rest := s[n..];
      CountIsScan(rest, p);
      CountInsideRun(s[1..], p, n - 1);
      assert s[1..][n - 1..] == rest;
      assert rest != "" ==> !p(rest[0]);
    }
  }

  lemma {:induction false} CountConcat(a: string, b: string, p: char -> bool, prev: bool)
    ensures CountRuns(a + b, p, prev)
         == CountRuns(a, p, prev) + CountRuns(b, p, if a == "" then prev else p(a[|a| - 1]))
    decreases |a|
  {
    if a == "" {
      assert a + b == b;
    } else {
      CountConcat(a[1..], b, p, p(a[0]));
      assert (a + b)[1..] == a[1..] + b;
    }
  }

  /** Starting in the middle of a run can hide at most one run. */
  lemma CountFlag(s: string, p: char -> bool)
    ensures CountRuns(s, p, true) <= CountRuns(s, p, false) <= CountRuns(s, p, true) + 1
  {
  }

  lemma {:induction false} CountNone(s: string, p: char -> bool, prev: bool)
    requires forall k :: 0 <= k < |s| ==> !p(s[k])
    ensures CountRuns(s, p, prev) == 0
  {
    if s != "" {
      CountNone(s[1..], p, p(s[0]));
    }
  }

  lemma CountAround(front: string, kernel: string, back: string)
    requires forall k :: 0 <= k < |front| ==> IsSpace(front[k])
    requires forall k :: 0 <= k < |back| ==> IsSpace(back[k])
    ensures CountRuns(front + (kernel + back), NonSpace, false) == CountRuns(kernel, NonSpace, false)
  {
    CountConcat(front, kernel + back, NonSpace, false);
    CountNone(front, NonSpace, false);
    CountConcat(kernel, back, NonSpace, false);
    CountNone(back, NonSpace, if kernel == "" then false else NonSpace(kernel[|kernel| - 1]));
  }

  /** Stripping changes neither the number of words ... */
  lemma StripKeepsWordCount(s: string)
    ensures |Words(Strip(s))| == CountRuns(s, NonSpace, false)
  {
    hide IsSpace, StripFrom, StripTo, Runs;
    var front, back := s[..StripFrom(s)], s[StripTo(s)..];
    BlankEnds(s);
    assert s == front + (Strip(s) + back);
    CountIsScan(Strip(s), NonSpace);
    CountAround(front, Strip(s), back);
  }

  /** The characters of `s` that are not blank, in order. */
  function Squeeze(s: string): string {
    if s == "" then ""
    else (if IsSpace(s[0]) then "" else [s[0]]) + Squeeze(s[1..])
  }

  lemma {:induction false} SqueezeConcat(a: string, b: string)
    ensures Squeeze(a + b) == Squeeze(a) + Squeeze(b)
    decreases |a|
  {
    hide IsSpace;
    if a == "" {
      assert a + b == b;
    } else {
      SqueezeConcat(a[1..], b);
      assert (a + b)[1..] == a[1..] + b;
      var first := if IsSpace(a[0]) then "" else [a[0]];
      assert Squeeze(a + b) == first + (Squeeze(a[1..]) + Squeeze(b));
      assert first + (Squeeze(a[1..]) + Squeeze(b)) == (first + Squeeze(a[1..])) + Squeeze(b);
    }
  }

  lemma {:induction false} SqueezeNone(s: string)
    requires forall k :: 0 <= k < |s| ==> IsSpace(s[k])
    ensures Squeeze(s) == ""
  {
    hide IsSpace;
    if s != "" {
      SqueezeNone(s[1..]);
    }
  }

  /** ... nor the non-blank characters. */
  lemma StripKeepsInk(s: string)
    ensures Squeeze(Strip(s)) == Squeeze(s)
  {
    hide IsSpace, StripFrom, StripTo;
    var front, back := s[..StripFrom(s)], s[StripTo(s)..];
    BlankEnds(s);
    assert s == (front + Strip(s)) + back;
    SqueezeConcat(front + Strip(s), back);
    SqueezeConcat(front, Strip(s));
    SqueezeNone(front);
    SqueezeNone(back);
  }

  /** A token of the text occurs in the lowered text, so a substring filter keeps it. */
  lemma TokenOccurs(s: string, t: string)
    requires t in Tokens(s)
    ensures Contains(Lower(s), t) && t != ""
  {
    var i, j := FoundRun(Lower(s), IsAlnum, t);
    assert OccursAt(Lower(s), t, i);
  }

  // ----- The alphabet of tokens -----

  /** Tokens do not depend on the case of ASCII letters. */
  lemma TokensIgnoreCase(a: string, b: string)
    requires |a| == |b|
    requires forall i :: 0 <= i < |a| ==>
               || a[i] == b[i]
               || ('A' <= a[i] <= 'Z' && b[i] as int == a[i] as int + 32)
               || ('A' <= b[i] <= 'Z' && a[i] as int == b[i] as int + 32)
    ensures Tokens(a) == Tokens(b)
  {
    assert Lower(a) == Lower(b);
  }

  /** Tokens consist of lower-case letters and digits ... */
  lemma TokenAlphabet(s: string, t: string)
    requires t in Tokens(s)
    ensures t != "" && forall k :: 0 <= k < |t| ==> 'a' <= t[k] <= 'z' || '0' <= t[k] <= '9'
  {
    var i, j := FoundRun(Lower(s), IsAlnum, t);
    forall k | 0 <= k < |t| ensures IsAlnum(t[k]) {
      assert t[k] == Lower(s)[i + k];
    }
  }

  /** ... and any such text is one token. */
  lemma WholeToken(t: string)
    requires t != "" && forall k :: 0 <= k < |t| ==> 'a' <= t[k] <= 'z' || '0' <= t[k] <= '9'
    ensures Tokens(t) == [t]
  {
    assert Lower(t) == t;
    assert LeadingRun(t, IsAlnum) == |t|;
    assert t[..|t|] == t && t[|t|..] == "" && Runs("", IsAlnum) == [];
  }

  // ----- Lines -----

  predicate NotNewline(c: char) { c != '\n' }

  /** Splitting at newlines, as `split("\n")` does: an empty text is one empty line. */
  function SplitLines(s: string): seq<string>
    decreases |s|
  {
    var n := LeadingRun(s, NotNewline);
    if n == |s| then [s] else [s[..n]] + SplitLines(s[n + 1..])
  }

  predicate OneLine(text: string) { forall k :: 0 <= k < |text| ==> text[k] != '\n' }

  lemma SplitFirst(line: string, rest: string)
    requires OneLine(line)
    ensures SplitLines(line) == [line]
    ensures SplitLines(line + "\n" + rest) == [line] + SplitLines(rest)
  {
    var s := line + "\n" + rest;
    assert LeadingRun(line, NotNewline) == |line|;
    assert LeadingRun(s, NotNewline) == |line| by {
      assert s[|line|] == '\n';
      assert forall k :: 0 <= k < |line| ==> s[k] == line[k];
    }
    assert s[..|line|] == line && s[|line| + 1..] == rest;
  }
}
