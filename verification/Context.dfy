/** The context handed to the model: numbered lines joined by newlines (the strings
    `_assemble` builds in app/services/retrieval.py). */
module Context {
  import opened Text

  function Decimal(n: nat): string {
    if n < 10 then [('0' as int + n) as char] else Decimal(n / 10) + [('0' as int + n % 10) as char]
  }

  /** `f"[{index}] {text}"` */
  function Line(index: nat, text: string): string { "[" + Decimal(index) + "] " + text }

  function Lines(texts: seq<string>): (r: seq<string>)
    ensures |r| == |texts| && forall k :: 0 <= k < |r| ==> r[k] == Line(k + 1, texts[k])
  {
    seq(|texts|, k requires 0 <= k < |texts| => Line(k + 1, texts[k]))
  }

  /** `"\n".join(lines)` */
  function Join(lines: seq<string>): string {
    if lines == [] then "" else if |lines| == 1 then lines[0] else lines[0] + "\n" + Join(lines[1..])
  }

  // ----- Numbers -----

  /** The number that decimal digits denote. */
  function NumeralValue(digits: string): int {
    if digits == "" then 0
    else NumeralValue(digits[..|digits| - 1]) * 10 + (digits[|digits| - 1] as int - '0' as int)
  }

  /** Decimal digits without a leading zero. */
  predicate IsNumeral(digits: string) {
    && digits != "" && (forall k :: 0 <= k < |digits| ==> '0' <= digits[k] <= '9')
    && (|digits| > 1 ==> digits[0] != '0')
  }

  lemma {:induction false} DecimalIsNumeral(n: nat)
    ensures IsNumeral(Decimal(n)) && NumeralValue(Decimal(n)) == n
    ensures n > 0 ==> Decimal(n)[0] != '0'
    decreases n
  {
    var digits := Decimal(n);
    if n >= 10 {
      DecimalIsNumeral(n / 10);
      assert digits[..|digits| - 1] == Decimal(n / 10);
    } else {
      assert digits[..0] == "" && NumeralValue("") == 0;
    }
  }

  // ----- Layout -----

  /** Where line `i` begins if every line before it is followed by one newline. */
  function LineStart(texts: seq<string>, i: nat): nat
    requires i <= |texts|
  {
    if i == 0 then 0 else LineStart(texts, i - 1) + |Decimal(i)| + |texts[i - 1]| + 4
  }

  /** Line `i` stands at its place: its number in brackets, a space, the whole text,
      and a newline unless it is the last line. */
  predicate LineAt(context: string, texts: seq<string>, i: nat)
    requires i < |texts|
  {
    var from := LineStart(texts, i);
    var to := from + |Decimal(i + 1)| + |texts[i]| + 3;
    && to <= |context| && context[from..to] == "[" + Decimal(i + 1) + "] " + texts[i]
    && (i + 1 < |texts| ==> to < |context| && context[to] == '\n')
  }

  /** The context consists of the numbered lines and nothing else. */
  predicate LaidOut(context: string, texts: seq<string>) {
    && |context| == (if texts == [] then 0 else LineStart(texts, |texts|) - 1)
    && forall i :: 0 <= i < |texts| ==> LineAt(context, texts, i)
  }

  function Offset(lines: seq<string>, i: nat): nat
    requires i <= |lines|
  {
    if i == 0 then 0 else |lines[0]| + 1 + Offset(lines[1..], i - 1)
  }

  lemma {:induction false} OffsetMore(lines: seq<string>, i: nat)
    requires i < |lines|
    ensures Offset(lines, i + 1) == Offset(lines, i) + |lines[i]| + 1
    decreases i
  {
    if i > 0 { OffsetMore(lines[1..], i - 1); }
  }

  lemma {:induction false} JoinedAt(lines: seq<string>, i: nat)
    requires i < |lines|
    ensures Offset(lines, i) + |lines[i]| <= |Join(lines)| == Offset(lines, |lines|) - 1
    ensures Join(lines)[Offset(lines, i)..Offset(lines, i) + |lines[i]|] == lines[i]
    ensures i + 1 < |lines| ==>
      Offset(lines, i) + |lines[i]| < |Join(lines)| && Join(lines)[Offset(lines, i) + |lines[i]|] == '\n'
    decreases |lines|
  {
    if |lines| > 1 {
      var rest := Join(lines[1..]);
      assert Join(lines) == lines[0] + "\n" + rest;
      hide Join;
      if i > 0 {
        JoinedAt(lines[1..], i - 1);
        TailSlice(lines[0] + "\n", rest, Offset(lines[1..], i - 1), |lines[i]|);
      } else {
        JoinedAt(lines[1..], 0);
      }
    }
  }

  lemma TailSlice(head: string, tail: string, from: nat, n: nat)
    requires from + n <= |tail|
    ensures (head + tail)[|head| + from..|head| + from + n] == tail[from..from + n]
  {
  }

  lemma {:induction false} LineStartIsOffset(texts: seq<string>, i: nat)
    requires i <= |texts|
    ensures LineStart(texts, i) == Offset(Lines(texts), i)
    decreases i
  {
    hide Decimal;
    if i > 0 {
      LineStartIsOffset(texts, i - 1);
      OffsetMore(Lines(texts), i - 1);
    }
  }

  /** Joining the numbered lines lays the context out so. */
  lemma JoinedIsLaidOut(texts: seq<string>)
    ensures LaidOut(Join(Lines(texts)), texts)
  {
    hide Decimal, Join, LineStart, Offset;
    if texts == [] {
      NothingJoined();
    } else {
      JoinedAt(Lines(texts), 0);
      LineStartIsOffset(texts, |texts|);
    }
    forall i | 0 <= i < |texts| ensures LineAt(Join(Lines(texts)), texts, i) {
      JoinedAt(Lines(texts), i);
      LineStartIsOffset(texts, i);
    }
  }

  lemma NothingJoined()
    ensures Join(Lines([])) == ""
  {
  }

  // ----- Reading the context back -----

  lemma {:induction false} SplitJoined(lines: seq<string>)
    requires lines != [] && forall k :: 0 <= k < |lines| ==> OneLine(lines[k])
    ensures SplitLines(Join(lines)) == lines
    decreases |lines|
  {
    hide SplitLines;
    if |lines| == 1 {
      SplitFirst(lines[0], "");
    } else {
      SplitJoined(lines[1..]);
      SplitFirst(lines[0], Join(lines[1..]));
    }
  }

  /** Texts without newlines can be read back: splitting the context at newlines
      yields one line per text, and line `i` is the text after its number. */
  lemma ContextSplitsBack(texts: seq<string>)
    requires texts != [] && forall k :: 0 <= k < |texts| ==> OneLine(texts[k])
    ensures var lines := SplitLines(Join(Lines(texts)));
      && |lines| == |texts|
      && forall i :: 0 <= i < |texts| ==>
           |Decimal(i + 1)| + 3 <= |lines[i]| && lines[i][|Decimal(i + 1)| + 3..] == texts[i]
  {
    forall k | 0 <= k < |texts| ensures OneLine(Lines(texts)[k]) {
      DecimalIsNumeral(k + 1);
    }
    hide Decimal, SplitLines;
    SplitJoined(Lines(texts));
  }
}
