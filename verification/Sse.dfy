/** Server-sent events end to end: the frames `post_message_stream` prints
    (app/api/v1/conversations.py) and the browser loop that pieces them back
    (`send` and `handleSSE` in app/web/index.html). `json.dumps` escapes to ASCII,
    so bytes and characters coincide and the stream is a string. */
module Sse {
  import opened Text
  import opened Wrappers

  datatype Event = Token(text: string) | Done(messageId: nat, citations: seq<string>)

  /** JSON encoding and parsing, known only by what the two ends rely on. */
  datatype Codec = Codec(encode: Event -> string, decode: string -> Option<Event>)

  predicate OneLineObject(s: string) {
    && |s| >= 2 && s[0] == '{' && s[|s| - 1] == '}'
    && forall k :: 0 <= k < |s| ==> s[k] != '\n'
  }

  ghost predicate WellBehaved(codec: Codec) {
    forall event :: OneLineObject(codec.encode(event)) && codec.decode(codec.encode(event)) == Some(event)
  }

  // ----- The server's printer -----

  function TypeName(event: Event): string { if event.Token? then "token" else "done" }

  function Body(codec: Codec, event: Event): string {
    ("event: " + TypeName(event)) + "\n" + ("data: " + codec.encode(event))
  }

  function Print(codec: Codec, events: seq<Event>): string {
    if events == [] then "" else Body(codec, events[0]) + "\n\n" + Print(codec, events[1..])
  }

  function Bodies(codec: Codec, events: seq<Event>): (r: seq<string>)
    ensures |r| == |events| && forall k :: 0 <= k < |r| ==> r[k] == Body(codec, events[k])
  {
    seq(|events|, k requires 0 <= k < |events| => Body(codec, events[k]))
  }

  // ----- The browser's deframer -----

  predicate BreakAt(s: string, i: int) { 0 <= i < |s| - 1 && s[i] == '\n' && s[i + 1] == '\n' }

  /** `buf.indexOf("\n\n")` */
  function FindBreak(s: string): (i: int)
    ensures i == -1 || BreakAt(s, i)
    ensures forall k :: 0 <= k < (if i == -1 then |s| else i) ==> !BreakAt(s, k)
  {
    if |s| < 2 then -1
    else if BreakAt(s, 0) then 0
    else
      var i := FindBreak(s[1..]);
      assert forall k :: 1 <= k < |s| ==> (BreakAt(s, k) <==> BreakAt(s[1..], k - 1));
      if i == -1 then -1 else i + 1
  }

  datatype Deframed = Deframed(frames: seq<string>, rest: string)

  /** The complete frames of a stream and the incomplete one after them. */
  function Deframe(s: string): Deframed
    decreases |s|
  {
    var i := FindBreak(s);
    if i == -1 then Deframed([], s)
    else
      var later := Deframe(s[i + 2..]);
      Deframed([s[..i]] + later.frames, later.rest)
  }

  // ----- The browser's frame parser -----

  /** What JavaScript's `trim` removes. */
  predicate JsSpace(c: char) {
    || '\U{9}' <= c <= '\U{d}' || c == ' ' || c == '\U{a0}' || c == '\U{1680}'
    || '\U{2000}' <= c <= '\U{200a}' || c == '\U{2028}' || c == '\U{2029}'
    || c == '\U{202f}' || c == '\U{205f}' || c == '\U{3000}' || c == '\U{feff}'
  }

  function Trim(s: string): string
    decreases |s|
  {
    if s != "" && JsSpace(s[0]) then Trim(s[1..])
    else if s != "" && JsSpace(s[|s| - 1]) then Trim(s[..|s| - 1])
    else s
  }

  function LineData(line: string): string {
    if "data:" <= line then Trim(line[5..]) else ""
  }

  function Data(lines: seq<string>): string {
    if lines == [] then "" else Data(lines[..|lines| - 1]) + LineData(lines[|lines| - 1])
  }

  /** The event a frame carries; frames without data or with unreadable data are ignored. */
  function Parsed(codec: Codec, frame: string): Option<Event> {
    var data := Data(SplitLines(frame));
    if data == "" then None else codec.decode(data)
  }

  function ParsedAll(codec: Codec, frames: seq<string>): seq<Event> {
    if frames == [] then []
    else
      ParsedAll(codec, frames[..|frames| - 1]) +
      (match Parsed(codec, frames[|frames| - 1]) case None => [] case Some(event) => [event])
  }

  /** The answer text the events spell out. */
  function TextOf(events: seq<Event>): string {
    if events == [] then ""
    else TextOf(events[..|events| - 1]) + (if events[|events| - 1].Token? then events[|events| - 1].text else "")
  }

  /** The citation lists that get rendered: those of `done` events, unless empty. */
  function CitationsOf(events: seq<Event>): seq<seq<string>> {
    if events == [] then []
    else
      CitationsOf(events[..|events| - 1]) +
      (match events[|events| - 1]
       case Token(_) => []
       case Done(_, citations) => if citations == [] then [] else [citations])
  }

  function Concat(parts: seq<string>): string {
    if parts == [] then "" else Concat(parts[..|parts| - 1]) + parts[|parts| - 1]
  }

  /** How the response body ends: closed by the server, or broken off. */
  datatype Ending = Closed | Broken(message: string)

  /** The events a browser has handled once the stream `s` has arrived. */
  function Handled(codec: Codec, s: string): seq<Event> { ParsedAll(codec, Deframe(s).frames) }

  class Client {
    const codec: Codec
    var text: string
    var rendered: seq<seq<string>>

    constructor (codec: Codec)
      ensures this.codec == codec && text == "" && rendered == []
    {
      this.codec, text, rendered := codec, "", [];
    }

    method HandleSse(chunk: string)
      modifies this
      ensures var event := Parsed(codec, chunk);
        && text == old(text) + (if event.Some? then TextOf([event.value]) else "")
        && rendered == old(rendered) + (if event.Some? then CitationsOf([event.value]) else [])
    {
      var data := "";
      var lines := SplitLines(chunk);
      for k := 0 to |lines|
        invariant data == Data(lines[..k])
        invariant text == old(text) && rendered == old(rendered)
      {
        assert lines[..k + 1][..k] == lines[..k];
        if "data:" <= lines[k] {
          data := data + Trim(lines[k][5..]);
        }
      }
      assert lines[..|lines|] == lines;
      if data == "" {
        return;
      }
      match codec.decode(data)
      case None =>
      case Some(event) =>
        OneEvent(event);
        match event
        case Token(t) => text := text + t;
        case Done(_, citations) =>
          if citations != [] {
            rendered := rendered + [citations];
          }
    }

    /** Reads the stream piece by piece. `shown[n]` is the text on screen after `n` reads. */
    method Send(pieces: seq<string>, ending: Ending) returns (leftover: string, ghost shown: seq<string>)
      requires text == "" && rendered == []
      modifies this
      ensures leftover == Deframe(Concat(pieces)).rest
      ensures |shown| == |pieces| + 1
      ensures forall n :: 0 <= n <= |pieces| ==> shown[n] == TextOf(Handled(codec, Concat(pieces[..n])))
      ensures rendered == CitationsOf(Handled(codec, Concat(pieces)))
      ensures text == match ending
                      case Closed => TextOf(Handled(codec, Concat(pieces)))
                      case Broken(message) => "Error: " + message
    {
      hide Deframe, FindBreak, ParsedAll, Parsed, TextOf, CitationsOf, Concat;
      var buf := "";
      shown := [text];
      NothingArrived(codec);
      for r := 0 to |pieces|
        invariant |shown| == r + 1
        invariant forall n :: 0 <= n <= r ==> shown[n] == TextOf(Handled(codec, Concat(pieces[..n])))
        invariant text == shown[r] && rendered == CitationsOf(Handled(codec, Concat(pieces[..r])))
        invariant buf == Deframe(Concat(pieces[..r])).rest
      {
        ConcatMore(pieces, r);
        DeframeAppend(Concat(pieces[..r]), pieces[r]);
        ghost var done := Deframe(Concat(pieces[..r])).frames;
        buf := buf + pieces[r];
        ghost var arrived := Deframe(buf);
        assert [] + arrived.frames == arrived.frames && done + [] == done;
        ghost var frames: seq<string> := [];
        while FindBreak(buf) >= 0
          invariant arrived == Deframed(frames + Deframe(buf).frames, Deframe(buf).rest)
          invariant text == TextOf(ParsedAll(codec, done + frames))
          invariant rendered == CitationsOf(ParsedAll(codec, done + frames))
          decreases |buf|
        {
          var idx := FindBreak(buf);
          DeframeStep(buf, frames);
          HandleOne(codec, done + frames, buf[..idx]);
          HandleSse(buf[..idx]);
          assert done + (frames + [buf[..idx]]) == (done + frames) + [buf[..idx]];
          frames := frames + [buf[..idx]];
          buf := buf[idx + 2..];
        }
        DeframeEnd(buf, frames);
        shown := shown + [text];
      }
      assert pieces[..|pieces|] == pieces;
      if ending.Broken? {
        text := "Error: " + ending.message;
      }
      leftover := buf;
    }
  }

  lemma NothingArrived(codec: Codec)
    ensures Concat([]) == "" && Deframe("") == Deframed([], "")
    ensures TextOf(Handled(codec, "")) == "" && CitationsOf(Handled(codec, "")) == []
  {
  }

  lemma ConcatMore(pieces: seq<string>, r: nat)
    requires r < |pieces|
    ensures Concat(pieces[..r + 1]) == Concat(pieces[..r]) + pieces[r]
  {
    assert pieces[..r + 1][..r] == pieces[..r];
  }

  lemma DeframeStep(buf: string, frames: seq<string>)
    requires FindBreak(buf) >= 0
    ensures var i := FindBreak(buf); var later := Deframe(buf[i + 2..]);
      && frames + Deframe(buf).frames == (frames + [buf[..i]]) + later.frames && Deframe(buf).rest == later.rest
  {
    hide FindBreak;
    var i := FindBreak(buf);
    var later := Deframe(buf[i + 2..]);
    assert frames + ([buf[..i]] + later.frames) == (frames + [buf[..i]]) + later.frames;
  }

  lemma DeframeEnd(buf: string, frames: seq<string>)
    requires FindBreak(buf) < 0
    ensures frames + Deframe(buf).frames == frames && Deframe(buf).rest == buf
  {
    hide FindBreak;
    assert frames + [] == frames;
  }

  lemma OneEvent(event: Event)
    ensures TextOf([event]) == if event.Token? then event.text else ""
    ensures CitationsOf([event]) == match event
                                    case Token(_) => []
                                    case Done(_, citations) => if citations == [] then [] else [citations]
  {
    assert [event][..0] == [];
  }

  lemma HandleOne(codec: Codec, frames: seq<string>, frame: string)
    ensures var event := Parsed(codec, frame);
      && TextOf(ParsedAll(codec, frames + [frame]))
         == TextOf(ParsedAll(codec, frames)) + (if event.Some? then TextOf([event.value]) else "")
      && CitationsOf(ParsedAll(codec, frames + [frame]))
         == CitationsOf(ParsedAll(codec, frames)) + (if event.Some? then CitationsOf([event.value]) else [])
  {
    hide Parsed;
    assert (frames + [frame])[..|frames|] == frames;
    var before := ParsedAll(codec, frames);
    match Parsed(codec, frame)
    case None =>
      assert before + [] == before;
    case Some(event) =>
      assert (before + [event])[..|before|] == before;
      OneEvent(event);
  }

  // ----- Cutting the stream anywhere -----

  /** Deframing what is left over together with the next piece gives what deframing
      the whole stream at once would have given, for every stream and every cut. */
  lemma {:induction false} DeframeAppend(a: string, b: string)
    ensures Deframe(a + b) == Deframed(Deframe(a).frames + Deframe(Deframe(a).rest + b).frames,
                                       Deframe(Deframe(a).rest + b).rest)
    decreases |a|
  {
    hide FindBreak, Deframe;
    if FindBreak(a) < 0 {
      DeframeEnd(a, []);
      assert [] + Deframe(a).frames == Deframe(a).frames;
      assert [] + Deframe(a + b).frames == Deframe(a + b).frames;
    } else {
      var i := FindBreak(a);
      BreakStays(a, b, i);
      assert (a + b)[i + 2..] == a[i + 2..] + b;
      assert (a + b)[..i] == a[..i];
      DeframeAppend(a[i + 2..], b);
      DeframeFirst(a);
      DeframeFirst(a + b);
      var later := Deframe(a[i + 2..]);
      Associate([a[..i]], later.frames, Deframe(later.rest + b).frames);
    }
  }

  lemma Associate(a: seq<string>, b: seq<string>, c: seq<string>)
    ensures a + (b + c) == (a + b) + c
  {
  }

  lemma DeframeFirst(s: string)
    requires FindBreak(s) >= 0
    ensures Deframe(s).frames == [s[..FindBreak(s)]] + Deframe(s[FindBreak(s) + 2..]).frames
    ensures Deframe(s).rest == Deframe(s[FindBreak(s) + 2..]).rest
  {
    hide FindBreak;
  }

  lemma BreakStays(a: string, b: string, i: int)
    requires i == FindBreak(a) && i != -1
    ensures FindBreak(a + b) == i
  {
    var j := FindBreak(a + b);
    assert BreakAt(a + b, i);
    assert forall k :: 0 <= k < i ==> (BreakAt(a + b, k) <==> BreakAt(a, k));
  }

  lemma {:induction false} RestHasNoBreak(s: string)
    ensures FindBreak(Deframe(s).rest) == -1
    decreases |s|
  {
    if FindBreak(s) != -1 {
      RestHasNoBreak(s[FindBreak(s) + 2..]);
    }
  }

  // ----- Printing and reading back -----

  lemma TrimData(s: string)
    requires OneLineObject(s)
    ensures LineData("data: " + s) == s
  {
    var line := "data: " + s;
    assert line[5..] == " " + s;
    assert (" " + s)[1..] == s;
    assert Trim(" " + s) == Trim(s) == s;
  }

  lemma SplitTwo(a: string, b: string)
    requires OneLine(a) && OneLine(b)
    ensures SplitLines(a + "\n" + b) == [a, b]
  {
    SplitFirst(a, b);
    SplitFirst(b, "");
  }

  /** The browser pieces back exactly the event the server printed. */
  lemma BodyRoundTrip(codec: Codec, event: Event)
    requires WellBehaved(codec)
    ensures Parsed(codec, Body(codec, event)) == Some(event)
  {
    var name, json := "event: " + TypeName(event), codec.encode(event);
    assert OneLineObject(json);
    SplitTwo(name, "data: " + json);
    var lines := [name, "data: " + json];
    assert lines[..1] == [name] && [name][..0] == [];
    assert name[0] == 'e';
    assert LineData(name) == "";
    assert Data([name]) == Data([]) + LineData(name);
    TrimData(json);
    assert Data(lines) == Data([name]) + LineData(lines[1]) == json;
  }

  /** What a frame looks like: the event's name, then its JSON. */
  lemma {:induction false} FrameLines(codec: Codec, event: Event)
    requires WellBehaved(codec)
    ensures SplitLines(Body(codec, event))
         == ["event: " + (if event.Token? then "token" else "done"), "data: " + codec.encode(event)]
  {
    assert OneLineObject(codec.encode(event));
    SplitTwo("event: " + TypeName(event), "data: " + codec.encode(event));
  }

  lemma BodyHasNoBreak(codec: Codec, event: Event, more: string)
    requires WellBehaved(codec)
    ensures FindBreak(Body(codec, event) + "\n\n" + more) == |Body(codec, event)|
  {
    var name, json := "event: " + TypeName(event), codec.encode(event);
    var body := Body(codec, event);
    var s := body + "\n\n" + more;
    assert OneLineObject(json);
    assert BreakAt(s, |body|);
    forall k | 0 <= k < |body| ensures !BreakAt(s, k) {
      assert s[k] == body[k];
      if k + 1 < |body| {
        assert s[k + 1] == body[k + 1];
        assert k != |name| ==> body[k] != '\n';
        assert k + 1 != |name| ==> body[k + 1] != '\n';
      } else {
        assert body[k] == json[|json| - 1];
      }
    }
  }

  /** The printed stream splits into one frame per event, with nothing left over. */
  lemma {:induction false} PrintDeframes(codec: Codec, events: seq<Event>)
    requires WellBehaved(codec)
    ensures Deframe(Print(codec, events)) == Deframed(Bodies(codec, events), "")
    decreases |events|
  {
    hide WellBehaved, Body;
    if events == [] {
    } else {
      var body, more := Body(codec, events[0]), Print(codec, events[1..]);
      BodyHasNoBreak(codec, events[0], more);
      assert (body + "\n\n" + more)[..|body|] == body;
      assert (body + "\n\n" + more)[|body| + 2..] == more;
      PrintDeframes(codec, events[1..]);
      assert Bodies(codec, events) == [body] + Bodies(codec, events[1..]);
    }
  }

  lemma {:induction false} ParseBodies(codec: Codec, events: seq<Event>)
    requires WellBehaved(codec)
    ensures ParsedAll(codec, Bodies(codec, events)) == events
    decreases |events|
  {
    hide Body, Parsed, WellBehaved;
    if events != [] {
      var n := |events| - 1;
      ParseBodies(codec, events[..n]);
      BodyRoundTrip(codec, events[n]);
      assert Bodies(codec, events)[..n] == Bodies(codec, events[..n]);
    }
  }

  lemma {:induction false} ParsedAllAppend(codec: Codec, a: seq<string>, b: seq<string>)
    ensures ParsedAll(codec, a) <= ParsedAll(codec, a + b)
    decreases |b|
  {
    hide Parsed;
    if b == [] {
      assert a + b == a;
    } else {
      ParsedAllAppend(codec, a, b[..|b| - 1]);
      assert (a + b)[..|a + b| - 1] == a + b[..|b| - 1];
    }
  }

  lemma {:induction false} TextGrows(a: seq<Event>, b: seq<Event>)
    requires a <= b
    ensures TextOf(a) <= TextOf(b)
    decreases |b|
  {
    if |a| < |b| {
      TextGrows(a, b[..|b| - 1]);
    } else {
      assert a == b;
    }
  }

  lemma {:induction false} ConcatPrefix(parts: seq<string>, n: nat)
    requires n <= |parts|
    ensures exists tail :: Concat(parts) == Concat(parts[..n]) + tail
    decreases |parts|
  {
    if n == |parts| {
      assert parts[..n] == parts;
      assert Concat(parts) == Concat(parts[..n]) + "";
    } else {
      var m := |parts| - 1;
      ConcatPrefix(parts[..m], n);
      assert parts[..m][..n] == parts[..n];
      var tail :| Concat(parts[..m]) == Concat(parts[..n]) + tail;
      assert Concat(parts) == Concat(parts[..n]) + (tail + parts[m]);
    }
  }

  /** However the printed stream is cut into reads: after every read the browser
      has handled a prefix of the events and shows a prefix of their text; after
      the last read it has handled exactly the events, and its buffer is empty. */
  lemma {:induction false} StreamRoundTrip(codec: Codec, events: seq<Event>, pieces: seq<string>, n: nat)
    requires WellBehaved(codec) && Concat(pieces) == Print(codec, events) && n <= |pieces|
    ensures Handled(codec, Concat(pieces[..n])) <= events
    ensures TextOf(Handled(codec, Concat(pieces[..n]))) <= TextOf(events)
    ensures Handled(codec, Concat(pieces)) == events && Deframe(Concat(pieces)).rest == ""
  {
    PrintDeframes(codec, events);
    ParseBodies(codec, events);
    ConcatPrefix(pieces, n);
    var so := Concat(pieces[..n]);
    var tail :| Concat(pieces) == so + tail;
    DeframeAppend(so, tail);
    ParsedAllAppend(codec, Deframe(so).frames, Deframe(Deframe(so).rest + tail).frames);
    TextGrows(Handled(codec, so), events);
  }
}
