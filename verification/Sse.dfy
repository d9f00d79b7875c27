/** The browser's event-stream reader: text arrives in chunks, a buffer is cut at every
    blank line, and each frame becomes at most one event. */
module Sse {
  import Compare
  import opened Texts

  /** An event as handed to the caller; its JSON value is a function of `data`. */
  datatype Event = Event(event: string, data: string)

  // ------------------------------------------------------------------ framing

  predicate BreakAt(s: string, k: int) {
    0 <= k && k + 1 < |s| && s[k] == '\n' && s[k + 1] == '\n'
  }

  /** `buf.indexOf('\n\n')` */
  function IndexOfBreak(s: string): (i: int)
    ensures i == -1 || BreakAt(s, i)
    ensures forall k :: 0 <= k && (i == -1 || k < i) ==> !BreakAt(s, k)
  {
    if |s| < 2 then -1
    else if s[0] == '\n' && s[1] == '\n' then 0
    else
      var r := IndexOfBreak(s[1..]);
      assert forall k :: k > 0 ==> (BreakAt(s, k) <==> BreakAt(s[1..], k - 1));
      if r == -1 then -1 else r + 1
  }

  /** The complete frames of a text. */
  function Frames(s: string): seq<string> {
    var i := IndexOfBreak(s);
    if i == -1 then [] else [s[..i]] + Frames(s[i + 2..])
  }

  /** The text after the last complete frame. */
  function Rest(s: string): (r: string)
    ensures IndexOfBreak(r) == -1
  {
    var i := IndexOfBreak(s);
    if i == -1 then s else Rest(s[i + 2..])
  }

  lemma FirstBreakIsUnique(s: string, i: int)
    requires BreakAt(s, i) && forall k :: 0 <= k < i ==> !BreakAt(s, k)
    ensures IndexOfBreak(s) == i
  {
  }

  lemma BreakSurvives(a: string, b: string)
    requires IndexOfBreak(a) != -1
    ensures IndexOfBreak(a + b) == IndexOfBreak(a)
  {
    var i := IndexOfBreak(a);
    forall k | 0 <= k < i
      ensures !BreakAt(a + b, k)
    {
      assert !BreakAt(a, k);
    }
    FirstBreakIsUnique(a + b, i);
  }

  /** More text after what was already seen only appends frames, wherever it was cut. */
  lemma {:induction false} FramesOfMore(a: string, b: string)
    ensures Frames(a + b) == Frames(a) + Frames(Rest(a) + b)
    ensures Rest(a + b) == Rest(Rest(a) + b)
    decreases |a|
  {
    var i := IndexOfBreak(a);
    if i == -1 {
      assert Frames(a) + Frames(a + b) == Frames(a + b);
    } else {
      BreakSurvives(a, b);
      var t := a[i + 2..];
      assert (a + b)[i + 2..] == t + b && (a + b)[..i] == a[..i];
      FramesOfMore(t, b);
      assert Frames(a) == [a[..i]] + Frames(t) && Rest(a) == Rest(t);
      Assoc([a[..i]], Frames(t), Frames(Rest(t) + b));
    }
  }

  /** Frames written back with their separators, then the rest. */
  function Unframe(frames: seq<string>, rest: string): string {
    if frames == [] then rest else frames[0] + "\n\n" + Unframe(frames[1..], rest)
  }

  /** No separator starts inside a frame, not even one completed by the separator itself. */
  predicate IsFrame(f: string) { IndexOfBreak(f + "\n\n") == |f| }

  lemma FirstFrameIsFrame(s: string, i: int, f: string)
    requires i == IndexOfBreak(s) != -1 && f == s[..i]
    ensures IsFrame(f)
  {
    var fb := f + "\n\n";
    forall k | 0 <= k < i
      ensures !BreakAt(fb, k)
    {
      assert !BreakAt(s, k);
      assert fb[k] == s[k] && fb[k + 1] == s[k + 1];
    }
    FirstBreakIsUnique(fb, i);
  }

  lemma FirstFrameSpells(s: string, i: int, f: string, t: string)
    requires i == IndexOfBreak(s) != -1 && f == s[..i] && t == s[i + 2..]
    ensures s == f + "\n\n" + t && Frames(s) == [f] + Frames(t) && Rest(s) == Rest(t)
  {
  }

  lemma {:induction false} FramesSpell(s: string)
    ensures Unframe(Frames(s), Rest(s)) == s
    ensures forall f :: f in Frames(s) ==> IsFrame(f)
  {
    var i := IndexOfBreak(s);
    if i != -1 {
      var f, t := s[..i], s[i + 2..];
      FirstFrameSpells(s, i, f, t);
      FirstFrameIsFrame(s, i, f);
      FramesSpell(t);
    }
  }

  /** There is only one way to cut a text into frames and a rest without a separator. */
  lemma {:induction false} FramesAreUnique(frames: seq<string>, rest: string)
    requires forall f :: f in frames ==> IsFrame(f)
    requires IndexOfBreak(rest) == -1
    ensures Frames(Unframe(frames, rest)) == frames && Rest(Unframe(frames, rest)) == rest
  {
    if frames != [] {
      var f, t := frames[0], Unframe(frames[1..], rest);
      FramesAreUnique(frames[1..], rest);
      var fb := f + "\n\n";
      assert IsFrame(f);
      BreakSurvives(fb, t);
      assert (fb + t)[|f| + 2..] == t && (fb + t)[..|f|] == f;
      assert [f] + frames[1..] == frames;
    }
  }

  // ----------------------------------------------------------- one frame

  /** `split('\n')`: the pieces hold no LF and join back to the text. */
  function SplitLF(s: string): (lines: seq<string>)
    ensures lines != [] && forall k :: 0 <= k < |lines| ==> '\n' !in lines[k]
    ensures JoinLF(lines) == s
  {
    if s == "" then [""]
    else if s[0] == '\n' then
      var rest := SplitLF(s[1..]);
      assert ([""] + rest)[1..] == rest;
      [""] + rest
    else
      var rest := SplitLF(s[1..]);
      JoinMore(s[0], rest);
      [[s[0]] + rest[0]] + rest[1..]
  }

  lemma JoinMore(c: char, lines: seq<string>)
    requires lines != []
    ensures JoinLF([[c] + lines[0]] + lines[1..]) == [c] + JoinLF(lines)
  {
    var more := [[c] + lines[0]] + lines[1..];
    assert more[1..] == lines[1..];
    if |lines| > 1 {
      assert [c] + lines[0] + "\n" + JoinLF(lines[1..]) == [c] + (lines[0] + "\n" + JoinLF(lines[1..]));
    }
  }

  function TrimBoth(s: string): string { Compare.TrimEnd(Compare.TrimStart(s)) }

  const EVENT: string := "event:"
  const DATA: string := "data:"

  /** The name of the last `event:` line. */
  function EventName(lines: seq<string>): string {
    if lines == [] then "message"
    else
      var ln := lines[|lines| - 1];
      if EVENT <= ln then TrimBoth(ln[6..]) else EventName(lines[..|lines| - 1])
  }

  /** The values of the `data:` lines, in order. */
  function DataValues(lines: seq<string>): seq<string> {
    if lines == [] then []
    else
      var ln := lines[|lines| - 1];
      DataValues(lines[..|lines| - 1]) + (if !(EVENT <= ln) && DATA <= ln then [TrimBoth(ln[5..])] else [])
  }

  /** The values accumulated the way the reader does it: no LF while nothing is there yet. */
  function Accumulated(values: seq<string>): string {
    if values == [] then ""
    else
      var data := Accumulated(values[..|values| - 1]);
      data + (if data != "" then "\n" else "") + values[|values| - 1]
  }

  function FrameEvent(frame: string): Event {
    var lines := SplitLF(frame);
    Event(EventName(lines), Accumulated(DataValues(lines)))
  }

  /** A frame that names an empty event and carries no data is dropped. */
  predicate Delivers(frame: string) { FrameEvent(frame) != Event("", "") }

  function FrameEvents(frame: string): seq<Event> { if Delivers(frame) then [FrameEvent(frame)] else [] }

  function Delivered(frames: seq<string>): seq<Event> { FlatMap(FrameEvents, frames) }

  // ------------------------------------------------------------- the reader

  method ReadFrame(frame: string) returns (ev: string, data: string)
    ensures Event(ev, data) == FrameEvent(frame)
  {
    ev, data := "message", "";
    var lines := SplitLF(frame);
    var n := 0;
    while n < |lines|
      invariant 0 <= n <= |lines|
      invariant ev == EventName(lines[..n])
      invariant data == Accumulated(DataValues(lines[..n]))
    {
      var ln := lines[n];
      LineStep(lines, n);
      if EVENT <= ln {
        ev := TrimBoth(ln[6..]);
      } else if DATA <= ln {
        data := data + (if data != "" then "\n" else "") + TrimBoth(ln[5..]);
      }
      n := n + 1;
    }
    assert lines[..|lines|] == lines;
  }

  lemma LineStep(lines: seq<string>, n: nat)
    requires n < |lines|
    ensures EventName(lines[..n + 1]) == if EVENT <= lines[n] then TrimBoth(lines[n][6..]) else EventName(lines[..n])
    ensures !(EVENT <= lines[n]) && DATA <= lines[n] ==>
      var data := Accumulated(DataValues(lines[..n]));
      Accumulated(DataValues(lines[..n + 1])) == data + (if data != "" then "\n" else "") + TrimBoth(lines[n][5..])
    ensures EVENT <= lines[n] || !(DATA <= lines[n]) ==> DataValues(lines[..n + 1]) == DataValues(lines[..n])
  {
    assert lines[..n + 1][..n] == lines[..n];
    var values := DataValues(lines[..n]);
    assert values + [] == values;
    if !(EVENT <= lines[n]) && DATA <= lines[n] {
      var v := TrimBoth(lines[n][5..]);
      assert (values + [v])[..|values|] == values;
    }
  }

  function Flatten(chunks: seq<string>): string {
    if chunks == [] then "" else Flatten(chunks[..|chunks| - 1]) + chunks[|chunks| - 1]
  }

  /** The read loop: the events depend on the text alone, not on how it was cut, and the
      buffer never keeps a complete frame. Whatever frames the text was written from, the events
      are what those frames say. */
  method Stream(chunks: seq<string>) returns (events: seq<Event>, buf: string)
    ensures events == Delivered(Frames(Flatten(chunks)))
    ensures buf == Rest(Flatten(chunks))
    ensures forall k :: !BreakAt(buf, k)
    ensures forall frames, rest :: Spells(frames, rest, Flatten(chunks)) ==> events == Announced(frames) && buf == rest
  {
    events, buf := [], "";
    var n := 0;
    while n < |chunks|
      invariant 0 <= n <= |chunks|
      invariant events == Delivered(Frames(Flatten(chunks[..n])))
      invariant buf == Rest(Flatten(chunks[..n]))
    {
      var seen := Flatten(chunks[..n]);
      assert chunks[..n + 1][..n] == chunks[..n];
      FramesOfMore(seen, chunks[n]);
      FlatMapAppend(FrameEvents, Frames(seen), Frames(buf + chunks[n]));
      var more;
      more, buf := DrainBuffer(buf + chunks[n]);
      events := events + more;
      n := n + 1;
    }
    assert chunks[..|chunks|] == chunks;
    assert IndexOfBreak(buf) == -1;
    forall frames, rest | Spells(frames, rest, Flatten(chunks))
      ensures events == Announced(frames) && buf == rest
    {
      WrittenFramesAreRead(frames, rest, Flatten(chunks));
    }
  }

  lemma CutOne(done: seq<string>, buf: string, i: int, frame: string, rest: string)
    requires i == IndexOfBreak(buf) != -1 && frame == buf[..i] && rest == buf[i + 2..]
    ensures done + Frames(buf) == done + [frame] + Frames(rest) && Rest(buf) == Rest(rest)
  {
    assert Frames(buf) == [frame] + Frames(rest);
  }

  /** The inner loop: cut complete frames off the front of the buffer. */
  method DrainBuffer(text: string) returns (events: seq<Event>, buf: string)
    ensures events == Delivered(Frames(text)) && buf == Rest(text)
  {
    buf, events := text, [];
    ghost var done: seq<string> := [];
    assert done + Frames(buf) == Frames(buf);
    var i := IndexOfBreak(buf);
    while i != -1
      invariant i == IndexOfBreak(buf)
      invariant done + Frames(buf) == Frames(text) && Rest(buf) == Rest(text)
      invariant events == Delivered(done)
      decreases |buf|
    {
      var frame := buf[..i];
      CutOne(done, buf, i, frame, buf[i + 2..]);
      FlatMapSnoc(FrameEvents, done, frame);
      buf := buf[i + 2..];
      var ev, data := ReadFrame(frame);
      if !(ev == "" && data == "") {
        events := events + [Event(ev, data)];
      }
      done := done + [frame];
      i := IndexOfBreak(buf);
    }
    assert done + [] == done;
  }

  // ------------------------------------- multi-line data against the plain join

  function DropLeadingEmpty(values: seq<string>): seq<string> {
    if values != [] && values[0] == "" then DropLeadingEmpty(values[1..]) else values
  }

  lemma {:induction false} JoinSnoc(values: seq<string>, v: string)
    requires values != []
    ensures JoinLF(values + [v]) == JoinLF(values) + "\n" + v
  {
    if |values| == 1 {
      assert (values + [v])[1..] == [v];
    } else {
      JoinSnoc(values[1..], v);
      assert (values + [v])[1..] == values[1..] + [v];
    }
  }

  lemma {:induction false} DropSnoc(values: seq<string>, v: string)
    ensures DropLeadingEmpty(values + [v]) ==
            if DropLeadingEmpty(values) == [] then DropLeadingEmpty([v]) else DropLeadingEmpty(values) + [v]
  {
    if values == [] {
      assert values + [v] == [v];
    } else if values[0] == "" {
      DropSnoc(values[1..], v);
      assert (values + [v])[1..] == values[1..] + [v];
    }
  }

  lemma {:induction false} DropStartsNonEmpty(values: seq<string>)
    ensures DropLeadingEmpty(values) == [] || DropLeadingEmpty(values)[0] != ""
  {
    if values != [] && values[0] == "" {
      DropStartsNonEmpty(values[1..]);
    }
  }

  /** The reader joins the values with LF but swallows leading empty ones. */
  lemma {:induction false} AccumulatedIsJoin(values: seq<string>)
    ensures Accumulated(values) == JoinLF(DropLeadingEmpty(values))
  {
    if values != [] {
      var front, v := values[..|values| - 1], values[|values| - 1];
      assert values == front + [v];
      AccumulatedIsJoin(front);
      DropSnoc(front, v);
      var kept := DropLeadingEmpty(front);
      if kept == [] {
        assert DropLeadingEmpty([v]) == if v == "" then [] else [v];
        assert "" + "" + v == v;
      } else {
        DropStartsNonEmpty(front);
        JoinSnoc(kept, v);
      }
    }
  }

  lemma {:induction false} DropShortens(values: seq<string>)
    ensures |JoinLF(DropLeadingEmpty(values))| <= |JoinLF(values)|
  {
    if values != [] && values[0] == "" {
      DropShortens(values[1..]);
    }
  }

  /** The reader's data is the plain LF join exactly when no empty value leads another. */
  lemma DataIsJoinExactly(values: seq<string>)
    ensures Accumulated(values) == JoinLF(values) <==> |values| <= 1 || values[0] != ""
  {
    AccumulatedIsJoin(values);
    if |values| > 1 && values[0] == "" {
      DropShortens(values[1..]);
    } else if |values| == 1 && values[0] == "" {
      assert DropLeadingEmpty(values) == DropLeadingEmpty([]);
    }
  }

  // -------------------------------------------- frames written from their fields

  /** What a frame says, line by line; spaces may stand around a name or a value. Other lines are
      comments, ids and whatever else the reader does not know. */
  datatype Field =
    | Name(before: string, name: string, after: string)
    | Value(before: string, value: string, after: string)
    | Other(text: string)
  {
    function Line(): string {
      match this
      case Name(b, n, a) => "event:" + b + n + a
      case Value(b, v, a) => "data:" + b + v + a
      case Other(t) => t
    }

    predicate Legal() {
      '\n' !in Line() &&
      match this
      case Name(b, n, a) => AllSpace(b) && AllSpace(a) && IsTrimmed(n)
      case Value(b, v, a) => AllSpace(b) && AllSpace(a) && IsTrimmed(v)
      case Other(t) => !("event:" <= t) && !("data:" <= t)
    }
  }

  predicate AllSpace(s: string) { forall k :: 0 <= k < |s| ==> Compare.IsSpace(s[k]) }
  predicate IsTrimmed(s: string) { s == "" || (!Compare.IsSpace(s[0]) && !Compare.IsSpace(s[|s| - 1])) }

  /** A frame has lines, and only its first may be empty: another would end it. */
  predicate LegalFrame(fields: seq<Field>) {
    && fields != [] && (forall k :: 0 <= k < |fields| ==> fields[k].Legal())
    && (forall k :: 0 < k < |fields| ==> fields[k].Line() != "")
  }

  predicate LegalFrames(frames: seq<seq<Field>>) { forall k :: 0 <= k < |frames| ==> LegalFrame(frames[k]) }

  function LinesOf(fields: seq<Field>): seq<string> {
    seq(|fields|, k requires 0 <= k < |fields| => fields[k].Line())
  }

  function Written(frames: seq<seq<Field>>): seq<string> {
    if frames == [] then [] else [JoinLF(LinesOf(frames[0]))] + Written(frames[1..])
  }

  /** The text is these frames, a blank line after each, and an unfinished rest. */
  ghost predicate Spells(frames: seq<seq<Field>>, rest: string, text: string) {
    LegalFrames(frames) && (forall k :: !BreakAt(rest, k)) && text == Unframe(Written(frames), rest)
  }

  /** The name given last, if any. */
  function LastName(fields: seq<Field>): string {
    if fields == [] then "message"
    else if fields[|fields| - 1].Name? then fields[|fields| - 1].name
    else LastName(fields[..|fields| - 1])
  }

  /** The values in order. */
  function Values(fields: seq<Field>): seq<string> {
    if fields == [] then []
    else Values(fields[..|fields| - 1]) + (if fields[|fields| - 1].Value? then [fields[|fields| - 1].value] else [])
  }

  /** The event a frame announces: its last name and the lines of its values, but for empty ones
      in front; nothing at all when both are empty. */
  function Announcement(fields: seq<Field>): seq<Event> {
    var e := Event(LastName(fields), JoinLF(DropLeadingEmpty(Values(fields))));
    if e.event == "" && e.data == "" then [] else [e]
  }

  function Announced(frames: seq<seq<Field>>): seq<Event> {
    if frames == [] then [] else Announcement(frames[0]) + Announced(frames[1..])
  }

  lemma {:induction false} TrimStartOf(before: string, s: string)
    requires AllSpace(before) && (s == "" || !Compare.IsSpace(s[0]))
    ensures Compare.TrimStart(before + s) == s
  {
    if before == "" {
      assert before + s == s;
    } else {
      assert (before + s)[1..] == before[1..] + s;
      TrimStartOf(before[1..], s);
    }
  }

  lemma {:induction false} TrimEndOf(s: string, after: string)
    requires AllSpace(after) && (s == "" || !Compare.IsSpace(s[|s| - 1]))
    ensures Compare.TrimEnd(s + after) == s
  {
    if after == "" {
      assert s + after == s;
    } else {
      var front, c := after[..|after| - 1], after[|after| - 1];
      TrimEndOf(s, front);
      Assoc(s, front, [c]);
      assert after == front + [c];
    }
  }

  lemma AllSpaceIsTrimmedAway(s: string)
    requires AllSpace(s)
    ensures Compare.TrimStart(s) == ""
  {
    TrimStartOf(s, "");
    assert s + "" == s;
  }

  lemma TrimBothOf(before: string, s: string, after: string)
    requires AllSpace(before) && AllSpace(after) && IsTrimmed(s)
    ensures TrimBoth(before + s + after) == s
  {
    if s == "" {
      assert before + s + after == before + after;
      AllSpaceIsTrimmedAway(before + after);
    } else {
      Assoc(before, s, after);
      TrimStartOf(before, s + after);
      TrimEndOf(s, after);
    }
  }

  lemma AfterPrefix(p: string, b: string, s: string, a: string)
    ensures p <= p + b + s + a && (p + b + s + a)[|p|..] == b + s + a
  {
  }

  /** A line reads as its field. */
  lemma LineReads(f: Field)
    requires f.Legal()
    ensures EVENT <= f.Line() <==> f.Name?
    ensures !(EVENT <= f.Line()) && DATA <= f.Line() <==> f.Value?
    ensures f.Name? ==> TrimBoth(f.Line()[6..]) == f.name
    ensures f.Value? ==> TrimBoth(f.Line()[5..]) == f.value
  {
    match f
    case Name(b, n, a) =>
      AfterPrefix("event:", b, n, a);
      TrimBothOf(b, n, a);
    case Value(b, v, a) =>
      AfterPrefix("data:", b, v, a);
      assert f.Line()[0] == 'd' && EVENT[0] == 'e';
      TrimBothOf(b, v, a);
    case Other(_) =>
  }

  lemma {:induction false} FieldsRead(fields: seq<Field>)
    requires forall k :: 0 <= k < |fields| ==> fields[k].Legal()
    ensures EventName(LinesOf(fields)) == LastName(fields) && DataValues(LinesOf(fields)) == Values(fields)
  {
    if fields != [] {
      var n := |fields| - 1;
      assert LinesOf(fields)[..n] == LinesOf(fields[..n]);
      FieldsRead(fields[..n]);
      LineReads(fields[n]);
    }
  }

  /** Lines without LF are what their join splits into. */
  lemma {:induction false} SplitOfJoin(lines: seq<string>)
    requires lines != [] && forall k :: 0 <= k < |lines| ==> '\n' !in lines[k]
    ensures SplitLF(JoinLF(lines)) == lines
    decreases |lines|, |lines[0]|
  {
    var l, rest := lines[0], lines[1..];
    if l == "" {
      if rest != [] {
        SplitOfJoin(rest);
        assert JoinLF(lines)[1..] == JoinLF(rest);
        assert [""] + rest == lines;
      }
    } else {
      assert l[0] in l && forall c :: c in l[1..] ==> c in l;
      var less := [l[1..]] + rest;
      SplitOfJoin(less);
      JoinMore(l[0], less);
      assert [l[0]] + l[1..] == l && less[1..] == rest && [l] + rest == lines;
    }
  }

  lemma FrameReads(fields: seq<Field>)
    requires LegalFrame(fields)
    ensures FrameEvents(JoinLF(LinesOf(fields))) == Announcement(fields)
  {
    SplitOfJoin(LinesOf(fields));
    FieldsRead(fields);
    AccumulatedIsJoin(Values(fields));
  }

  /** Lines without LF, none empty but perhaps the first, make a frame. */
  lemma {:induction false} JoinIsFrame(lines: seq<string>)
    requires lines != [] && (forall k :: 0 <= k < |lines| ==> '\n' !in lines[k])
    requires forall k :: 0 < k < |lines| ==> lines[k] != ""
    ensures IsFrame(JoinLF(lines))
  {
    var l, rest := lines[0], lines[1..];
    var f := JoinLF(lines);
    var fb := f + "\n\n";
    if rest != [] {
      JoinIsFrame(rest);
      var g := JoinLF(rest);
      assert g[0] == rest[0][0] && rest[0][0] in rest[0];
      assert f == l + "\n" + g;
      forall k | 0 <= k < |f|
        ensures !BreakAt(fb, k)
      {
        if k > |l| {
          assert !BreakAt(g + "\n\n", k - |l| - 1);
        } else if k < |l| {
          assert fb[k] in l;
        }
      }
    } else {
      assert forall k :: 0 <= k < |f| ==> fb[k] in l;
    }
    FirstBreakIsUnique(fb, |f|);
  }

  lemma {:induction false} WrittenIsFrames(frames: seq<seq<Field>>)
    requires LegalFrames(frames)
    ensures forall f :: f in Written(frames) ==> IsFrame(f)
  {
    if frames != [] {
      JoinIsFrame(LinesOf(frames[0]));
      WrittenIsFrames(frames[1..]);
    }
  }

  lemma {:induction false} FramesRead(frames: seq<seq<Field>>)
    requires LegalFrames(frames)
    ensures Delivered(Written(frames)) == Announced(frames)
  {
    if frames != [] {
      var first, rest := frames[0], frames[1..];
      FrameReads(first);
      FramesRead(rest);
    }
  }

  /** However a stream of frames is written, its events are what the frames say. */
  lemma WrittenFramesAreRead(frames: seq<seq<Field>>, rest: string, text: string)
    requires Spells(frames, rest, text)
    ensures Delivered(Frames(text)) == Announced(frames) && Rest(text) == rest
  {
    WrittenIsFrames(frames);
    assert IndexOfBreak(rest) == -1;
    FramesAreUnique(Written(frames), rest);
    FramesRead(frames);
  }
}
