/** The playground's four comparison modes, and the order between them. */
module Compare {
  import opened Texts

  datatype Mode = Exact | Trim | Tokens | IgnoreWs

  /** The characters matched by `\s` and removed by `String.trim`. */
  predicate IsSpace(c: char) {
    c in ['\t', '\n', '\U{000B}', '\U{000C}', '\r', ' ', '\U{00A0}', '\U{1680}', '\U{2028}', '\U{2029}',
          '\U{202F}', '\U{205F}', '\U{3000}', '\U{FEFF}'] || '\U{2000}' <= c <= '\U{200A}'
  }

  predicate IsBlank(c: char) { c == ' ' || c == '\t' }

  /** A line end, possibly after blanks: `[ \t]*\r?\n` matches at the start of `s`. */
  predicate BlanksThenNewline(s: string) {
    s != "" &&
    if IsBlank(s[0]) then BlanksThenNewline(s[1..])
    else s[0] == '\n' || (s[0] == '\r' && |s| > 1 && s[1] == '\n')
  }

  /** `replace(/[ \t]+(\r?\n)/g, '$1')` */
  function StripLineEnds(s: string): string {
    if s == "" then ""
    else if IsBlank(s[0]) && BlanksThenNewline(s[1..]) then StripLineEnds(s[1..])
    else [s[0]] + StripLineEnds(s[1..])
  }

  /** `replace(/\r?\n$/, '')` */
  function DropFinalNewline(s: string): string {
    if s == "" || s[|s| - 1] != '\n' then s
    else if |s| > 1 && s[|s| - 2] == '\r' then s[..|s| - 2]
    else s[..|s| - 1]
  }

  function Norm(s: string): string { DropFinalNewline(StripLineEnds(s)) }

  /** `replace(/\s+/g, '')` */
  function Squash(s: string): string {
    if s == "" then "" else (if IsSpace(s[0]) then "" else [s[0]]) + Squash(s[1..])
  }

  function TrimStart(s: string): string {
    if s != "" && IsSpace(s[0]) then TrimStart(s[1..]) else s
  }

  function TrimEnd(s: string): string {
    if s != "" && IsSpace(s[|s| - 1]) then TrimEnd(s[..|s| - 1]) else s
  }

  /** `split(/\s+/)`: a leading or trailing separator leaves an empty piece. */
  function SplitSpaces(s: string): (pieces: seq<string>)
    ensures pieces != []
    decreases |s|
  {
    if s == "" then [""]
    else if IsSpace(s[0]) then
      TrimStartShortens(s);
      [""] + SplitSpaces(TrimStart(s))
    else
      var rest := SplitSpaces(s[1..]);
      [[s[0]] + rest[0]] + rest[1..]
  }

  lemma TrimStartShortens(s: string)
    ensures |TrimStart(s)| <= |s|
    ensures s != "" && IsSpace(s[0]) ==> |TrimStart(s)| < |s|
  {
  }

  function Pieces(s: string): seq<string> { SplitSpaces(TrimEnd(TrimStart(s))) }

  /** `compare(actual, expected, mode)`; an empty expectation is no check at all. */
  predicate Agrees(actual: string, expected: string, mode: Mode) {
    expected == "" ||
    match mode
    case Exact => actual == expected
    case Trim => Norm(actual) == Norm(expected)
    case Tokens => Pieces(actual) == Pieces(expected)
    case IgnoreWs => Squash(actual) == Squash(expected)
  }

  // ------------------------------------------------- words as the common ground

  /** The maximal runs of non-space characters. */
  function Words(s: string): (ws: seq<string>)
    ensures s != "" && !IsSpace(s[0]) ==> ws != []
    ensures forall k :: 0 <= k < |ws| ==> ws[k] != ""
  {
    if s == "" then []
    else if IsSpace(s[0]) then Words(s[1..])
    else if |s| == 1 || IsSpace(s[1]) then [[s[0]]] + Words(s[1..])
    else
      var rest := Words(s[1..]);
      [[s[0]] + rest[0]] + rest[1..]
  }

  /** `s` opens a gap: nothing, or a space. */
  predicate AtGap(s: string) { s == "" || IsSpace(s[0]) }

  lemma {:induction false} StripLineEndsKeepsGap(s: string)
    ensures AtGap(StripLineEnds(s)) <==> AtGap(s)
    ensures BlanksThenNewline(s) ==> StripLineEnds(s) != "" && IsSpace(StripLineEnds(s)[0])
  {
    if s != "" {
      StripLineEndsKeepsGap(s[1..]);
    }
  }

  lemma {:induction false} StripLineEndsKeepsWords(s: string)
    ensures Words(StripLineEnds(s)) == Words(s)
  {
    if s != "" {
      StripLineEndsKeepsWords(s[1..]);
      StripLineEndsKeepsGap(s[1..]);
      var rest := StripLineEnds(s[1..]);
      assert ([s[0]] + rest)[1..] == rest;
    }
  }

  lemma {:induction false} TrailingSpaceKeepsWords(s: string, c: char)
    requires IsSpace(c)
    ensures Words(s + [c]) == Words(s)
  {
    if s == "" {
      assert s + [c] == [c] && [c][1..] == "";
    } else {
      assert (s + [c])[1..] == s[1..] + [c];
      TrailingSpaceKeepsWords(s[1..], c);
    }
  }

  lemma NormKeepsWords(s: string)
    ensures Words(Norm(s)) == Words(s)
  {
    StripLineEndsKeepsWords(s);
    DropFinalNewlineKeepsWords(StripLineEnds(s));
  }

  lemma DropLastKeepsWords(s: string, front: string, c: char)
    requires s == front + [c] && IsSpace(c)
    ensures Words(front) == Words(s)
  {
    TrailingSpaceKeepsWords(front, c);
  }

  lemma DropFinalNewlineKeepsWords(t: string)
    ensures Words(DropFinalNewline(t)) == Words(t)
  {
    if t != "" && t[|t| - 1] == '\n' {
      var front := t[..|t| - 1];
      assert t == front + ['\n'];
      DropLastKeepsWords(t, front, '\n');
      if |t| > 1 && t[|t| - 2] == '\r' {
        assert front == t[..|t| - 2] + ['\r'];
        DropLastKeepsWords(front, t[..|t| - 2], '\r');
      }
    }
  }

  lemma {:induction false} TrimStartKeepsWords(s: string)
    ensures Words(TrimStart(s)) == Words(s)
    ensures TrimStart(s) == "" || !IsSpace(TrimStart(s)[0])
    ensures s != "" && !IsSpace(s[|s| - 1]) ==> TrimStart(s) != "" && TrimStart(s)[|TrimStart(s)| - 1] == s[|s| - 1]
  {
    if s != "" && IsSpace(s[0]) {
      TrimStartKeepsWords(s[1..]);
    }
  }

  lemma {:induction false} TrimEndKeepsWords(s: string)
    ensures Words(TrimEnd(s)) == Words(s)
  {
    if s != "" && IsSpace(s[|s| - 1]) {
      var p, c := s[..|s| - 1], s[|s| - 1];
      assert s == p + [c];
      TrailingSpaceKeepsWords(p, c);
      TrimEndKeepsWords(p);
    }
  }

  lemma {:induction false} TrimEndKeepsEnds(s: string)
    ensures TrimEnd(s) == "" || !IsSpace(TrimEnd(s)[|TrimEnd(s)| - 1])
    ensures s != "" && !IsSpace(s[0]) ==> TrimEnd(s) != "" && TrimEnd(s)[0] == s[0]
  {
    if s != "" && IsSpace(s[|s| - 1]) {
      TrimEndKeepsEnds(s[..|s| - 1]);
    }
  }

  /** Splitting a text without a trailing space yields its words, after one empty piece for
      a leading space. */
  lemma {:induction false} SplitIsWords(s: string)
    requires s != "" && !IsSpace(s[|s| - 1])
    ensures SplitSpaces(s) == (if IsSpace(s[0]) then [""] else []) + Words(s)
    decreases |s|
  {
    if IsSpace(s[0]) {
      TrimStartShortens(s);
      TrimStartKeepsWords(s);
      SplitIsWords(TrimStart(s));
      assert [] + Words(TrimStart(s)) == Words(s);
    } else if |s| == 1 {
      assert s[1..] == "" && [s[0]] + "" == [s[0]];
    } else {
      SplitIsWords(s[1..]);
      var rest := SplitSpaces(s[1..]);
      if IsSpace(s[1]) {
        assert rest[0] == "" && rest[1..] == Words(s[1..]);
        assert [s[0]] + "" == [s[0]];
      } else {
        assert rest == Words(s[1..]);
      }
    }
  }

  lemma SplitTrimmed(t: string)
    requires t == "" || (!IsSpace(t[0]) && !IsSpace(t[|t| - 1]))
    ensures SplitSpaces(t) == if Words(t) == [] then [""] else Words(t)
  {
    if t != "" {
      SplitIsWords(t);
      assert [] + Words(t) == Words(t);
    }
  }

  /** The `tokens` pieces are the words, or a single empty piece when there are none. */
  lemma PiecesAreWords(s: string)
    ensures Pieces(s) == if Words(s) == [] then [""] else Words(s)
  {
    var front := TrimStart(s);
    TrimStartKeepsWords(s);
    TrimEndKeepsWords(front);
    TrimEndKeepsEnds(front);
    SplitTrimmed(TrimEnd(front));
  }

  function Concat(ws: seq<string>): string {
    if ws == [] then "" else ws[0] + Concat(ws[1..])
  }

  /** Removing whitespace concatenates the words. */
  lemma {:induction false} SquashConcatenatesWords(s: string)
    ensures Squash(s) == Concat(Words(s))
  {
    if s != "" {
      SquashConcatenatesWords(s[1..]);
      var ws := Words(s);
      if IsSpace(s[0]) {
        assert Squash(s) == Squash(s[1..]);
      } else if |s| == 1 || IsSpace(s[1]) {
        assert ws[1..] == Words(s[1..]);
      } else {
        var rest := Words(s[1..]);
        assert ws[1..] == rest[1..];
        assert [s[0]] + rest[0] + Concat(rest[1..]) == [s[0]] + (rest[0] + Concat(rest[1..]));
      }
    }
  }

  // --------------------------------------------------------- what trim ignores

  /** A terminated line: what it says, the blanks behind it, and how it ends. */
  datatype TextLine = TextLine(text: string, blanks: string, crlf: bool) {
    function End(): string { if crlf then "\r\n" else "\n" }

    /** The blanks are all of them, and a CR right before the LF belongs to the line's end. */
    predicate Legal() {
      && '\n' !in text && (text == "" || (text[|text| - 1] != ' ' && text[|text| - 1] != '\t'))
      && (forall k :: 0 <= k < |blanks| ==> blanks[k] == ' ' || blanks[k] == '\t')
      && !(text != "" && text[|text| - 1] == '\r' && blanks == "" && !crlf)
    }
  }

  /** Terminated lines and an unterminated last one. */
  function TextOf(lines: seq<TextLine>, tail: string): string {
    if lines == [] then tail
    else lines[0].text + (lines[0].blanks + (lines[0].End() + TextOf(lines[1..], tail)))
  }

  predicate LegalText(lines: seq<TextLine>, tail: string) {
    '\n' !in tail && forall k :: 0 <= k < |lines| ==> lines[k].Legal()
  }

  predicate IsText(s: string, lines: seq<TextLine>, tail: string) {
    LegalText(lines, tail) && s == TextOf(lines, tail)
  }

  lemma {:induction false} BlanksBehind(s: string) returns (text: string, blanks: string)
    ensures s == text + blanks && (forall k :: 0 <= k < |blanks| ==> IsBlank(blanks[k]))
    ensures text == "" || !IsBlank(text[|text| - 1])
  {
    if s == "" || !IsBlank(s[|s| - 1]) {
      text, blanks := s, "";
    } else {
      var front, c := s[..|s| - 1], s[|s| - 1];
      text, blanks := BlanksBehind(front);
      Assoc(text, blanks, [c]);
      blanks := blanks + [c];
      assert s == front + [c];
    }
  }

  /** What stands before an LF, and whether a CR belongs to it. */
  lemma BodyOf(s: string, i: nat) returns (body: string, crlf: bool)
    requires i < |s| && s[i] == '\n' && '\n' !in s[..i]
    ensures '\n' !in body && (crlf || body == "" || body[|body| - 1] != '\r')
    ensures s[..i + 1] == body + if crlf then "\r\n" else "\n"
  {
    var head := s[..i];
    crlf := head != "" && head[i - 1] == '\r';
    body := if crlf then head[..i - 1] else head;
    assert forall k :: 0 <= k < |body| ==> body[k] == head[k];
  }

  lemma LineOf(body: string, crlf: bool) returns (l: TextLine)
    requires '\n' !in body && (crlf || body == "" || body[|body| - 1] != '\r')
    ensures l.Legal() && l.crlf == crlf && body == l.text + l.blanks
  {
    var text, blanks := BlanksBehind(body);
    l := TextLine(text, blanks, crlf);
    assert forall k :: 0 <= k < |text| ==> text[k] == body[k];
    assert blanks == "" ==> text == body;
  }

  lemma FirstNewline(s: string) returns (i: nat)
    requires '\n' in s
    ensures i < |s| && s[i] == '\n' && '\n' !in s[..i]
  {
    i := 0;
    while s[i] != '\n'
      invariant i < |s| && '\n' !in s[..i] && '\n' in s[i..]
      decreases |s| - i
    {
      assert s[..i + 1] == s[..i] + [s[i]] && s[i..] == [s[i]] + s[i + 1..];
      i := i + 1;
    }
  }

  /** Every text is lines and a rest. */
  lemma {:induction false} EveryTextIsLines(s: string) returns (lines: seq<TextLine>, tail: string)
    ensures IsText(s, lines, tail)
    decreases |s|
  {
    if '\n' !in s {
      lines, tail := [], s;
    } else {
      var i := FirstNewline(s);
      var body, crlf := BodyOf(s, i);
      var l := LineOf(body, crlf);
      lines, tail := EveryTextIsLines(s[i + 1..]);
      var rest := TextOf(lines, tail);
      assert s == s[..i + 1] + rest;
      Assoc(body, l.End(), rest);
      Assoc(l.text, l.blanks, l.End() + rest);
      lines := [l] + lines;
    }
  }

  /** The same without the blanks. */
  function Bare(lines: seq<TextLine>, tail: string): string {
    if lines == [] then tail else lines[0].text + (lines[0].End() + Bare(lines[1..], tail))
  }

  /** What is left of a last line when its end goes; a CR then goes with it. */
  function LastText(l: TextLine): string {
    if !l.crlf && l.text != "" && l.text[|l.text| - 1] == '\r' then l.text[..|l.text| - 1] else l.text
  }

  /** Without the blanks before line ends and without the final line end. */
  function Trimmed(lines: seq<TextLine>, tail: string): string {
    if lines == [] then tail
    else if |lines| == 1 && tail == "" then LastText(lines[0])
    else lines[0].text + (lines[0].End() + Trimmed(lines[1..], tail))
  }

  lemma {:induction false} NoNewlineNoMatch(s: string)
    requires '\n' !in s
    ensures !BlanksThenNewline(s) && StripLineEnds(s) == s
  {
    if s != "" {
      assert s[0] in s && (|s| > 1 ==> s[1] in s);
      NoNewlineNoMatch(s[1..]);
      assert [s[0]] + s[1..] == s;
    }
  }

  lemma {:induction false} NoMatchInside(text: string, more: string)
    requires text != "" && '\n' !in text && !IsBlank(text[|text| - 1])
    requires !(text[|text| - 1] == '\r' && more != "" && more[0] == '\n')
    ensures !BlanksThenNewline(text + more)
  {
    var all := text + more;
    assert all[0] == text[0] && text[0] in text;
    if IsBlank(text[0]) {
      assert all[1..] == text[1..] + more;
      NoMatchInside(text[1..], more);
    } else if |text| > 1 {
      assert all[1] == text[1] && text[1] in text;
    }
  }

  lemma {:induction false} BlanksGo(l: TextLine, blanks: string, rest: string)
    requires forall k :: 0 <= k < |blanks| ==> IsBlank(blanks[k])
    ensures BlanksThenNewline(blanks + (l.End() + rest))
    ensures StripLineEnds(blanks + (l.End() + rest)) == l.End() + StripLineEnds(rest)
  {
    var all := blanks + (l.End() + rest);
    if blanks == "" {
      assert all == l.End() + rest;
    } else {
      BlanksGo(l, blanks[1..], rest);
      assert all[1..] == blanks[1..] + (l.End() + rest);
    }
  }

  lemma {:induction false} TextStays(text: string, more: string)
    requires '\n' !in text && (text == "" || !IsBlank(text[|text| - 1]))
    requires !(text != "" && text[|text| - 1] == '\r' && more != "" && more[0] == '\n')
    ensures StripLineEnds(text + more) == text + StripLineEnds(more)
  {
    if text == "" {
      assert text + more == more && text + StripLineEnds(more) == StripLineEnds(more);
    } else {
      assert (text + more)[1..] == text[1..] + more;
      TextStays(text[1..], more);
      if IsBlank(text[0]) {
        NoMatchInside(text[1..], more);
      }
      HeadAndTail(text, StripLineEnds(more));
    }
  }

  lemma {:induction false} StrippedIsBare(lines: seq<TextLine>, tail: string)
    requires LegalText(lines, tail)
    ensures StripLineEnds(TextOf(lines, tail)) == Bare(lines, tail)
  {
    if lines == [] {
      NoNewlineNoMatch(tail);
    } else {
      var l, rest := lines[0], TextOf(lines[1..], tail);
      StrippedIsBare(lines[1..], tail);
      BlanksGo(l, l.blanks, rest);
      TextStays(l.text, l.blanks + (l.End() + rest));
    }
  }

  lemma LastEndGoes(l: TextLine)
    ensures DropFinalNewline(l.text + l.End()) == LastText(l)
  {
    var t := l.text + l.End();
    assert l.crlf ==> t[..|t| - 2] == l.text;
    if !l.crlf {
      assert t[..|t| - 1] == l.text;
      assert |t| > 1 ==> t[|t| - 2] == l.text[|l.text| - 1] && t[..|t| - 2] == l.text[..|l.text| - 1];
    }
  }

  /** Dropping the final line end does not look further back than the last line. */
  lemma DropInRest(front: string, rest: string)
    requires rest != "" && front != "" && front[|front| - 1] == '\n'
    ensures DropFinalNewline(front + rest) == front + DropFinalNewline(rest)
  {
    var all := front + rest;
    assert all[|all| - 1] == rest[|rest| - 1];
    if rest[|rest| - 1] == '\n' {
      assert all[|all| - 2] == if |rest| > 1 then rest[|rest| - 2] else '\n';
      assert all[..|all| - 1] == front + rest[..|rest| - 1];
      if |rest| > 1 {
        assert all[..|all| - 2] == front + rest[..|rest| - 2];
      }
    }
  }

  lemma {:induction false} BareIsTrimmed(lines: seq<TextLine>, tail: string)
    requires LegalText(lines, tail)
    ensures DropFinalNewline(Bare(lines, tail)) == Trimmed(lines, tail)
  {
    if lines == [] {
      assert tail != "" ==> tail[|tail| - 1] in tail;
    } else if |lines| == 1 && tail == "" {
      LastEndGoes(lines[0]);
      assert lines[0].End() + "" == lines[0].End();
    } else {
      var l, rest := lines[0], Bare(lines[1..], tail);
      BareIsTrimmed(lines[1..], tail);
      Assoc(l.text, l.End(), rest);
      DropInRest(l.text + l.End(), rest);
      Assoc(l.text, l.End(), Trimmed(lines[1..], tail));
    }
  }

  /** What `trim` compares, for every way of writing a text as lines: blanks at line ends and the
      final line end do not count, everything else does. */
  lemma TrimIgnoresLineEnds(lines: seq<TextLine>, tail: string)
    requires LegalText(lines, tail)
    ensures Norm(TextOf(lines, tail)) == Trimmed(lines, tail)
  {
    StrippedIsBare(lines, tail);
    BareIsTrimmed(lines, tail);
  }

  // ------------------------------------------------------------- the four modes

  /** `tokens` means equal words. */
  lemma TokensMeansWords(actual: string, expected: string)
    requires expected != ""
    ensures Agrees(actual, expected, Tokens) <==> Words(actual) == Words(expected)
  {
    PiecesAreWords(actual);
    PiecesAreWords(expected);
    var wa, we := Words(actual), Words(expected);
    assert wa == [] || wa[0] != "";
    assert we == [] || we[0] != "";
  }

  /** What each mode means: equal texts, equal but for blanks at line ends and the final line end,
      equal words, equal words run together. No expectation is no check. */
  lemma ModesMean(actual: string, expected: string)
    ensures expected == "" ==> forall mode :: Agrees(actual, expected, mode)
    ensures expected != "" ==> (Agrees(actual, expected, Exact) <==> actual == expected)
    ensures expected != "" ==> (Agrees(actual, expected, Tokens) <==> Words(actual) == Words(expected))
    ensures expected != "" ==>
              (Agrees(actual, expected, IgnoreWs) <==> Concat(Words(actual)) == Concat(Words(expected)))
    ensures forall ls, tail, ms, end :: IsText(actual, ls, tail) && IsText(expected, ms, end) && expected != "" ==>
              (Agrees(actual, expected, Trim) <==> Trimmed(ls, tail) == Trimmed(ms, end))
  {
    if expected != "" {
      TokensMeansWords(actual, expected);
      SquashConcatenatesWords(actual);
      SquashConcatenatesWords(expected);
      forall ls, tail, ms, end | IsText(actual, ls, tail) && IsText(expected, ms, end)
        ensures Agrees(actual, expected, Trim) <==> Trimmed(ls, tail) == Trimmed(ms, end)
      {
        TrimIgnoresLineEnds(ls, tail);
        TrimIgnoresLineEnds(ms, end);
      }
    }
  }

  /** The modes form a chain, for all texts. */
  lemma ModesFormAChain(actual: string, expected: string)
    ensures Agrees(actual, expected, Exact) ==> Agrees(actual, expected, Trim)
    ensures Agrees(actual, expected, Trim) ==> Agrees(actual, expected, Tokens)
    ensures Agrees(actual, expected, Tokens) ==> Agrees(actual, expected, IgnoreWs)
  {
    if expected != "" {
      NormKeepsWords(actual);
      NormKeepsWords(expected);
      TokensMeansWords(actual, expected);
      SquashConcatenatesWords(actual);
      SquashConcatenatesWords(expected);
    }
  }

  /** No link of the chain can be reversed. `x` and `y` are any two non-space characters. */
  lemma ChainIsStrict(x: char, y: char)
    requires !IsSpace(x) && !IsSpace(y)
    ensures !Agrees([x, '\n'], [x], Exact) && Agrees([x, '\n'], [x], Trim)
    ensures !Agrees([x, ' ', ' ', y], [x, ' ', y], Trim) && Agrees([x, ' ', ' ', y], [x, ' ', y], Tokens)
    ensures !Agrees([x, y], [x, ' ', y], Tokens) && Agrees([x, y], [x, ' ', y], IgnoreWs)
  {
    NewlineOnly(x);
    TwoSpaces(x, y);
    NoSpace(x, y);
  }

  lemma NewlineOnly(x: char)
    requires !IsSpace(x)
    ensures Norm([x, '\n']) == [x] && Norm([x]) == [x]
  {
    assert [x, '\n'][1..] == ['\n'] && ['\n'][1..] == "" && [x][1..] == "";
    assert StripLineEnds(['\n']) == ['\n'] + StripLineEnds("");
    assert StripLineEnds([x, '\n']) == [x, '\n'];
    assert StripLineEnds([x]) == [x];
    assert [x, '\n'][..1] == [x];
  }

  lemma TwoSpaces(x: char, y: char)
    requires !IsSpace(x) && !IsSpace(y)
    ensures Norm([x, ' ', ' ', y]) != Norm([x, ' ', y])
    ensures Agrees([x, ' ', ' ', y], [x, ' ', y], Tokens)
  {
    assert [x, ' ', ' ', y][1..] == [' ', ' ', y] && [' ', ' ', y][1..] == [' ', y] && [' ', y][1..] == [y];
    assert [x, ' ', y][1..] == [' ', y] && [y][1..] == "";
    assert StripLineEnds([y]) == [y];
    assert StripLineEnds([' ', y]) == [' ', y];
    assert StripLineEnds([' ', ' ', y]) == [' ', ' ', y] by {
      assert BlanksThenNewline([' ', y]) == BlanksThenNewline([y]);
    }
    assert StripLineEnds([x, ' ', ' ', y]) == [x, ' ', ' ', y];
    assert StripLineEnds([x, ' ', y]) == [x, ' ', y];
    assert Words([' ', ' ', y]) == Words([' ', y]) == Words([y]);
    TokensMeansWords([x, ' ', ' ', y], [x, ' ', y]);
  }

  lemma NoSpace(x: char, y: char)
    requires !IsSpace(x) && !IsSpace(y)
    ensures !Agrees([x, y], [x, ' ', y], Tokens)
    ensures Squash([x, y]) == Squash([x, ' ', y])
  {
    SpacedWords(x, y);
    TokensMeansWords([x, y], [x, ' ', y]);
  }

  lemma SpacedWords(x: char, y: char)
    requires !IsSpace(x) && !IsSpace(y)
    ensures Words([x, ' ', y]) == [[x], [y]] && Squash([x, ' ', y]) == [x, y]
  {
    assert [x, ' ', y][1..] == [' ', y] && [' ', y][1..] == [y] && [y][1..] == "";
    assert Words([y]) == [[y]] && Squash([y]) == [y];
    assert Words([' ', y]) == [[y]] && Squash([' ', y]) == [y];
  }
}
