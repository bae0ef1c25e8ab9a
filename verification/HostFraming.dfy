/** Reassembling newline-framed requests from arbitrary chunks of text. */
module HostFraming {
  /** The characters `String.prototype.trim` removes. */
  predicate IsSpace(c: char) {
    c == ' ' || '\t' <= c <= '\r' || c == '\U{A0}' || c == '\U{1680}' || '\U{2000}' <= c <= '\U{200A}'
    || c == '\U{2028}' || c == '\U{2029}' || c == '\U{202F}' || c == '\U{205F}' || c == '\U{3000}' || c == '\U{FEFF}'
  }

  predicate Blank(line: string) { forall c :: c in line ==> IsSpace(c) }

  /** An empty line and one of spaces, tabs and carriage returns are blank; one that
      holds a brace is not. */
  lemma OrdinaryBlanks(line: string)
    ensures (forall c :: c in line ==> c in " \t\r") ==> Blank(line)
    ensures '{' in line ==> !Blank(line)
  {}

  function Concat(chunks: seq<string>): string {
    if chunks == [] then "" else chunks[0] + Concat(chunks[1..])
  }

  /** The pieces of a text that is one character longer. */
  function AddChar(pieces: seq<string>, c: char): (longer: seq<string>)
    requires pieces != []
    ensures longer != []
  {
    var last := |pieces| - 1;
    if c == '\n' then pieces + [""] else pieces[..last] + [pieces[last] + [c]]
  }

  /** `text.split("\n")`: one more piece than there are newlines. */
  function Split(text: string): (pieces: seq<string>)
    ensures pieces != []
    ensures forall p :: p in pieces ==> '\n' !in p
  {
    if text == "" then [""] else AddChar(Split(text[..|text| - 1]), text[|text| - 1])
  }

  /** The pieces ended by a newline. */
  function Complete(text: string): seq<string> { Split(text)[..|Split(text)| - 1] }

  /** What follows the last newline. */
  function Open(text: string): string { Split(text)[|Split(text)| - 1] }

  function NonBlank(lines: seq<string>): seq<string> {
    if lines == [] then [] else (if Blank(lines[0]) then [] else [lines[0]]) + NonBlank(lines[1..])
  }

  /** The requests in a text: its non-blank lines, an unterminated last one
      included. */
  function Requests(text: string): seq<string> { NonBlank(Split(text)) }

  function Join(pieces: seq<string>): string
    requires pieces != []
  {
    var last := |pieces| - 1;
    if last == 0 then pieces[0] else Join(pieces[..last]) + "\n" + pieces[last]
  }

  lemma JoinAddChar(pieces: seq<string>, c: char)
    requires pieces != []
    ensures Join(AddChar(pieces, c)) == Join(pieces) + [c]
  {
    var last := |pieces| - 1;
    var longer := AddChar(pieces, c);
    assert longer[..|longer| - 1] == if c == '\n' then pieces else pieces[..last];
    if c == '\n' {
      assert Join(pieces) + "\n" + "" == Join(pieces) + [c];
    } else if last > 0 {
      assert Join(pieces[..last]) + "\n" + (pieces[last] + [c]) == Join(pieces[..last]) + "\n" + pieces[last] + [c];
    }
  }

  /** Splitting loses nothing. */
  lemma {:induction false} JoinUndoesSplit(text: string)
    ensures Join(Split(text)) == text
  {
    if text != "" {
      var n := |text| - 1;
      JoinUndoesSplit(text[..n]);
      JoinAddChar(Split(text[..n]), text[n]);
      assert text[..n] + [text[n]] == text;
    }
  }

  lemma {:induction false} SplitOfLine(line: string)
    requires '\n' !in line
    ensures Split(line) == [line]
  {
    if line != "" {
      var n := |line| - 1;
      SplitOfLine(line[..n]);
      var shorter := [line[..n]];
      assert line[n] in line && Split(line) == AddChar(shorter, line[n]);
      assert shorter[0] + [line[n]] == line;
      assert AddChar(shorter, line[n])[0] == line && |AddChar(shorter, line[n])| == 1;
    }
  }

  lemma AddCharAfter(a: seq<string>, b: seq<string>, c: char)
    requires b != []
    ensures AddChar(a + b, c) == a + AddChar(b, c)
  {
    assert (a + b)[..|a + b| - 1] == a + b[..|b| - 1];
  }

  lemma SplitSnoc(text: string, c: char)
    ensures Split(text + [c]) == AddChar(Split(text), c)
  {
    assert (text + [c])[..|text|] == text;
  }

  lemma SplitParts(text: string)
    ensures Split(text) == Complete(text) + [Open(text)] && '\n' !in Open(text)
  {}

  lemma SplitContinuesStep(text: string, fewer: string, c: char)
    requires Split(text + fewer) == Complete(text) + Split(Open(text) + fewer)
    ensures Split(text + fewer + [c]) == Complete(text) + Split(Open(text) + fewer + [c])
  {
    hide Split, AddChar, Complete, Open;
    SplitSnoc(text + fewer, c);
    SplitSnoc(Open(text) + fewer, c);
    AddCharAfter(Complete(text), Split(Open(text) + fewer), c);
  }

  /** Splitting a longer text continues from its open last piece. */
  lemma {:induction false} SplitContinues(text: string, more: string)
    ensures Split(text + more) == Complete(text) + Split(Open(text) + more)
  {
    hide Split, AddChar, Complete, Open;
    if more == "" {
      SplitParts(text);
      SplitOfLine(Open(text));
      assert text + more == text && Open(text) + more == Open(text);
    } else {
      var n := |more| - 1;
      SplitContinues(text, more[..n]);
      SplitContinuesStep(text, more[..n], more[n]);
      assert text + more == text + more[..n] + [more[n]];
      assert Open(text) + more == Open(text) + more[..n] + [more[n]];
    }
  }

  lemma {:induction false} NonBlankJoins(a: seq<string>, b: seq<string>)
    ensures NonBlank(a + b) == NonBlank(a) + NonBlank(b)
  {
    if a == [] {
      assert a + b == b;
    } else {
      assert (a + b)[1..] == a[1..] + b;
      NonBlankJoins(a[1..], b);
    }
  }

  lemma NonBlankOfOne(line: string)
    ensures NonBlank([line]) == if Blank(line) then [] else [line]
  {
    assert [line][1..] == [];
  }

  lemma TakeOneMore(lines: seq<string>, j: nat)
    requires j < |lines|
    ensures lines[..j + 1] == lines[..j] + [lines[j]]
    ensures lines == lines[..j + 1] + lines[j + 1..]
  {}

  /** One line further. */
  lemma NonBlankUpTo(lines: seq<string>, j: nat)
    requires j < |lines|
    ensures NonBlank(lines[..j + 1]) == NonBlank(lines[..j]) + NonBlank([lines[j]])
    ensures NonBlank(lines) == NonBlank(lines[..j + 1]) + NonBlank(lines[j + 1..])
  {
    TakeOneMore(lines, j);
    NonBlankJoins(lines[..j], [lines[j]]);
    NonBlankJoins(lines[..j + 1], lines[j + 1..]);
    hide NonBlank, Blank;
  }

  lemma {:induction false} ConcatAppend(chunks: seq<string>, chunk: string)
    ensures Concat(chunks + [chunk]) == Concat(chunks) + chunk
  {
    if chunks == [] {
      assert chunks + [chunk] == [chunk];
    } else {
      assert (chunks + [chunk])[1..] == chunks[1..] + [chunk];
      ConcatAppend(chunks[1..], chunk);
    }
  }

  /** One turn of the framing loop: the complete lines are handed over, the open
      one waits for more input. */
  lemma BufferStep(seen: string, chunk: string)
    ensures NonBlank(Complete(seen + chunk)) == NonBlank(Complete(seen)) + NonBlank(Complete(Open(seen) + chunk))
    ensures Open(seen + chunk) == Open(Open(seen) + chunk)
  {
    SplitContinues(seen, chunk);
    NonBlankJoins(Complete(seen), Complete(Open(seen) + chunk));
    assert Complete(seen + chunk) == Complete(seen) + Complete(Open(seen) + chunk);
  }

  lemma {:induction false} ConcatJoins(a: seq<string>, b: seq<string>)
    ensures Concat(a + b) == Concat(a) + Concat(b)
  {
    if a == [] {
      assert a + b == b;
    } else {
      assert (a + b)[1..] == a[1..] + b;
      ConcatJoins(a[1..], b);
    }
  }

  /** What more text adds to the requests of the complete lines so far. */
  lemma RequestsContinue(seen: string, more: string)
    ensures Requests(seen + more) == NonBlank(Complete(seen)) + Requests(Open(seen) + more)
  {
    SplitContinues(seen, more);
    NonBlankJoins(Complete(seen), Split(Open(seen) + more));
  }

  /** The end of the input: the open piece is the last line. */
  lemma LastLine(seen: string, flush: string)
    requires '\n' !in flush
    ensures Requests(seen + flush) == NonBlank(Complete(seen)) + NonBlank([Open(seen) + flush])
  {
    SplitContinues(seen, flush);
    SplitOfLine(Open(seen) + flush);
    NonBlankJoins(Complete(seen), [Open(seen) + flush]);
  }

  /** The framing loop, handing each non-blank line over as soon as it is
      complete. `flush` is what the decoder still emits at the end of input. The
      result does not depend on how the text was divided into chunks. */
  method Frame(chunks: seq<string>, flush: string) returns (handed: seq<string>)
    requires '\n' !in flush
    ensures handed == Requests(Concat(chunks) + flush)
  {
    handed := [];
    var inputBuffer := "";
    for i := 0 to |chunks|
      invariant handed == NonBlank(Complete(Concat(chunks[..i])))
      invariant inputBuffer == Open(Concat(chunks[..i]))
    {
      assert chunks[..i + 1] == chunks[..i] + [chunks[i]];
      ConcatAppend(chunks[..i], chunks[i]);
      BufferStep(Concat(chunks[..i]), chunks[i]);
      handed, inputBuffer := HandOver(handed, inputBuffer + chunks[i]);
    }
    assert chunks[..|chunks|] == chunks;
    LastLine(Concat(chunks), flush);
    if !Blank(inputBuffer + flush) { handed := handed + [inputBuffer + flush]; }
  }

  method HandOver(handed: seq<string>, inputBuffer: string) returns (more: seq<string>, rest: string)
    ensures more == handed + NonBlank(Complete(inputBuffer)) && rest == Open(inputBuffer)
  {
    var lines := Split(inputBuffer);
    more, rest := handed, lines[|lines| - 1];
    var last := |lines| - 1;
    for j := 0 to last
      invariant more == handed + NonBlank(lines[..j])
    {
      assert lines[..j + 1] == lines[..j] + [lines[j]];
      NonBlankJoins(lines[..j], [lines[j]]);
      if !Blank(lines[j]) { more := more + [lines[j]]; }
    }
  }
}
