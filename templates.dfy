/**
 * The four block envelopes of lmpack/lm_packer.py, as `safe_substitute` fills them: each field
 * value is inserted verbatim between fixed text. `Parse` is an independent reader of the
 * envelopes; `ParseRender` shows every field can be read back from the rendered block when
 * neither the path nor the syntax label holds a line break.
 */
module Templates {
  import opened Wrappers
  import opened Strings

  const FILE_START: string := "--- FILE START ---"
  const FILE_END: string := "--- FILE END ---"

  /** Text shared by all four envelopes before the display path. */
  const HEAD: string := "\n" + FILE_START + "\nPath: "
  /** Text shared by all four envelopes after the type-specific body. */
  const TAIL: string := FILE_END + "\n"

  const FENCE: string := "```"
  /** The line break before the closing fence, the fence, and its line break. */
  const CLOSE: string := "\n" + FENCE + "\n"
  const SKIPPED: string := "(Content Skipped)\n"
  const SIZE_LABEL: string := "Size: "
  const SIZE_UNIT: string := " bytes\n(Binary content)\n"
  const ERROR_LABEL: string := "Error reading file: "

  /** One block, with the values its template is filled with. */
  datatype Block =
    | Full(path: string, syntax: string, content: string)   // DEFAULT_FILE_TEMPLATE
    | NoContent(path: string)                               // DEFAULT_FILE_NO_CONTENT_TEMPLATE
    | Binary(path: string, size: nat)                       // DEFAULT_FILE_BINARY_CONTENT_TEMPLATE
    | Failed(path: string, error: string)                   // DEFAULT_FILE_ERROR_TEMPLATE

  /** The lines between the `Path:` line and the end marker. */
  function Body(b: Block): string
  {
    match b
    case Full(_, syntax, content) => FENCE + syntax + "\n" + content + CLOSE
    case NoContent(_) => SKIPPED
    case Binary(_, size) => SIZE_LABEL + NatToString(size) + SIZE_UNIT
    case Failed(_, error) => ERROR_LABEL + error + "\n"
  }

  /** The text `safe_substitute` produces for `b`: the shared envelope around its path line and body. */
  function Render(b: Block): (r: string)
    ensures StartsWith(r, HEAD) && EndsWith(r, TAIL)
    ensures |r| == |HEAD| + |b.path| + 1 + |Body(b)| + |TAIL|
    ensures r[|HEAD|..|r| - |TAIL|] == b.path + "\n" + Body(b)
  {
    var inner := b.path + "\n" + Body(b);
    Sandwich(HEAD, inner, TAIL);
    HEAD + inner + TAIL
  }

  /** A block whose fields can be told apart: no line break inside the single-line fields. */
  predicate WellFormed(b: Block)
  {
    '\n' !in b.path && (b.Full? ==> '\n' !in b.syntax)
  }

  /** Reads a block back: the envelope, the path line, then whichever body matches. */
  function Parse(s: string): (r: Option<Block>)
    ensures r.Some? ==> StartsWith(s, HEAD) && EndsWith(s, TAIL)
  {
    if |s| < |HEAD| + |TAIL| || !StartsWith(s, HEAD) || !EndsWith(s, TAIL) then None
    else
      var inner := s[|HEAD|..|s| - |TAIL|];
      match IndexOf(inner, '\n')
      case None => None
      case Some(k) => ParseBody(inner[..k], inner[k + 1..])
  }

  function ParseBody(path: string, body: string): Option<Block>
  {
    if StartsWith(body, FENCE) then
      var rest := body[|FENCE|..];
      match IndexOf(rest, '\n')
      case None => None
      case Some(j) =>
        var t := rest[j + 1..];
        if EndsWith(t, CLOSE) then Some(Full(path, rest[..j], t[..|t| - |CLOSE|])) else None
    else if body == SKIPPED then Some(NoContent(path))
    else if StartsWith(body, SIZE_LABEL) && EndsWith(body, SIZE_UNIT) && |body| >= |SIZE_LABEL| + |SIZE_UNIT| then
      match ParseNat(body[|SIZE_LABEL|..|body| - |SIZE_UNIT|])
      case None => None
      case Some(n) => Some(Binary(path, n))
    else if StartsWith(body, ERROR_LABEL) && EndsWith(body, "\n") && |body| >= |ERROR_LABEL| + 1 then
      Some(Failed(path, body[|ERROR_LABEL|..|body| - 1]))
    else None
  }

  lemma ParseBodyFull(path: string, syntax: string, content: string)
    requires '\n' !in syntax
    ensures ParseBody(path, Body(Full(path, syntax, content))) == Some(Full(path, syntax, content))
  {
    var tail := content + CLOSE;
    var rest := syntax + "\n" + tail;
    var body := FENCE + rest;
    assert Body(Full(path, syntax, content)) == body;
    SplitConcat(FENCE, rest);
    IndexOfAfter(syntax, '\n', tail);
    assert rest[..|syntax|] == syntax;
    assert rest[|syntax| + 1..] == tail;
    SplitConcat(content, CLOSE);
  }

  lemma ParseBodyBinary(path: string, size: nat)
    ensures ParseBody(path, Body(Binary(path, size))) == Some(Binary(path, size))
  {
    var digits := NatToString(size);
    var body := SIZE_LABEL + digits + SIZE_UNIT;
    assert Body(Binary(path, size)) == body;
    assert body[0] == 'S';
    assert !StartsWith(body, FENCE);
    assert body != SKIPPED;
    Sandwich(SIZE_LABEL, digits, SIZE_UNIT);
    ParseNatToString(size);
  }

  lemma ParseBodyFailed(path: string, error: string)
    ensures ParseBody(path, Body(Failed(path, error))) == Some(Failed(path, error))
  {
    var body := ERROR_LABEL + error + "\n";
    assert Body(Failed(path, error)) == body;
    assert body[0] == 'E';
    assert !StartsWith(body, FENCE);
    assert body != SKIPPED;
    assert !StartsWith(body, SIZE_LABEL);
    Sandwich(ERROR_LABEL, error, "\n");
  }

  lemma ParseBodyRender(b: Block)
    requires WellFormed(b)
    ensures ParseBody(b.path, Body(b)) == Some(b)
  {
    match b
    case Full(path, syntax, content) => ParseBodyFull(path, syntax, content);
    case NoContent(path) =>
      assert SKIPPED[0] == '(';
      assert !StartsWith(SKIPPED, FENCE);
    case Binary(path, size) => ParseBodyBinary(path, size);
    case Failed(path, error) => ParseBodyFailed(path, error);
  }

  /** Every field of a well-formed block is inserted verbatim: reading the block back gives it. */
  lemma ParseRender(b: Block)
    requires WellFormed(b)
    ensures Parse(Render(b)) == Some(b)
  {
    var body := Body(b);
    var middle := b.path + "\n" + body;
    var s := Render(b);
    IndexOfAfter(b.path, '\n', body);
    assert middle[..|b.path|] == b.path;
    assert middle[|b.path| + 1..] == body;
    assert Parse(s) == ParseBody(b.path, body);
    ParseBodyRender(b);
  }

  lemma SplitConcat(a: string, b: string)
    ensures StartsWith(a + b, a) && EndsWith(a + b, b)
    ensures (a + b)[..|a|] == a && (a + b)[|a|..] == b
  {
  }

  lemma Sandwich(a: string, m: string, c: string)
    ensures var s := a + m + c;
      StartsWith(s, a) && EndsWith(s, c) && s[|a|..|s| - |c|] == m
  {
    var s := a + m + c;
    assert s[..|a|] == a;
    assert s[|s| - |c|..] == c;
    assert s[|a|..|s| - |c|] == m;
  }

  /** Different well-formed blocks never render to the same text. */
  lemma RenderInjective(a: Block, b: Block)
    requires WellFormed(a) && WellFormed(b)
    requires Render(a) == Render(b)
    ensures a == b
  {
    ParseRender(a);
    ParseRender(b);
  }
}
