/**
 * The syntax-highlighting tokenizer `parseCode` of js/main.js, as a
 * specification: one iteration of its scanning loop is `Step`, the whole
 * loop over one line is `Scan`, and the tokens of a line are `LineTokens`.
 * The methods in module Tokenizer run the same loop imperatively and are
 * proved to compute these functions.
 */
module Tokens {
  import opened CharClasses

  /** The `type` field of a token object. */
  datatype Kind = Text | Str | Tag | Keyword | TypeName | FunctionName | Param | Newline

  /** A token object `{ type, value }`. */
  datatype Token = Token(kind: Kind, value: string)

  const NewlineToken := Token(Newline, "\n")

  /**
   * The loop variables of the line scanner: the index `i`, the text
   * gathered so far in `currentToken`, the string and tag modes with the
   * quote that opened the string (`""` outside a string), and the tokens
   * pushed so far onto `lineTokens`.
   */
  datatype Scanner = Scanner(pos: nat, current: string, inString: bool, stringChar: string, inTag: bool, out: seq<Token>)

  /** The state in which every line starts: string and tag modes reset. */
  const Start := Scanner(0, "", false, "", false, [])

  /** Push `currentToken` as a text token, if it is not empty, and clear it. */
  function Flush(s: Scanner): (r: Scanner)
    ensures r.current == [] && r.pos == s.pos
    ensures r.out == s.out + (if s.current == [] then [] else [Token(Text, s.current)])
  {
    if s.current == [] then s
    else s.(current := [], out := s.out + [Token(Text, s.current)])
  }

  /** A token at the index: flush the text before it, push it and move past its value. */
  function Emit(s: Scanner, kind: Kind, value: string): Scanner {
    var f := Flush(s);
    f.(pos := s.pos + |value|, out := f.out + [Token(kind, value)])
  }

  /** One iteration of the scanning loop over `line`, at index `s.pos`. */
  function Step(line: string, s: Scanner): (r: Scanner)
    requires s.pos < |line|
    ensures s.pos < r.pos <= |line|
  {
    var c := line[s.pos];
    var hasNext := s.pos + 1 < |line|;
    if IsQuote(c) && !s.inTag then
      if !s.inString then
        Emit(s, Str, [c]).(inString := true, stringChar := [c])
      else if [c] == s.stringChar && !(s.pos > 0 && line[s.pos - 1] == '\\') then
        s.(pos := s.pos + 1, out := s.out + [Token(Str, [c])], inString := false, stringChar := "")
      else
        s.(pos := s.pos + 1, out := s.out + [Token(Str, [c])])
    else if s.inString then
      s.(pos := s.pos + 1, out := s.out + [Token(Str, [c])])
    else if c == '<' && hasNext && IsLetter(line[s.pos + 1]) then
      Emit(s, Tag, [c]).(inTag := true)
    else if s.inTag then
      if c == '>' || (c == '/' && hasNext && line[s.pos + 1] == '>') then
        s.(pos := s.pos + 1, out := s.out + [Token(Tag, [c])], inTag := false)
      else
        s.(pos := s.pos + 1, out := s.out + [Token(Tag, [c])])
    else
      CodeStep(line, s)
  }

  /**
   * The kind the `^(\w+)` match at index `i` gets outside strings and tags,
   * from the tests in source order: a listed keyword; a name starting with
   * a capital after a type alias or a colon; a name after `function`; a
   * name after `async function`; a name inside an unclosed parenthesis.
   * `Text` when none of them applies.
   */
  function WordKind(line: string, i: nat): (r: Kind)
    requires i < |line|
    ensures r == Keyword <==> WordPrefix(line[i..]) in Keywords
    ensures r != Text ==> IsWordRun(WordPrefix(line[i..]))
  {
    KeywordsNonEmpty();
    var word := WordPrefix(line[i..]);
    if word != [] && word in Keywords then Keyword
    else if TypeWindow(Window(line, i, 10)) && IsUpper(line[i]) then TypeName
    else if FunctionWindow(Window(line, i, 20)) && word != [] then FunctionName
    else if AsyncFunctionWindow(Window(line, i, 10)) && word != [] && word !in Keywords then FunctionName
    else if ParamWindow(Window(line, i, 20)) && word != [] && word !in Keywords then Param
    else Text
  }

  /**
   * One iteration outside strings and tags: the `^(\w+)` match becomes a
   * token when `WordKind` gives it a kind, otherwise the character is
   * added to the pending text.
   */
  function CodeStep(line: string, s: Scanner): (r: Scanner)
    requires s.pos < |line|
    ensures s.pos < r.pos <= |line|
    ensures r.inString == s.inString && r.inTag == s.inTag && r.stringChar == s.stringChar
  {
    var kind := WordKind(line, s.pos);
    if kind == Text then s.(pos := s.pos + 1, current := s.current + [line[s.pos]])
    else Emit(s, kind, WordPrefix(line[s.pos..]))
  }

  /** The scanning loop, run from `s` to the end of the line. */
  function Scan(line: string, s: Scanner): (r: Scanner)
    requires s.pos <= |line|
    ensures r.pos == |line|
    decreases |line| - s.pos, 1
  {
    if s.pos == |line| then s else ScanOn(line, s)
  }

  /** One iteration of the scanning loop, then the rest of the loop. */
  function ScanOn(line: string, s: Scanner): (r: Scanner)
    requires s.pos < |line|
    ensures r.pos == |line|
    decreases |line| - s.pos, 0
  {
    Scan(line, Step(line, s))
  }

  /** Scanning from a state is scanning from the state one iteration leads to. */
  lemma {:induction false} ScanStep(line: string, s: Scanner)
    requires s.pos < |line|
    ensures Scan(line, s) == Scan(line, Step(line, s))
  {
  }

  /** The tokens of one line: the loop from the start state, then the final text flushed. */
  function LineTokens(line: string): seq<Token> {
    Flush(Scan(line, Start)).out
  }

  /** Concatenation of the values of `ts`, in order. */
  function Render(ts: seq<Token>): string {
    if ts == [] then [] else Render(ts[..|ts| - 1]) + ts[|ts| - 1].value
  }

  /** `code.split('\n')`. */
  function SplitLines(code: string): (lines: seq<string>)
    ensures |lines| >= 1
  {
    if code == [] then [[]]
    else
      var rest := SplitLines(code[1..]);
      if code[0] == '\n' then [[]] + rest
      else [[code[0]] + rest[0]] + rest[1..]
  }

  /** `lines.join('\n')`. */
  function Join(lines: seq<string>): string
    requires |lines| >= 1
  {
    if |lines| == 1 then lines[0] else lines[0] + "\n" + Join(lines[1..])
  }

  /** The tokens of every line, as the body of the `forEach` computes them for a line that is not blank. */
  function AllLineTokens(lines: seq<string>): (toks: seq<seq<Token>>)
    ensures |toks| == |lines|
  {
    seq(|lines|, k requires 0 <= k < |lines| => LineTokens(lines[k]))
  }

  /**
   * The tokens `parseCode` emits for line `k`, given the tokens `ts` of
   * that line: a single newline token for a blank line, otherwise the
   * line's tokens followed by a newline token unless it is the last line.
   */
  function LineOutput(lines: seq<string>, k: nat, ts: seq<Token>): seq<Token>
    requires k < |lines|
  {
    if IsBlank(lines[k]) then [NewlineToken]
    else ts + (if k < |lines| - 1 then [NewlineToken] else [])
  }

  /** The tokens of the first `n` lines, line `k` having the tokens `toks[k]`. */
  function TokensUpTo(lines: seq<string>, toks: seq<seq<Token>>, n: nat): seq<Token>
    requires |toks| == |lines| && n <= |lines|
  {
    if n == 0 then [] else TokensUpTo(lines, toks, n - 1) + LineOutput(lines, n - 1, toks[n - 1])
  }

  /** `parseCode(code)`. */
  function CodeTokens(code: string): seq<Token> {
    var lines := SplitLines(code);
    TokensUpTo(lines, AllLineTokens(lines), |lines|)
  }
}
