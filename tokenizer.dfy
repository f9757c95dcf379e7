/**
 * `parseCode` of js/main.js as the source runs it: a loop over the lines of
 * the code and, inside it, a `while` loop over the characters of a line
 * that updates `i`, `currentToken`, `inString`, `stringChar` and `inTag`
 * and pushes onto `lineTokens`. Each method is proved to compute its
 * specification function in module Tokens.
 */
module Tokenizer {
  import opened CharClasses
  import opened Tokens

  /** The tokens of one line that is not blank (the body of the `forEach` after the blank-line test). */
  method TokenizeLine(line: string) returns (lineTokens: seq<Token>)
    ensures lineTokens == LineTokens(line)
  {
    lineTokens := [];
    var i: nat := 0;
    var currentToken := "";
    var inString := false;
    var stringChar := "";
    var inTag := false;
    while i < |line|
      invariant i <= |line|
      invariant Scan(line, Scanner(i, currentToken, inString, stringChar, inTag, lineTokens)) == Scan(line, Start)
    {
      ghost var before := Scanner(i, currentToken, inString, stringChar, inTag, lineTokens);
      var c := line[i];
      var hasNext := i + 1 < |line|;
      if IsQuote(c) && !inTag {
        // strings
        if !inString {
          if currentToken != "" {
            lineTokens := lineTokens + [Token(Text, currentToken)];
            currentToken := "";
          }
          inString := true;
          stringChar := [c];
          lineTokens := lineTokens + [Token(Str, [c])];
        } else if [c] == stringChar && !(i > 0 && line[i - 1] == '\\') {
          lineTokens := lineTokens + [Token(Str, [c])];
          inString := false;
          stringChar := "";
        } else {
          lineTokens := lineTokens + [Token(Str, [c])];
        }
        i := i + 1;
      } else if inString {
        lineTokens := lineTokens + [Token(Str, [c])];
        i := i + 1;
      } else if c == '<' && hasNext && IsLetter(line[i + 1]) {
        // opening of a JSX tag
        if currentToken != "" {
          lineTokens := lineTokens + [Token(Text, currentToken)];
          currentToken := "";
        }
        inTag := true;
        lineTokens := lineTokens + [Token(Tag, [c])];
        i := i + 1;
      } else if inTag {
        if c == '>' || (c == '/' && hasNext && line[i + 1] == '>') {
          lineTokens := lineTokens + [Token(Tag, [c])];
          inTag := false;
        } else {
          lineTokens := lineTokens + [Token(Tag, [c])];
        }
        i := i + 1;
      } else {
        // the `^(\w+)` match shared by the keyword, function and parameter tests
        var word := WordPrefix(line[i..]);
        var kind := WordKind(line, i);
        if kind == Text {
          currentToken := currentToken + [c];
          i := i + 1;
        } else {
          if currentToken != "" {
            lineTokens := lineTokens + [Token(Text, currentToken)];
            currentToken := "";
          }
          lineTokens := lineTokens + [Token(kind, word)];
          i := i + |word|;
        }
        assert Scanner(i, currentToken, inString, stringChar, inTag, lineTokens) == CodeStep(line, before);
      }
      assert Scanner(i, currentToken, inString, stringChar, inTag, lineTokens) == Step(line, before);
      ScanStep(line, before);
    }
    if currentToken != "" {
      lineTokens := lineTokens + [Token(Text, currentToken)];
    }
  }

  /** The tokens of the first `n + 1` lines: those of the first `n`, then the output of line `n`. */
  lemma {:induction false} TokensUpToNext(lines: seq<string>, toks: seq<seq<Token>>, n: nat, out: seq<Token>)
    requires |toks| == |lines| && n < |lines| && out == LineOutput(lines, n, toks[n])
    ensures TokensUpTo(lines, toks, n + 1) == TokensUpTo(lines, toks, n) + out
  {
  }

  /** `parseCode(code)`: the tokens of every line, with the newline tokens between lines. */
  method ParseCode(code: string) returns (tokens: seq<Token>)
    ensures tokens == CodeTokens(code)
  {
    var lines := SplitLines(code);
    ghost var toks := AllLineTokens(lines);
    tokens := [];
    var lineIndex := 0;
    while lineIndex < |lines|
      invariant lineIndex <= |lines|
      invariant tokens == TokensUpTo(lines, toks, lineIndex)
    {
      var line := lines[lineIndex];
      var lineOutput;
      if IsBlank(line) {
        lineOutput := [NewlineToken];
      } else {
        lineOutput := TokenizeLine(line);
        assert lineOutput == toks[lineIndex];
        if lineIndex < |lines| - 1 {
          lineOutput := lineOutput + [NewlineToken];
        }
      }
      assert lineOutput == LineOutput(lines, lineIndex, toks[lineIndex]);
      TokensUpToNext(lines, toks, lineIndex, lineOutput);
      tokens := tokens + lineOutput;
      lineIndex := lineIndex + 1;
    }
  }
}
