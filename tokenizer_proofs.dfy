/**
 * What the tokenizer of js/main.js guarantees about the tokens of one
 * line: their values concatenate back to the line, each token has the
 * shape its kind promises, string literals and JSX tags become runs of
 * one-character tokens, and the async-function branch can never fire.
 */
module TokenizerProofs {
  import opened CharClasses
  import opened Tokens

  /** The shape a token of each kind has inside a line. */
  ghost predicate Shaped(t: Token) {
    match t.kind
    case Text => t.value != []
    case Str => |t.value| == 1
    case Tag => |t.value| == 1
    case Keyword => t.value in Keywords
    case TypeName => IsWordRun(t.value) && IsUpper(t.value[0])
    case FunctionName => IsWordRun(t.value) && t.value !in Keywords
    case Param => IsWordRun(t.value) && t.value !in Keywords
    case Newline => false
  }

  /** Every token is shaped, and no two text tokens are adjacent. */
  ghost predicate WellShaped(ts: seq<Token>) {
    && (forall k :: 0 <= k < |ts| ==> Shaped(ts[k]))
    && (forall k :: 0 < k < |ts| ==> ts[k - 1].kind != Text || ts[k].kind != Text)
  }

  /** What holds of the tokens pushed and the text gathered after the first `pos` characters. */
  ghost predicate Consistent(line: string, pos: nat, current: string, out: seq<Token>) {
    && pos <= |line|
    && Render(out) + current == line[..pos]
    && WellShaped(out)
    && (out != [] ==> out[|out| - 1].kind != Text)
  }

  /** The loop invariant of the line scanner. */
  ghost predicate Inv(line: string, s: Scanner) {
    && Consistent(line, s.pos, s.current, s.out)
    && ((s.inString || s.inTag) ==> s.current == [])
  }

  lemma {:induction false} RenderSnoc(ts: seq<Token>, t: Token)
    ensures Render(ts + [t]) == Render(ts) + t.value
  {
    assert (ts + [t])[..|ts|] == ts;
  }

  /** Rendering distributes over concatenation. */
  lemma {:induction false} RenderAppend(a: seq<Token>, b: seq<Token>)
    ensures Render(a + b) == Render(a) + Render(b)
    decreases |b|
  {
    if b != [] {
      var b' := b[..|b| - 1];
      assert a + b == (a + b') + [b[|b| - 1]];
      RenderSnoc(a + b', b[|b| - 1]);
      RenderAppend(a, b');
      RenderSnoc(b', b[|b| - 1]);
      assert b' + [b[|b| - 1]] == b;
    } else {
      assert a + b == a;
    }
  }

  /**
   * Pushing the pending text loses no character: the emitted tokens and
   * the pending text render as before, and what is pushed is one text
   * token with a non-empty value.
   */
  lemma {:induction false} FlushKeepsText(s: Scanner)
    ensures Render(Flush(s).out) + Flush(s).current == Render(s.out) + s.current
    ensures Flush(s).out[..|s.out|] == s.out && |Flush(s).out| <= |s.out| + 1
    ensures |Flush(s).out| == |s.out| + 1 ==>
      Flush(s).out[|s.out|].kind == Text && Flush(s).out[|s.out|].value != []
  {
    if s.current != [] {
      RenderSnoc(s.out, Token(Text, s.current));
    }
  }

  /** Emitting a non-text token that covers the next characters keeps the scanner consistent. */
  lemma {:induction false} EmitKeepsConsistent(line: string, s: Scanner, kind: Kind, value: string)
    requires Consistent(line, s.pos, s.current, s.out)
    requires s.pos + |value| <= |line| && value == line[s.pos..s.pos + |value|]
    requires kind != Text && Shaped(Token(kind, value))
    ensures Consistent(line, s.pos + |value|, [], Flush(s).out + [Token(kind, value)])
  {
    var f := Flush(s);
    if s.current != [] {
      RenderSnoc(s.out, Token(Text, s.current));
    }
    assert Render(f.out) == line[..s.pos];
    RenderSnoc(f.out, Token(kind, value));
    assert line[..s.pos] + value == line[..s.pos + |value|];
  }

  /** The `^(\w+)` match at index `i` is the text of the line from `i` on. */
  lemma {:induction false} WordAt(line: string, i: nat)
    requires i < |line|
    ensures var w := WordPrefix(line[i..]);
      i + |w| <= |line| && w == line[i..i + |w|] && (IsWord(line[i]) ==> w != [] && w[0] == line[i])
  {
    var w := WordPrefix(line[i..]);
    assert line[i..][..|w|] == line[i..i + |w|];
  }

  /**
   * The keyword test runs first on the same `^(\w+)` match, so a token
   * that `WordKind` classifies is a keyword exactly when it is a listed
   * keyword, and type, function and parameter names are never keywords.
   */
  lemma {:induction false} WordKindShaped(line: string, i: nat)
    requires i < |line|
    ensures var kind := WordKind(line, i);
      kind != Text ==> kind in {Keyword, TypeName, FunctionName, Param} && Shaped(Token(kind, WordPrefix(line[i..])))
  {
    var word := WordPrefix(line[i..]);
    WordAt(line, i);
  }

  /** Adding the character at the index to the pending text keeps the invariant. */
  lemma {:induction false} AppendKeepsInv(line: string, s: Scanner)
    requires Inv(line, s) && s.pos < |line| && !s.inString && !s.inTag
    ensures Inv(line, s.(pos := s.pos + 1, current := s.current + [line[s.pos]]))
  {
    assert line[..s.pos + 1] == line[..s.pos] + [line[s.pos]];
  }

  /** Emitting the `^(\w+)` match at the index as a classified token keeps the invariant. */
  lemma {:induction false} EmitWordKeepsInv(line: string, s: Scanner, kind: Kind)
    requires Inv(line, s) && s.pos < |line|
    requires kind != Text && Shaped(Token(kind, WordPrefix(line[s.pos..])))
    ensures Inv(line, Emit(s, kind, WordPrefix(line[s.pos..])))
  {
    WordAt(line, s.pos);
    EmitKeepsConsistent(line, s, kind, WordPrefix(line[s.pos..]));
  }

  /** Emitting the character at the index as a one-character token keeps the invariant, whatever the modes become. */
  lemma {:induction false} CharKeepsInv(line: string, s: Scanner, r: Scanner, kind: Kind)
    requires Inv(line, s) && s.pos < |line| && kind in {Str, Tag}
    requires r.pos == s.pos + 1 && r.current == [] && r.out == Flush(s).out + [Token(kind, [line[s.pos]])]
    ensures Inv(line, r)
  {
    assert [line[s.pos]] == line[s.pos..s.pos + 1];
    EmitKeepsConsistent(line, s, kind, [line[s.pos]]);
  }

  /** An iteration outside strings and tags keeps the invariant. */
  lemma {:induction false} CodeStepKeepsInv(line: string, s: Scanner)
    requires Inv(line, s) && s.pos < |line| && !s.inString && !s.inTag
    ensures Inv(line, CodeStep(line, s))
  {
    var kind := WordKind(line, s.pos);
    if kind == Text {
      AppendKeepsInv(line, s);
    } else {
      WordKindShaped(line, s.pos);
      EmitWordKeepsInv(line, s, kind);
    }
  }

  /** One iteration of the loop keeps the invariant. */
  lemma {:induction false} StepKeepsInv(line: string, s: Scanner)
    requires Inv(line, s) && s.pos < |line|
    ensures Inv(line, Step(line, s))
  {
    StepResultKeepsInv(line, s, Step(line, s));
  }

  /** The state `r` one iteration leads to satisfies the invariant, branch by branch of the loop body. */
  lemma {:induction false} StepResultKeepsInv(line: string, s: Scanner, r: Scanner)
    requires Inv(line, s) && s.pos < |line| && r == Step(line, s)
    ensures Inv(line, r)
  {
    var c := line[s.pos];
    if (IsQuote(c) && !s.inTag) || s.inString {
      CharKeepsInv(line, s, r, Str);
    } else if c == '<' && s.pos + 1 < |line| && IsLetter(line[s.pos + 1]) {
      CharKeepsInv(line, s, r, Tag);
    } else if s.inTag {
      CharKeepsInv(line, s, r, Tag);
    } else {
      CodeStepKeepsInv(line, s);
    }
  }

  /** The whole loop keeps the invariant. */
  lemma {:induction false} ScanKeepsInv(line: string, s: Scanner)
    requires Inv(line, s)
    ensures Inv(line, Scan(line, s))
    decreases |line| - s.pos
  {
    if s.pos < |line| {
      StepKeepsInv(line, s);
      ScanKeepsInv(line, Step(line, s));
    }
  }

  lemma {:induction false} LineTokensSound(line: string)
    ensures Render(LineTokens(line)) == line && WellShaped(LineTokens(line))
  {
    var s := Scan(line, Start);
    ScanKeepsInv(line, Start);
    assert line[..|line|] == line;
    if s.current != [] {
      RenderSnoc(s.out, Token(Text, s.current));
    }
  }

  /** Round trip: the values of a line's tokens concatenate back to the line. */
  lemma {:induction false} LineRoundTrip(line: string)
    ensures Render(LineTokens(line)) == line
  {
    LineTokensSound(line);
  }

  /**
   * Every token of a line has the shape of its kind: text tokens are not
   * empty and never adjacent, string and tag tokens hold one character,
   * keyword tokens are listed keywords, and type, function and parameter
   * names are word runs that are not keywords.
   */
  lemma {:induction false} LineTokensShape(line: string)
    ensures forall k :: 0 <= k < |LineTokens(line)| ==> Shaped(LineTokens(line)[k])
    ensures forall k :: 0 < k < |LineTokens(line)| ==>
      LineTokens(line)[k - 1].kind != Text || LineTokens(line)[k].kind != Text
  {
    LineTokensSound(line);
  }

  /** A line's tokens never include a newline token. */
  lemma {:induction false} LineTokensHaveNoNewline(line: string)
    ensures forall k :: 0 <= k < |LineTokens(line)| ==> LineTokens(line)[k].kind != Newline
  {
    LineTokensSound(line);
  }

  // ----- string literals and tags -----

  /** One token of the given kind per character of `t`. */
  function CharTokens(kind: Kind, t: string): (ts: seq<Token>)
    ensures |ts| == |t|
  {
    if t == [] then [] else [Token(kind, [t[0]])] + CharTokens(kind, t[1..])
  }

  /** Pushing the first character's token and then the rest's is pushing the tokens of all of `t`. */
  lemma {:induction false} PushCharTokens(out: seq<Token>, kind: Kind, t: string)
    requires t != []
    ensures out + [Token(kind, [t[0]])] + CharTokens(kind, t[1..]) == out + CharTokens(kind, t)
  {
    var head := [Token(kind, [t[0]])];
    var rest := CharTokens(kind, t[1..]);
    assert CharTokens(kind, t) == head + rest;
    assert out + head + rest == out + (head + rest);
  }

  /** The quote at index `j` closes a string entered with `q`: it is `q` and no backslash precedes it. */
  predicate ClosesString(line: string, j: nat, q: char)
    requires j < |line|
  {
    line[j] == q && !(j > 0 && line[j - 1] == '\\')
  }

  /** The first index from `p` on that closes a string entered with `q`, or the end of the line. */
  function StringEnd(line: string, p: nat, q: char): (j: nat)
    requires p <= |line|
    ensures p <= j <= |line|
    ensures forall k :: p <= k < j ==> !ClosesString(line, k, q)
    ensures j < |line| ==> ClosesString(line, j, q)
    decreases |line| - p
  {
    if p == |line| || ClosesString(line, p, q) then p else StringEnd(line, p + 1, q)
  }

  /** One iteration in string mode pushes the character as a string token and closes the string on its quote. */
  lemma {:induction false} StepInString(line: string, s: Scanner)
    requires s.pos < |line| && s.inString && !s.inTag
    requires |s.stringChar| == 1 && IsQuote(s.stringChar[0])
    ensures Step(line, s) ==
      if ClosesString(line, s.pos, s.stringChar[0])
      then s.(pos := s.pos + 1, out := s.out + [Token(Str, [line[s.pos]])], inString := false, stringChar := "")
      else s.(pos := s.pos + 1, out := s.out + [Token(Str, [line[s.pos]])])
  {
  }

  /**
   * Where string mode leaves the scanner: past the closing quote with the
   * characters up to it pushed as string tokens, or at the end of the line
   * still in string mode when no quote closes it.
   */
  ghost function AfterString(line: string, s: Scanner): Scanner
    requires s.pos <= |line| && |s.stringChar| == 1
  {
    var j := StringEnd(line, s.pos, s.stringChar[0]);
    var e := if j < |line| then j + 1 else |line|;
    s.(pos := e, out := s.out + CharTokens(Str, line[s.pos..e]),
       inString := j == |line|, stringChar := if j < |line| then "" else s.stringChar)
  }

  /** A character that does not close the string leaves the end of the string where it was. */
  lemma {:induction false} AfterStringSkips(line: string, s: Scanner)
    requires s.pos < |line| && |s.stringChar| == 1 && s.inString
    requires !ClosesString(line, s.pos, s.stringChar[0])
    ensures AfterString(line, s.(pos := s.pos + 1, out := s.out + [Token(Str, [line[s.pos]])])) == AfterString(line, s)
  {
    var q := s.stringChar[0];
    var j := StringEnd(line, s.pos, q);
    assert StringEnd(line, s.pos + 1, q) == j;
    var e := if j < |line| then j + 1 else |line|;
    assert line[s.pos..e][1..] == line[s.pos + 1..e];
    PushCharTokens(s.out, Str, line[s.pos..e]);
  }

  /** A closing quote is the last character of the string. */
  lemma {:induction false} AfterStringCloses(line: string, s: Scanner)
    requires s.pos < |line| && |s.stringChar| == 1
    requires ClosesString(line, s.pos, s.stringChar[0])
    ensures AfterString(line, s) == s.(pos := s.pos + 1, out := s.out + [Token(Str, [line[s.pos]])], inString := false, stringChar := "")
  {
    assert line[s.pos..s.pos + 1] == [line[s.pos]];
    assert CharTokens(Str, [line[s.pos]]) == [Token(Str, [line[s.pos]])];
  }

  /**
   * In string mode every character, the other quote kind and `<` included,
   * becomes a one-character string token, up to and including the first
   * quote equal to `stringChar` that no backslash precedes, which ends
   * string mode; without one, the line ends in string mode.
   */
  lemma {:induction false} StringRun(line: string, s: Scanner)
    requires s.pos <= |line| && s.inString && !s.inTag
    requires |s.stringChar| == 1 && IsQuote(s.stringChar[0])
    ensures Scan(line, s) == Scan(line, AfterString(line, s))
    decreases |line| - s.pos
  {
    if s.pos == |line| {
      assert s.out + CharTokens(Str, line[s.pos..]) == s.out;
    } else {
      StepInString(line, s);
      ScanStep(line, s);
      if ClosesString(line, s.pos, s.stringChar[0]) {
        AfterStringCloses(line, s);
      } else {
        var s' := s.(pos := s.pos + 1, out := s.out + [Token(Str, [line[s.pos]])]);
        StringRun(line, s');
        AfterStringSkips(line, s);
      }
    }
  }

  /** Scanning from a state is scanning from the state its first step leads to. */
  lemma {:induction false} ScanThrough(line: string, s: Scanner, next: Scanner, target: Scanner)
    requires s.pos < |line| && Step(line, s) == next
    requires next.pos <= |line| && target.pos <= |line| && Scan(line, next) == Scan(line, target)
    ensures Scan(line, s) == Scan(line, target)
  {
  }

  /** Outside a tag and a string, a quote flushes the pending text, is pushed as a string token and opens string mode. */
  lemma {:induction false} StepOpensString(line: string, s: Scanner)
    requires s.pos < |line| && !s.inString && !s.inTag && IsQuote(line[s.pos])
    ensures Step(line, s) == Emit(s, Str, [line[s.pos]]).(inString := true, stringChar := [line[s.pos]])
    ensures Scan(line, s) == Scan(line, Step(line, s))
  {
    ScanStep(line, s);
  }

  /**
   * The state a string literal opened by the quote at `s.pos` leads to:
   * the pending text flushed, the characters from the opening quote up to
   * and including the closing one pushed as string tokens, and string
   * mode left; without a closing quote, the line ends in string mode.
   */
  ghost function StringExit(line: string, s: Scanner): Scanner
    requires s.pos < |line|
  {
    var j := StringEnd(line, s.pos + 1, line[s.pos]);
    var e := if j < |line| then j + 1 else |line|;
    Scanner(e, [], j == |line|, if j < |line| then "" else [line[s.pos]], s.inTag, Flush(s).out + CharTokens(Str, line[s.pos..e]))
  }

  /** String mode entered at `s.pos` ends in `StringExit`. */
  lemma {:induction false} AfterOpenedString(line: string, s: Scanner, t: Scanner)
    requires s.pos < |line| && t.pos == s.pos + 1 && t.stringChar == [line[s.pos]]
    requires t.current == [] && t.inString && t.inTag == s.inTag
    requires t.out == Flush(s).out + [Token(Str, [line[s.pos]])]
    ensures AfterString(line, t) == StringExit(line, s)
  {
    var p := s.pos;
    var j := StringEnd(line, p + 1, line[p]);
    var e := if j < |line| then j + 1 else |line|;
    var run := line[p..e];
    assert run[0] == line[p] && run[1..] == line[p + 1..e];
    PushCharTokens(Flush(s).out, Str, run);
    assert t.stringChar[0] == line[p];
    var after := AfterString(line, t);
    assert after.pos == e;
    assert after.out == t.out + CharTokens(Str, run[1..]);
  }

  /**
   * Outside a tag and a string, a quote flushes the pending text and opens
   * a string literal: from it up to the closing quote, both quotes
   * included, every character becomes a one-character string token; the
   * line ends in string mode when no quote closes it.
   */
  lemma {:induction false} StringLiteral(line: string, s: Scanner)
    requires s.pos < |line| && !s.inString && !s.inTag && IsQuote(line[s.pos])
    ensures Scan(line, s) == Scan(line, StringExit(line, s))
  {
    var q := line[s.pos];
    var entered := Emit(s, Str, [q]).(inString := true, stringChar := [q]);
    EnterString(line, s, entered);
    AfterOpenedString(line, s, entered);
  }

  /** Scanning from an opening quote is scanning from the end of the string it opens. */
  lemma {:induction false} EnterString(line: string, s: Scanner, entered: Scanner)
    requires s.pos < |line| && !s.inString && !s.inTag && IsQuote(line[s.pos])
    requires entered == Emit(s, Str, [line[s.pos]]).(inString := true, stringChar := [line[s.pos]])
    ensures Scan(line, s) == Scan(line, AfterString(line, entered))
  {
    StepOpensString(line, s);
    StringRun(line, entered);
  }

  /** The character at index `j` ends a tag: `>`, or `/` followed by `>`. */
  predicate ClosesTag(line: string, j: nat)
    requires j < |line|
  {
    line[j] == '>' || (line[j] == '/' && j + 1 < |line| && line[j + 1] == '>')
  }

  /** The first index from `p` on that ends a tag, or the end of the line. */
  function TagEnd(line: string, p: nat): (j: nat)
    requires p <= |line|
    ensures p <= j <= |line|
    ensures forall k :: p <= k < j ==> !ClosesTag(line, k)
    ensures j < |line| ==> ClosesTag(line, j)
    decreases |line| - p
  {
    if p == |line| || ClosesTag(line, p) then p else TagEnd(line, p + 1)
  }

  /** One iteration in tag mode pushes the character as a tag token and leaves the tag on `>` or `/>`. */
  lemma {:induction false} StepInTag(line: string, s: Scanner)
    requires s.pos < |line| && s.inTag && !s.inString && s.current == []
    ensures Step(line, s) ==
      s.(pos := s.pos + 1, out := s.out + [Token(Tag, [line[s.pos]])], inTag := !ClosesTag(line, s.pos))
  {
  }

  /**
   * Where tag mode leaves the scanner: past the end of the tag with its
   * characters pushed as tag tokens, or at the end of the line still in
   * tag mode when the tag does not end on it.
   */
  ghost function AfterTag(line: string, s: Scanner): Scanner
    requires s.pos <= |line|
  {
    var j := TagEnd(line, s.pos);
    var e := if j < |line| then j + 1 else |line|;
    s.(pos := e, out := s.out + CharTokens(Tag, line[s.pos..e]), inTag := j == |line|)
  }

  /** A character that does not end the tag leaves the end of the tag where it was. */
  lemma {:induction false} AfterTagSkips(line: string, s: Scanner)
    requires s.pos < |line| && s.inTag && !ClosesTag(line, s.pos)
    ensures AfterTag(line, s.(pos := s.pos + 1, out := s.out + [Token(Tag, [line[s.pos]])])) == AfterTag(line, s)
  {
    var j := TagEnd(line, s.pos);
    assert TagEnd(line, s.pos + 1) == j;
    var e := if j < |line| then j + 1 else |line|;
    assert line[s.pos..e][1..] == line[s.pos + 1..e];
    PushCharTokens(s.out, Tag, line[s.pos..e]);
  }

  /** The character that ends the tag is its last one. */
  lemma {:induction false} AfterTagCloses(line: string, s: Scanner)
    requires s.pos < |line| && ClosesTag(line, s.pos)
    ensures AfterTag(line, s) == s.(pos := s.pos + 1, out := s.out + [Token(Tag, [line[s.pos]])], inTag := false)
  {
    assert line[s.pos..s.pos + 1] == [line[s.pos]];
    assert CharTokens(Tag, [line[s.pos]]) == [Token(Tag, [line[s.pos]])];
  }

  /**
   * In tag mode every character, quotes included, becomes a one-character
   * tag token, up to and including the first `>` or `/` before `>`, which
   * ends tag mode.
   */
  lemma {:induction false} TagRun(line: string, s: Scanner)
    requires s.pos <= |line| && s.inTag && !s.inString && s.current == []
    ensures Scan(line, s) == Scan(line, AfterTag(line, s))
    decreases |line| - s.pos
  {
    if s.pos == |line| {
      assert s.out + CharTokens(Tag, line[s.pos..]) == s.out;
    } else {
      StepInTag(line, s);
      ScanStep(line, s);
      if ClosesTag(line, s.pos) {
        AfterTagCloses(line, s);
      } else {
        var s' := s.(pos := s.pos + 1, out := s.out + [Token(Tag, [line[s.pos]])]);
        TagRun(line, s');
        AfterTagSkips(line, s);
      }
    }
  }

  /** Outside a tag and a string, `<` before a letter flushes the pending text, is pushed as a tag token and opens tag mode. */
  lemma {:induction false} StepOpensTag(line: string, s: Scanner)
    requires s.pos + 1 < |line| && !s.inString && !s.inTag
    requires line[s.pos] == '<' && IsLetter(line[s.pos + 1])
    ensures Step(line, s) == Emit(s, Tag, ['<']).(inTag := true)
    ensures Scan(line, s) == Scan(line, Step(line, s))
  {
    ScanStep(line, s);
  }

  /**
   * The state a tag opened by the `<` at `s.pos` leads to: the pending
   * text flushed, the characters from `<` up to and including the `>` or
   * `/` that ends the tag pushed as tag tokens, and tag mode left; when
   * the tag does not end on the line, the line ends in tag mode.
   */
  ghost function TagExit(line: string, s: Scanner): Scanner
    requires s.pos < |line|
  {
    var j := TagEnd(line, s.pos + 1);
    var e := if j < |line| then j + 1 else |line|;
    Scanner(e, [], s.inString, s.stringChar, j == |line|, Flush(s).out + CharTokens(Tag, line[s.pos..e]))
  }

  /** Tag mode entered at `s.pos` ends in `TagExit`. */
  lemma {:induction false} AfterOpenedTag(line: string, s: Scanner, t: Scanner)
    requires s.pos < |line| && t.pos == s.pos + 1
    requires t.current == [] && t.inString == s.inString && t.stringChar == s.stringChar
    requires t.out == Flush(s).out + [Token(Tag, [line[s.pos]])]
    ensures AfterTag(line, t) == TagExit(line, s)
  {
    var p := s.pos;
    var j := TagEnd(line, p + 1);
    var e := if j < |line| then j + 1 else |line|;
    var run := line[p..e];
    assert run[0] == line[p] && run[1..] == line[p + 1..e];
    PushCharTokens(Flush(s).out, Tag, run);
    var after := AfterTag(line, t);
    assert after.pos == e;
    assert after.out == t.out + CharTokens(Tag, run[1..]);
  }

  /**
   * Outside a tag and a string, `<` followed by a letter flushes the
   * pending text and opens a tag: from `<` up to the `>` or `/` that ends
   * it, every character becomes a one-character tag token; the line ends
   * in tag mode when the tag does not end on it.
   */
  lemma {:induction false} TagLiteral(line: string, s: Scanner)
    requires s.pos + 1 < |line| && !s.inString && !s.inTag
    requires line[s.pos] == '<' && IsLetter(line[s.pos + 1])
    ensures Scan(line, s) == Scan(line, TagExit(line, s))
  {
    var entered := Emit(s, Tag, ['<']).(inTag := true);
    EnterTag(line, s, entered);
    AfterOpenedTag(line, s, entered);
  }

  /** Scanning from `<` before a letter is scanning from the end of the tag it opens. */
  lemma {:induction false} EnterTag(line: string, s: Scanner, entered: Scanner)
    requires s.pos + 1 < |line| && !s.inString && !s.inTag
    requires line[s.pos] == '<' && IsLetter(line[s.pos + 1])
    requires entered == Emit(s, Tag, ['<']).(inTag := true)
    ensures Scan(line, s) == Scan(line, AfterTag(line, entered))
  {
    StepOpensTag(line, s);
    TagRun(line, entered);
  }

  // ----- the look-behind windows -----

  /** `async\s+function\s+\w+` needs at least sixteen characters. */
  lemma {:induction false} AsyncFunctionNeedsSixteen(s: string)
    requires AsyncFunctionAt(s)
    ensures |s| >= 16
  {
    var a := LeadingSpaces(s[5..]);
    var r := s[5 + a..];
    var b := LeadingSpaces(r[8..]);
    assert |r| >= 8 + b + 1;
  }

  /** Some suffix of `w` matches `async\s+function\s+\w+`, so `w` has at least sixteen characters. */
  lemma {:induction false} AsyncWindowNeedsSixteen(w: string)
    requires AsyncFunctionWindow(w)
    ensures |w| >= 16
  {
    if AsyncFunctionAt(w) {
      AsyncFunctionNeedsSixteen(w);
    } else {
      AsyncWindowNeedsSixteen(w[1..]);
    }
  }

  /**
   * The async-function branch never fires: its pattern needs sixteen
   * characters but it is tested against the last ten only.
   */
  lemma {:induction false} AsyncBranchNeverTaken(line: string, i: nat)
    requires i <= |line|
    ensures !AsyncFunctionWindow(Window(line, i, 10))
  {
    var w := Window(line, i, 10);
    if AsyncFunctionWindow(w) {
      AsyncWindowNeedsSixteen(w);
    }
  }

  /** `type\s+\w+\s*=` needs at least seven characters. */
  lemma {:induction false} TypeAliasNeedsSeven(s: string)
    requires TypeAliasAt(s)
    ensures |s| >= 7
  {
    var a := LeadingSpaces(s[4..]);
    var r := s[4 + a..];
    var b := |WordPrefix(r)|;
    assert |r[b..]| >= 1;
  }

  /** Some suffix of `w` matches `type\s+\w+\s*=`, so `w` has at least seven characters. */
  lemma {:induction false} TypeAliasWindowNeedsSeven(w: string)
    requires ContainsTypeAlias(w)
    ensures |w| >= 7
  {
    if TypeAliasAt(w) {
      TypeAliasNeedsSeven(w);
    } else {
      TypeAliasWindowNeedsSeven(w[1..]);
    }
  }

  /** `function\s+$` needs the eight letters of `function` and at least one white-space character after them. */
  lemma {:induction false} FunctionWindowNeedsNine(w: string)
    requires FunctionWindow(w)
    ensures |w| >= 9 && IsSpace(w[|w| - 1])
  {
  }

  /** The parameter look-behind needs an opening parenthesis. */
  lemma {:induction false} ParamWindowHasParen(w: string)
    requires ParamWindow(w)
    ensures '(' in w
  {
    if w[|w| - 1] == '(' {
      assert w[|w| - 1] in w;
    } else {
      ParamWindowHasParen(w[..|w| - 1]);
      var k :| 0 <= k < |w| - 1 && w[..|w| - 1][k] == '(';
      assert w[k] == '(';
    }
  }

  /** A window shorter than seven characters with no colon and no parenthesis matches no look-behind. */
  lemma {:induction false} ShortWindowMatchesNothing(w: string)
    requires |w| < 7 && ':' !in w && '(' !in w
    ensures !TypeWindow(w) && !FunctionWindow(w) && !AsyncFunctionWindow(w) && !ParamWindow(w)
  {
    if ContainsTypeAlias(w) {
      TypeAliasWindowNeedsSeven(w);
    }
    if AsyncFunctionWindow(w) {
      AsyncWindowNeedsSixteen(w);
    }
    if ParamWindow(w) {
      ParamWindowHasParen(w);
    }
  }

  /** At the start of a line every look-behind window is empty and matches nothing. */
  lemma {:induction false} StartWindowsMatchNothing(line: string)
    ensures !TypeWindow(Window(line, 0, 10)) && !FunctionWindow(Window(line, 0, 20))
    ensures !AsyncFunctionWindow(Window(line, 0, 10)) && !ParamWindow(Window(line, 0, 20))
  {
    assert Window(line, 0, 10) == [] && Window(line, 0, 20) == [];
    ShortWindowMatchesNothing([]);
  }

  /** So at the start of a line only the keyword test can classify the word. */
  lemma {:induction false} FirstWordKind(line: string)
    requires line != []
    ensures WordKind(line, 0) in {Keyword, Text}
  {
    StartWindowsMatchNothing(line);
  }

  /** The word at index 0 of `xvar` is not classified: it is no keyword and nothing precedes it. */
  lemma {:induction false} XvarFirst()
    ensures WordKind("xvar", 0) == Text
  {
    FirstWordKind("xvar");
    assert "xvar"[0..] == "xvar";
    assert WordPrefix("xvar") == "xvar";
    assert "xvar" !in Keywords;
  }

  /** The word at index 1 of `xvar` is the keyword `var`. */
  lemma {:induction false} XvarSecond()
    ensures WordKind("xvar", 1) == Keyword
  {
    assert "xvar"[1..] == "var";
    assert WordPrefix("var") == "var";
  }

  /** Outside strings and tags, a character that opens neither goes to the code branch. */
  lemma {:induction false} PlainStep(line: string, s: Scanner)
    requires s.pos < |line| && !s.inString && !s.inTag
    requires !IsQuote(line[s.pos]) && line[s.pos] != '<'
    ensures Step(line, s) == CodeStep(line, s)
  {
  }

  /** The first iteration over `xvar` adds `x` to the pending text. */
  lemma {:induction false} XvarFirstStep(line: string, s: Scanner)
    requires line == "xvar" && s == Start
    ensures Step(line, s) == Scanner(1, "x", false, "", false, [])
  {
    assert line[0] == 'x';
    PlainStep(line, s);
    XvarFirst();
  }

  /** The second iteration over `xvar` flushes `x` and pushes the keyword `var`. */
  lemma {:induction false} XvarSecondStep(line: string, s: Scanner)
    requires line == "xvar" && s == Scanner(1, "x", false, "", false, [])
    ensures Step(line, s) == Scanner(4, "", false, "", false, [Token(Text, "x"), Token(Keyword, "var")])
  {
    assert line[1] == 'v';
    PlainStep(line, s);
    XvarSecond();
    assert line[1..] == "var";
    assert WordPrefix("var") == "var";
    assert Flush(s) == Scanner(1, "", false, "", false, [Token(Text, "x")]);
  }

  /** A keyword is matched inside a word: `xvar` is the text `x` and the keyword `var`. */
  lemma {:induction false} KeywordInsideWord()
    ensures LineTokens("xvar") == [Token(Text, "x"), Token(Keyword, "var")]
  {
    var s1 := Scanner(1, "x", false, "", false, []);
    XvarFirstStep("xvar", Start);
    ScanStep("xvar", Start);
    XvarSecondStep("xvar", s1);
    ScanStep("xvar", s1);
  }
}
