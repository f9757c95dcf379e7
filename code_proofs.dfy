/**
 * What `parseCode` of js/main.js guarantees about the tokens of a whole
 * code sample: splitting on newlines and joining back is the identity,
 * the tokens render the code back with every blank line emptied (and one
 * more newline when the last line is blank), and the newline tokens
 * number the line breaks plus one for a blank last line.
 */
module CodeProofs {
  import opened CharClasses
  import opened Tokens
  import opened TokenizerProofs

  // ----- splitting and joining lines -----

  /** No line of `code.split('\n')` contains a newline. */
  lemma {:induction false} SplitLinesHaveNoNewline(code: string)
    ensures forall k :: 0 <= k < |SplitLines(code)| ==> '\n' !in SplitLines(code)[k]
  {
    if code != [] {
      SplitLinesHaveNoNewline(code[1..]);
      var rest := SplitLines(code[1..]);
      if code[0] != '\n' {
        assert SplitLines(code) == [[code[0]] + rest[0]] + rest[1..];
        forall k | 0 <= k < |SplitLines(code)|
          ensures '\n' !in SplitLines(code)[k]
        {
          if k > 0 {
            assert SplitLines(code)[k] == rest[k];
          }
        }
      }
    }
  }

  /** Joining the lines of `code` with newlines gives `code` back. */
  lemma {:induction false} JoinSplit(code: string)
    ensures Join(SplitLines(code)) == code
  {
    if code != [] {
      var rest := SplitLines(code[1..]);
      JoinSplit(code[1..]);
      if code[0] == '\n' {
        assert [[]] + rest == [[]] + rest;
        assert ([[]] + rest)[1..] == rest;
      } else {
        var lines := [[code[0]] + rest[0]] + rest[1..];
        if |rest| > 1 {
          assert lines[1..] == rest[1..];
          assert Join(rest) == rest[0] + "\n" + Join(rest[1..]);
        }
        assert code == [code[0]] + code[1..];
      }
    }
  }

  /** Splitting the join of lines that contain no newline gives those lines back. */
  lemma {:induction false} SplitJoin(lines: seq<string>)
    requires |lines| >= 1
    requires forall k :: 0 <= k < |lines| ==> '\n' !in lines[k]
    ensures SplitLines(Join(lines)) == lines
    decreases |lines|, |lines[0]|
  {
    if |lines| == 1 {
      SplitOneLine(lines[0]);
    } else {
      var first := lines[0];
      if first == [] {
        SplitJoin(lines[1..]);
        assert Join(lines) == "\n" + Join(lines[1..]);
        assert Join(lines)[1..] == Join(lines[1..]);
        assert [[]] + lines[1..] == lines;
      } else {
        var shorter := [first[1..]] + lines[1..];
        assert shorter[1..] == lines[1..];
        assert '\n' !in first[1..] by {
          forall k | 0 <= k < |first[1..]| ensures first[1..][k] != '\n' {
            assert first[1..][k] == first[k + 1];
          }
        }
        SplitJoin(shorter);
        assert Join(lines) == [first[0]] + Join(shorter);
        assert Join(lines)[1..] == Join(shorter);
        assert first[0] != '\n';
        var code := Join(lines);
        assert code[0] == first[0] && code[1..] == Join(shorter);
        assert SplitLines(code) == [[first[0]] + shorter[0]] + shorter[1..];
        assert [first[0]] + first[1..] == first;
        assert [first] + lines[1..] == lines;
      }
    }
  }

  /** A line without a newline splits into itself. */
  lemma {:induction false} SplitOneLine(line: string)
    requires '\n' !in line
    ensures SplitLines(line) == [line]
  {
    if line != [] {
      assert '\n' !in line[1..] by {
        forall k | 0 <= k < |line[1..]| ensures line[1..][k] != '\n' {
          assert line[1..][k] == line[k + 1];
        }
      }
      SplitOneLine(line[1..]);
      assert line[0] != '\n';
      assert [line[0]] + line[1..] == line;
    }
  }

  /** Joining one more line appends a newline and the line. */
  lemma {:induction false} JoinSnoc(lines: seq<string>, line: string)
    requires |lines| >= 1
    ensures Join(lines + [line]) == Join(lines) + "\n" + line
    decreases |lines|
  {
    if |lines| > 1 {
      assert (lines + [line])[1..] == lines[1..] + [line];
      JoinSnoc(lines[1..], line);
    }
  }

  // ----- the tokens of every line -----

  /** The tokens `toks[k]` of each line render back to the line. */
  predicate RendersLines(lines: seq<string>, toks: seq<seq<Token>>) {
    |toks| == |lines| && forall k {:trigger Render(toks[k])} :: 0 <= k < |lines| ==> Render(toks[k]) == lines[k]
  }

  /** No token of any line is a newline token. */
  predicate NoNewlineTokensIn(toks: seq<seq<Token>>) {
    forall k, i :: 0 <= k < |toks| && 0 <= i < |toks[k]| ==> toks[k][i].kind != Newline
  }

  /** The tokenizer's own line tokens render each line back and hold no newline token. */
  lemma {:induction false} AllLineTokensSound(lines: seq<string>)
    ensures RendersLines(lines, AllLineTokens(lines))
    ensures NoNewlineTokensIn(AllLineTokens(lines))
  {
    var toks := AllLineTokens(lines);
    forall k | 0 <= k < |lines|
      ensures Render(toks[k]) == lines[k]
      ensures forall i :: 0 <= i < |toks[k]| ==> toks[k][i].kind != Newline
    {
      assert toks[k] == LineTokens(lines[k]);
      LineRoundTrip(lines[k]);
      LineTokensHaveNoNewline(lines[k]);
    }
  }

  // ----- rendering the tokens of the code -----

  /** The lines with every blank line emptied. */
  function Cleared(lines: seq<string>): (r: seq<string>)
    ensures |r| == |lines|
    ensures forall k :: 0 <= k < |lines| ==> r[k] == if IsBlank(lines[k]) then [] else lines[k]
  {
    seq(|lines|, k requires 0 <= k < |lines| => if IsBlank(lines[k]) then [] else lines[k])
  }

  /** What the tokens of line `k` render to: the line, or nothing when it is blank, then its newline. */
  lemma {:induction false} RenderLineOutput(lines: seq<string>, k: nat, ts: seq<Token>)
    requires k < |lines| && Render(ts) == lines[k]
    ensures Render(LineOutput(lines, k, ts)) ==
      (if IsBlank(lines[k]) then [] else lines[k]) + (if k < |lines| - 1 || IsBlank(lines[k]) then "\n" else "")
  {
    assert Render([NewlineToken]) == "\n" by {
      RenderSnoc([], NewlineToken);
    }
    if !IsBlank(lines[k]) {
      var after: seq<Token> := if k < |lines| - 1 then [NewlineToken] else [];
      RenderAppend(ts, after);
      assert Render([]) == "";
    }
  }

  /** Emptying the blank lines of one more line. */
  lemma {:induction false} ClearedTake(lines: seq<string>, n: nat)
    requires 1 <= n <= |lines|
    ensures Cleared(lines[..n]) == Cleared(lines[..n - 1]) + [if IsBlank(lines[n - 1]) then [] else lines[n - 1]]
  {
    var c := Cleared(lines[..n]);
    var d := Cleared(lines[..n - 1]) + [if IsBlank(lines[n - 1]) then [] else lines[n - 1]];
    assert |c| == |d|;
    forall k | 0 <= k < |c| ensures c[k] == d[k] {
      assert lines[..n][k] == lines[k];
      if k < n - 1 {
        assert lines[..n - 1][k] == lines[k];
      }
    }
  }

  /** String concatenation is associative (kept apart so the proofs that need it stay small). */
  lemma {:induction false} AppendAssociates(x: string, y: string, z: string)
    ensures x + (y + z) == (x + y) + z
  {
  }

  /** What the tokens of the first `n` lines render to. */
  lemma {:induction false} RenderTokensUpTo(lines: seq<string>, toks: seq<seq<Token>>, n: nat)
    requires RendersLines(lines, toks) && 1 <= n <= |lines|
    ensures Render(TokensUpTo(lines, toks, n)) ==
      Join(Cleared(lines[..n])) + (if n < |lines| || IsBlank(lines[n - 1]) then "\n" else "")
  {
    var cleared: string := if IsBlank(lines[n - 1]) then [] else lines[n - 1];
    RenderLineOutput(lines, n - 1, toks[n - 1]);
    ClearedTake(lines, n);
    if n == 1 {
      assert TokensUpTo(lines, toks, 1) == LineOutput(lines, 0, toks[0]);
    } else {
      var a := Join(Cleared(lines[..n - 1]));
      var tail: string := if n < |lines| || IsBlank(lines[n - 1]) then "\n" else "";
      RenderTokensUpTo(lines, toks, n - 1);
      assert Render(TokensUpTo(lines, toks, n - 1)) == a + "\n";
      RenderAppend(TokensUpTo(lines, toks, n - 1), LineOutput(lines, n - 1, toks[n - 1]));
      assert Render(TokensUpTo(lines, toks, n)) == (a + "\n") + (cleared + tail);
      JoinSnoc(Cleared(lines[..n - 1]), cleared);
      AppendAssociates(a + "\n", cleared, tail);
    }
  }

  /** `RenderTokensUpTo` for all the lines. */
  lemma {:induction false} RenderAllLines(lines: seq<string>, toks: seq<seq<Token>>)
    requires |lines| >= 1 && RendersLines(lines, toks)
    ensures Render(TokensUpTo(lines, toks, |lines|)) == ClearedText(lines)
  {
    RenderTokensUpTo(lines, toks, |lines|);
    assert lines[..|lines|] == lines;
    if IsBlank(lines[|lines| - 1]) {
      assert EndsBlank(lines);
    } else {
      assert !EndsBlank(lines);
    }
  }

  /** The last line is blank. */
  predicate EndsBlank(lines: seq<string>) {
    lines != [] && IsBlank(lines[|lines| - 1])
  }

  /**
   * The text the tokens of `lines` render to: the lines joined by
   * newlines with every blank line emptied, and one more newline when the
   * last line is blank (a blank last line still emits a newline token).
   */
  function ClearedText(lines: seq<string>): string {
    if lines == [] then [] else Join(Cleared(lines)) + (if EndsBlank(lines) then "\n" else "")
  }

  /** The tokens of a code sample render it back with every blank line emptied, as `ClearedText` says. */
  lemma {:induction false} CodeRoundTrip(code: string)
    ensures Render(CodeTokens(code)) == ClearedText(SplitLines(code))
  {
    LinesRoundTrip(SplitLines(code));
  }

  /** `CodeRoundTrip` for the lines of the code. */
  lemma {:induction false} LinesRoundTrip(lines: seq<string>)
    requires |lines| >= 1
    ensures Render(TokensUpTo(lines, AllLineTokens(lines), |lines|)) == ClearedText(lines)
  {
    AllLineTokensSound(lines);
    RenderAllLines(lines, AllLineTokens(lines));
  }

  /** When no line is blank, the tokens of a code sample render back to exactly the code. */
  lemma {:induction false} NoBlankLineRoundTrip(code: string)
    requires forall k :: 0 <= k < |SplitLines(code)| ==> !IsBlank(SplitLines(code)[k])
    ensures Render(CodeTokens(code)) == code
  {
    var lines := SplitLines(code);
    CodeRoundTrip(code);
    assert Cleared(lines) == lines;
    JoinSplit(code);
  }

  // ----- newline tokens -----

  /** The number of newline characters in `s`. */
  function NewlineCount(s: string): (n: nat)
    ensures n <= |s|
  {
    if s == [] then 0 else NewlineCount(s[..|s| - 1]) + (if s[|s| - 1] == '\n' then 1 else 0)
  }

  /** The number of newline tokens in `ts`. */
  function NewlineTokens(ts: seq<Token>): (n: nat)
    ensures n <= |ts|
  {
    if ts == [] then 0 else NewlineTokens(ts[..|ts| - 1]) + (if ts[|ts| - 1].kind == Newline then 1 else 0)
  }

  lemma {:induction false} NewlineTokensAppend(a: seq<Token>, b: seq<Token>)
    ensures NewlineTokens(a + b) == NewlineTokens(a) + NewlineTokens(b)
    decreases |b|
  {
    if b != [] {
      var b' := b[..|b| - 1];
      assert (a + b)[..|a + b| - 1] == a + b';
      NewlineTokensAppend(a, b');
    } else {
      assert a + b == a;
    }
  }

  /** A sequence of tokens none of which is a newline has no newline tokens. */
  lemma {:induction false} NoNewlineTokens(ts: seq<Token>)
    requires forall k :: 0 <= k < |ts| ==> ts[k].kind != Newline
    ensures NewlineTokens(ts) == 0
  {
    if ts != [] {
      NoNewlineTokens(ts[..|ts| - 1]);
    }
  }

  /** The number of lines of `code.split('\n')` is one more than the number of newlines. */
  lemma {:induction false} SplitLinesCount(code: string)
    ensures |SplitLines(code)| == NewlineCount(code) + 1
  {
    if code != [] {
      SplitLinesCount(code[1..]);
      FrontNewlineCount(code);
    }
  }

  /** Counting newlines from the front. */
  lemma {:induction false} FrontNewlineCount(s: string)
    requires s != []
    ensures NewlineCount(s) == (if s[0] == '\n' then 1 else 0) + NewlineCount(s[1..])
    decreases |s|
  {
    if |s| > 1 {
      assert s[..|s| - 1][1..] == s[1..][..|s[1..]| - 1];
      FrontNewlineCount(s[..|s| - 1]);
    } else {
      assert s[..|s| - 1] == [] && s[1..] == [];
    }
  }

  /** Line `k` emits one newline token, or none when it is the last line and not blank. */
  lemma {:induction false} NewlineTokensLineOutput(lines: seq<string>, k: nat, ts: seq<Token>)
    requires k < |lines|
    requires forall i :: 0 <= i < |ts| ==> ts[i].kind != Newline
    ensures NewlineTokens(LineOutput(lines, k, ts)) == if k < |lines| - 1 || IsBlank(lines[k]) then 1 else 0
  {
    assert NewlineTokens([NewlineToken]) == 1 by {
      assert [NewlineToken][..0] == [];
    }
    if !IsBlank(lines[k]) {
      NoNewlineTokens(ts);
      var after: seq<Token> := if k < |lines| - 1 then [NewlineToken] else [];
      NewlineTokensAppend(ts, after);
    }
  }

  /** Each line contributes one newline token, except a last line that is not blank. */
  lemma {:induction false} NewlineTokensUpTo(lines: seq<string>, toks: seq<seq<Token>>, n: nat)
    requires |toks| == |lines| && NoNewlineTokensIn(toks) && n <= |lines|
    ensures NewlineTokens(TokensUpTo(lines, toks, n)) ==
      if n == |lines| && n > 0 && !IsBlank(lines[n - 1]) then n - 1 else n
  {
    if n == 0 {
      assert TokensUpTo(lines, toks, 0) == [];
    } else {
      var prefix := TokensUpTo(lines, toks, n - 1);
      var out := LineOutput(lines, n - 1, toks[n - 1]);
      NewlineTokensUpTo(lines, toks, n - 1);
      assert NewlineTokens(prefix) == n - 1;
      NewlineTokensLineOutput(lines, n - 1, toks[n - 1]);
      CountAppend(prefix, out, TokensUpTo(lines, toks, n));
      if n == |lines| && !IsBlank(lines[n - 1]) {
        assert NewlineTokens(out) == 0;
      } else {
        assert NewlineTokens(out) == 1;
      }
    }
  }

  /** `NewlineTokensAppend`, for a sequence known to be the concatenation. */
  lemma {:induction false} CountAppend(a: seq<Token>, b: seq<Token>, whole: seq<Token>)
    requires whole == a + b
    ensures NewlineTokens(whole) == NewlineTokens(a) + NewlineTokens(b)
  {
    NewlineTokensAppend(a, b);
  }

  /**
   * The newline tokens of a code sample number its newline characters,
   * plus one when its last line is blank.
   */
  lemma {:induction false} NewlineTokenCount(code: string)
    ensures NewlineTokens(CodeTokens(code)) == NewlineCount(code) + (if EndsBlank(SplitLines(code)) then 1 else 0)
  {
    LinesNewlineCount(SplitLines(code));
    SplitLinesCount(code);
  }

  /** `NewlineTokenCount` for the lines of the code. */
  lemma {:induction false} LinesNewlineCount(lines: seq<string>)
    requires |lines| >= 1
    ensures NewlineTokens(TokensUpTo(lines, AllLineTokens(lines), |lines|)) == |lines| - 1 + (if EndsBlank(lines) then 1 else 0)
  {
    AllLineTokensSound(lines);
    NewlineTokensAllLines(lines, AllLineTokens(lines));
  }

  /** `NewlineTokensUpTo` for all the lines. */
  lemma {:induction false} NewlineTokensAllLines(lines: seq<string>, toks: seq<seq<Token>>)
    requires |lines| >= 1 && |toks| == |lines| && NoNewlineTokensIn(toks)
    ensures NewlineTokens(TokensUpTo(lines, toks, |lines|)) == |lines| - 1 + (if EndsBlank(lines) then 1 else 0)
  {
    NewlineTokensUpTo(lines, toks, |lines|);
    if EndsBlank(lines) {
      assert IsBlank(lines[|lines| - 1]);
    } else {
      assert !IsBlank(lines[|lines| - 1]);
    }
  }

  /** The last token is a newline token. */
  predicate EndsWithNewline(ts: seq<Token>) {
    ts != [] && ts[|ts| - 1].kind == Newline
  }

  /**
   * The tokens of a code sample are never empty, and they end with a
   * newline token exactly when the last line is blank.
   */
  lemma {:induction false} LastToken(code: string)
    ensures CodeTokens(code) != []
    ensures EndsWithNewline(CodeTokens(code)) <==> EndsBlank(SplitLines(code))
  {
    LinesLastToken(SplitLines(code));
  }

  /** `LastToken` for the lines of the code. */
  lemma {:induction false} LinesLastToken(lines: seq<string>)
    requires |lines| >= 1
    ensures TokensUpTo(lines, AllLineTokens(lines), |lines|) != []
    ensures EndsWithNewline(TokensUpTo(lines, AllLineTokens(lines), |lines|)) <==> EndsBlank(lines)
  {
    AllLineTokensSound(lines);
    LastLineOutput(lines, AllLineTokens(lines));
  }

  /** The layout of the lines ends in a newline token exactly when the last line is blank. */
  lemma {:induction false} LastLineOutput(lines: seq<string>, toks: seq<seq<Token>>)
    requires |lines| >= 1 && RendersLines(lines, toks) && NoNewlineTokensIn(toks)
    ensures TokensUpTo(lines, toks, |lines|) != []
    ensures EndsWithNewline(TokensUpTo(lines, toks, |lines|)) <==> EndsBlank(lines)
  {
    var n := |lines|;
    var last := toks[n - 1];
    assert TokensUpTo(lines, toks, n) == TokensUpTo(lines, toks, n - 1) + LineOutput(lines, n - 1, last);
    if IsBlank(lines[n - 1]) {
      assert EndsBlank(lines);
    } else {
      assert !EndsBlank(lines);
      assert Render(last) == lines[n - 1];
      assert lines[n - 1] != [];
      assert last != [];
      assert LineOutput(lines, n - 1, last) == last + [];
      assert last[|last| - 1].kind != Newline;
    }
  }
}
