/**
 * Character classes and the fixed-window look-behind tests of the code
 * tokenizer in js/main.js. The regular expressions of the source are
 * simple enough to be written as deterministic predicates: `\w` and `\s`
 * are disjoint classes, so every greedy match below is the only match.
 */
module CharClasses {

  /** `\w` in a JavaScript regular expression without the `u` flag. */
  predicate IsWord(c: char) {
    ('A' <= c <= 'Z') || ('a' <= c <= 'z') || ('0' <= c <= '9') || c == '_'
  }

  /** `[A-Z]` */
  predicate IsUpper(c: char) {
    'A' <= c <= 'Z'
  }

  /** `[a-zA-Z]` */
  predicate IsLetter(c: char) {
    ('A' <= c <= 'Z') || ('a' <= c <= 'z')
  }

  /** The two quote characters that open a string literal. */
  predicate IsQuote(c: char) {
    c == '"' || c == '\''
  }

  /**
   * `\s`, which is also the set of characters `String.prototype.trim`
   * removes: the ECMAScript WhiteSpace and LineTerminator characters.
   */
  predicate IsSpace(c: char) {
    || c == ' ' || c == '\t' || c == '\n' || c == '\r'
    || c == '\U{B}' || c == '\U{C}' || c == '\U{A0}' || c == '\U{1680}'
    || ('\U{2000}' <= c <= '\U{200A}')
    || c == '\U{2028}' || c == '\U{2029}' || c == '\U{202F}' || c == '\U{205F}'
    || c == '\U{3000}' || c == '\U{FEFF}'
  }

  /** `line.trim() === ''`: the line holds nothing but white space. */
  predicate IsBlank(line: string) {
    forall k :: 0 <= k < |line| ==> IsSpace(line[k])
  }

  /** A non-empty run of word characters: what `\w+` can match. */
  predicate IsWordRun(s: string) {
    s != [] && forall k :: 0 <= k < |s| ==> IsWord(s[k])
  }

  /** The match of `^(\w+)` (empty when there is none): the longest prefix of word characters. */
  function WordPrefix(s: string): (w: string)
    ensures w <= s
    ensures forall k :: 0 <= k < |w| ==> IsWord(w[k])
    ensures |w| < |s| ==> !IsWord(s[|w|])
  {
    if s != [] && IsWord(s[0]) then [s[0]] + WordPrefix(s[1..]) else []
  }

  /** Number of white-space characters at the start of `s` (what a greedy `\s*` takes). */
  function LeadingSpaces(s: string): (n: nat)
    ensures n <= |s|
    ensures forall k :: 0 <= k < n ==> IsSpace(s[k])
    ensures n < |s| ==> !IsSpace(s[n])
  {
    if s != [] && IsSpace(s[0]) then 1 + LeadingSpaces(s[1..]) else 0
  }

  /** Number of white-space characters at the end of `s` (what `\s*$` takes). */
  function TrailingSpaces(s: string): (n: nat)
    ensures n <= |s|
    ensures forall k :: |s| - n <= k < |s| ==> IsSpace(s[k])
    ensures n < |s| ==> !IsSpace(s[|s| - 1 - n])
  {
    if s != [] && IsSpace(s[|s| - 1]) then 1 + TrailingSpaces(s[..|s| - 1]) else 0
  }

  /**
   * `s.trim()`: `s` without its leading and trailing white space. What is
   * left is a piece of `s` that neither starts nor ends with white space.
   */
  function Trim(s: string): (t: string)
    ensures t != [] ==> LeadingSpaces(s) + |t| + TrailingSpaces(s) == |s|
    ensures t != [] ==> t == s[LeadingSpaces(s)..LeadingSpaces(s) + |t|]
    ensures t != [] ==> !IsSpace(t[0]) && !IsSpace(t[|t| - 1])
  {
    var a := LeadingSpaces(s);
    if a == |s| then []
    else
      var b := |s| - TrailingSpaces(s);
      assert !IsSpace(s[a]);
      assert a < b;
      s[a..b]
  }

  /** `line.trim() === ''` exactly when the line holds nothing but white space. */
  lemma {:induction false} BlankIffTrimEmpty(line: string)
    ensures IsBlank(line) <==> Trim(line) == []
  {
    var a := LeadingSpaces(line);
    if IsBlank(line) && a < |line| {
      assert false;
    }
    if !IsBlank(line) {
      var k :| 0 <= k < |line| && !IsSpace(line[k]);
      assert a <= k;
    }
  }

  /** `line.substring(Math.max(0, i - n), i)`: the last `n` characters before index `i`. */
  function Window(line: string, i: nat, n: nat): (w: string)
    requires i <= |line|
    ensures |w| <= n && |w| <= i && w == line[i - |w|..i]
    ensures |w| == n || |w| == i
  {
    if i <= n then line[..i] else line[i - n..i]
  }

  /** `type\s+\w+\s*=` matched at the very start of `s`. */
  predicate TypeAliasAt(s: string) {
    && |s| >= 4 && s[..4] == "type"
    && var a := LeadingSpaces(s[4..]);
       && a >= 1
       && var r := s[4 + a..];
          var b := |WordPrefix(r)|;
          && b >= 1
          && var r2 := r[b..];
             var c := LeadingSpaces(r2);
             c < |r2| && r2[c] == '='
  }

  /** `:\s*$`: the last character that is not white space is a colon. */
  predicate EndsWithColon(w: string) {
    var t := TrailingSpaces(w);
    t < |w| && w[|w| - 1 - t] == ':'
  }

  /** `type\s+\w+\s*=` matched somewhere in `w`. */
  predicate ContainsTypeAlias(w: string) {
    w != [] && (TypeAliasAt(w) || ContainsTypeAlias(w[1..]))
  }

  /** The look-behind for type names: `/type\s+\w+\s*=|:\s*$/` matches somewhere in `w`. */
  predicate TypeWindow(w: string) {
    ContainsTypeAlias(w) || EndsWithColon(w)
  }

  /**
   * The look-behind for function names: `/(async\s+)?function\s+$/`. The
   * optional group never changes whether the pattern matches, so this is
   * `function\s+$`.
   */
  predicate FunctionWindow(w: string) {
    var t := TrailingSpaces(w);
    t >= 1 && |w| - t >= 8 && w[|w| - t - 8..|w| - t] == "function"
  }

  /** `async\s+function\s+\w+` matched at the very start of `s`. */
  predicate AsyncFunctionAt(s: string) {
    && |s| >= 5 && s[..5] == "async"
    && var a := LeadingSpaces(s[5..]);
       && a >= 1
       && var r := s[5 + a..];
          && |r| >= 8 && r[..8] == "function"
          && var b := LeadingSpaces(r[8..]);
             && b >= 1
             && var r2 := r[8 + b..];
                r2 != [] && IsWord(r2[0])
  }

  /** The look-behind for names after `async function`: `/async\s+function\s+\w+/` matches somewhere in `w`. */
  predicate AsyncFunctionWindow(w: string) {
    w != [] && (AsyncFunctionAt(w) || AsyncFunctionWindow(w[1..]))
  }

  /**
   * The look-behind for parameters: `/\([^)]*$/`, an opening parenthesis
   * with no closing one after it, read from the end of `w`.
   */
  predicate ParamWindow(w: string) {
    w != [] && w[|w| - 1] != ')' && (w[|w| - 1] == '(' || ParamWindow(w[..|w| - 1]))
  }

  /** The keyword list of the tokenizer, in the order the source declares it. */
  const Keywords: seq<string> :=
    ["import", "export", "async", "await", "function", "type", "return",
     "as", "from", "use", "const", "let", "var"]

  /** No keyword is empty, so an empty `^(\w+)` match is never a keyword. */
  lemma {:induction false} KeywordsNonEmpty()
    ensures forall k :: 0 <= k < |Keywords| ==> Keywords[k] != []
    ensures [] !in Keywords
  {
    forall k | 0 <= k < |Keywords|
      ensures Keywords[k] != []
    {
      assert |Keywords[k]| >= 2;
    }
  }
}
