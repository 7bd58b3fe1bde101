/**
 * The line-oriented lexer: each line is cut at its first `//`, trimmed and
 * scanned left to right into symbols, strings and classified chunks; a
 * synthetic NEWLINE closes `global`/`local` lines and one EOF closes the file.
 */
module Lexer {
  import opened Text
  import opened Tokens

  /** The exact-case keyword set of `isKeyword`. */
  const Keywords: set<string> :=
    {"code", "endcode", "global", "local", "if", "else", "endif", "exitcode",
     "switch", "case", "endswitch", "while", "endwhile", "return"}

  /** Single-character SYMBOL tokens. */
  predicate IsSymbolChar(c: char) {
    c == '(' || c == ')' || c == ',' || c == '='
  }

  /** Characters that end a chunk.  `=` is not one of them. */
  predicate EndsChunk(c: char) {
    IsWhitespace(c) || c == '(' || c == ')' || c == ',' || c == '"'
  }

  /** A chunk as the scanner can cut it: non-empty, free of chunk delimiters. */
  predicate ValidChunk(s: string) {
    |s| > 0 && forall k :: 0 <= k < |s| ==> !EndsChunk(s[k])
  }

  /** Case variants of these words are folded to lower-case keywords. */
  predicate IsFoldedKeyword(s: string) {
    Lower(s) == "switch" || Lower(s) == "case" || Lower(s) == "endswitch"
  }

  predicate IsBooleanWord(s: string) {
    Lower(s) == "true" || Lower(s) == "false"
  }

  /** Lower-casing leaves a run of digits alone, so digits never spell a word. */
  lemma DigitsAreNotWords(s: string)
    ensures AllDigits(s) ==> Lower(s) == s && !IsBooleanWord(s) && !IsFoldedKeyword(s) && s !in Keywords
  {
    if AllDigits(s) {
      DigitsLowerThemselves(s);
      DigitsNotKeyword(s);
      DigitsNotFolded(s);
    }
  }

  lemma DigitsLowerThemselves(s: string)
    requires AllDigits(s)
    ensures Lower(s) == s
  {
    assert forall k :: 0 <= k < |s| ==> Lower(s)[k] == s[k];
  }

  lemma DigitsNotKeyword(s: string)
    requires AllDigits(s)
    ensures s !in Keywords
  {
    assert IsDigit(s[0]);
  }

  lemma DigitsNotFolded(s: string)
    requires AllDigits(s) && Lower(s) == s
    ensures !IsBooleanWord(s) && !IsFoldedKeyword(s)
  {
    assert IsDigit(s[0]);
  }

  /** `classifyToken`, all branches in `ScriptLexer`'s order. */
  function Classify(text: string, line: int): (t: Token)
    ensures t.line == line
    ensures t.kind != Unknown && t.kind != Eof && t.kind != Newline
    ensures ValidChunk(text) ==> ScannedToken(t, line)
    ensures t.kind == Identifier || t.kind == Number ==> t.text == text
  {
    DigitsAreNotWords(text);
    if EqualsIgnoreCase(text, "true") || EqualsIgnoreCase(text, "false") then
      Token(Boolean, Lower(text), line)
    else if text == "(" || text == ")" then
      Token(Symbol, text, line)
    else if text in Keywords then
      Token(Keyword, text, line)
    else if AllDigits(text) then
      Token(Number, text, line)
    else if |text| >= 2 && text[0] == '"' && text[|text| - 1] == '"' then
      Token(StringLit, text[1..|text| - 1], line)
    else if EqualsIgnoreCase(text, "switch") then
      Token(Keyword, "switch", line)
    else if EqualsIgnoreCase(text, "case") then
      Token(Keyword, "case", line)
    else if EqualsIgnoreCase(text, "endswitch") then
      Token(Keyword, "endswitch", line)
    else
      Token(Identifier, text, line)
  }

  /** On a chunk the scanner can cut, `classifyToken` is this table:
      BOOLEAN for `true`/`false` in any case, lower-cased; KEYWORD for the
      exact-case keywords and the case variants of `switch`, `case` and
      `endswitch`; NUMBER for digits; IDENTIFIER for the rest, unchanged. */
  lemma ClassifyTable(text: string, line: int)
    requires ValidChunk(text)
    ensures var t := Classify(text, line);
      && (t.kind == Boolean <==> IsBooleanWord(text))
      && (t.kind == Boolean ==> t.text == Lower(text))
      && (t.kind == Keyword <==> (text in Keywords || IsFoldedKeyword(text)) && !IsBooleanWord(text))
      && (t.kind == Number <==> AllDigits(text))
      && (t.kind == Identifier <==> !IsBooleanWord(text) && text !in Keywords && !IsFoldedKeyword(text) && !AllDigits(text))
  {
    DigitsAreNotWords(text);
    NotParenOrQuoted(text);
    if IsBooleanWord(text) {
      ClassifyBoolean(text, line);
    } else if text in Keywords {
      ClassifyKeyword(text, line);
    } else if AllDigits(text) {
      ClassifyNumber(text, line);
    } else if IsFoldedKeyword(text) {
      ClassifyFolded(text, line);
    } else {
      ClassifyIdentifier(text, line);
    }
  }

  lemma NotParenOrQuoted(text: string)
    requires ValidChunk(text)
    ensures text != "(" && text != ")" && !(|text| >= 2 && text[0] == '"')
  {
    assert !EndsChunk(text[0]);
  }

  lemma ClassifyBoolean(text: string, line: int)
    requires IsBooleanWord(text)
    ensures Classify(text, line) == Token(Boolean, Lower(text), line)
  {
  }

  lemma ClassifyKeyword(text: string, line: int)
    requires !IsBooleanWord(text) && text != "(" && text != ")" && text in Keywords
    ensures Classify(text, line) == Token(Keyword, text, line)
  {
  }

  lemma ClassifyNumber(text: string, line: int)
    requires !IsBooleanWord(text) && text != "(" && text != ")" && text !in Keywords && AllDigits(text)
    ensures Classify(text, line) == Token(Number, text, line)
  {
  }

  lemma ClassifyFolded(text: string, line: int)
    requires !IsBooleanWord(text) && text != "(" && text != ")" && text !in Keywords && !AllDigits(text)
    requires !(|text| >= 2 && text[0] == '"') && IsFoldedKeyword(text)
    ensures Classify(text, line).kind == Keyword
  {
  }

  lemma ClassifyIdentifier(text: string, line: int)
    requires !IsBooleanWord(text) && text != "(" && text != ")" && text !in Keywords && !AllDigits(text)
    requires !(|text| >= 2 && text[0] == '"') && !IsFoldedKeyword(text)
    ensures Classify(text, line) == Token(Identifier, text, line)
  {
  }

  /** Index of the first `"` at or after `k`, or `|t|` when the string is unterminated. */
  function QuoteEnd(t: string, k: nat): (j: nat)
    requires k <= |t|
    ensures k <= j <= |t|
    ensures j < |t| ==> t[j] == '"'
    ensures forall m :: k <= m < j ==> t[m] != '"'
    decreases |t| - k
  {
    if k == |t| || t[k] == '"' then k else QuoteEnd(t, k + 1)
  }

  /** End of the maximal chunk starting at `i`. */
  function ChunkEnd(t: string, i: nat): (j: nat)
    requires i <= |t|
    ensures i <= j <= |t|
    ensures j < |t| ==> EndsChunk(t[j])
    ensures forall m :: i <= m < j ==> !EndsChunk(t[m])
    decreases |t| - i
  {
    if i == |t| || EndsChunk(t[i]) then i else ChunkEnd(t, i + 1)
  }

  /** What every token the line scanner emits looks like. */
  predicate ScannedToken(tok: Token, line: int) {
    && tok.line == line
    && match tok.kind
       case Symbol => |tok.text| == 1 && IsSymbolChar(tok.text[0])
       case StringLit => forall k :: 0 <= k < |tok.text| ==> tok.text[k] != '"'
       case Boolean => tok.text == "true" || tok.text == "false"
       case Keyword => tok.text in Keywords
       case Number => ValidChunk(tok.text) && AllDigits(tok.text)
       case Identifier => ValidChunk(tok.text)
       case _ => false
  }

  predicate AllScanned(toks: seq<Token>, line: int) {
    forall k :: 0 <= k < |toks| ==> ScannedToken(toks[k], line)
  }

  /** The scan loop of `tokenizeLine`, from index `i` of the trimmed line `t`. */
  function ScanLine(t: string, i: nat, line: int): seq<Token>
    decreases |t| + 1 - i
  {
    if i >= |t| then []
    else if IsWhitespace(t[i]) then ScanLine(t, i + 1, line)
    else if IsSymbolChar(t[i]) then [Token(Symbol, [t[i]], line)] + ScanLine(t, i + 1, line)
    else if t[i] == '"' then
      var j := QuoteEnd(t, i + 1);
      [Token(StringLit, t[i + 1..j], line)] + ScanLine(t, j + 1, line)
    else
      var j := ChunkEnd(t, i);
      assert ValidChunk(t[i..j]);
      [Classify(t[i..j], line)] + ScanLine(t, j, line)
  }

  /** The scan yields nothing exactly when only whitespace is left, and
      never more tokens than characters left. */
  lemma {:induction false} ScanLineCount(t: string, i: nat, line: int)
    ensures |ScanLine(t, i, line)| + i <= |t| || i >= |t|
    ensures ScanLine(t, i, line) == [] <==> forall k :: i <= k < |t| ==> IsWhitespace(t[k])
    decreases |t| + 1 - i
  {
    if i < |t| {
      ScanLineCount(t, NextStart(t, i), line);
      if IsWhitespace(t[i]) {
        assert NextStart(t, i) == i + 1;
      } else {
        assert ScanLine(t, i, line) != [] by { ScanLineStep(t, i, line); }
      }
    }
  }

  /** Past whitespace, the scan emits one token and goes on from `NextStart`. */
  lemma ScanLineStep(t: string, i: nat, line: int)
    requires i < |t| && !IsWhitespace(t[i])
    ensures |ScanLine(t, i, line)| == 1 + |ScanLine(t, NextStart(t, i), line)|
  {
  }

  /** Every token the scan emits has one of the scanner's shapes. */
  lemma {:induction false} ScanLineScanned(t: string, i: nat, line: int)
    ensures AllScanned(ScanLine(t, i, line), line)
    decreases |t| + 1 - i
  {
    if i < |t| {
      ScanLineScanned(t, NextStart(t, i), line);
      ScanStepScanned(t, i, line);
    }
  }

  /** Where the scan resumes after the character or token at `i`. */
  function NextStart(t: string, i: nat): (n: nat)
    requires i < |t|
    ensures i < n
  {
    if IsWhitespace(t[i]) || IsSymbolChar(t[i]) then i + 1
    else if t[i] == '"' then QuoteEnd(t, i + 1) + 1
    else ChunkEnd(t, i)
  }

  lemma ScanStepScanned(t: string, i: nat, line: int)
    requires i < |t| && AllScanned(ScanLine(t, NextStart(t, i), line), line)
    ensures AllScanned(ScanLine(t, i, line), line)
  {
    if IsWhitespace(t[i]) {
      WhitespaceScanned(t, i, line);
    } else if IsSymbolChar(t[i]) {
      SymbolScanned(t, i, line);
    } else if t[i] == '"' {
      StringScanned(t, i, line);
    } else {
      ChunkScanned(t, i, line);
    }
  }

  lemma WhitespaceScanned(t: string, i: nat, line: int)
    requires i < |t| && IsWhitespace(t[i])
    requires AllScanned(ScanLine(t, NextStart(t, i), line), line)
    ensures AllScanned(ScanLine(t, i, line), line)
  {
    assert NextStart(t, i) == i + 1;
  }

  lemma SymbolScanned(t: string, i: nat, line: int)
    requires i < |t| && !IsWhitespace(t[i]) && IsSymbolChar(t[i])
    requires AllScanned(ScanLine(t, NextStart(t, i), line), line)
    ensures AllScanned(ScanLine(t, i, line), line)
  {
    assert NextStart(t, i) == i + 1;
    var tok := Token(Symbol, [t[i]], line);
    assert ScanLine(t, i, line) == [tok] + ScanLine(t, i + 1, line);
    ScannedPrepend(tok, ScanLine(t, i + 1, line), line);
  }

  lemma StringScanned(t: string, i: nat, line: int)
    requires i < |t| && t[i] == '"'
    requires AllScanned(ScanLine(t, NextStart(t, i), line), line)
    ensures AllScanned(ScanLine(t, i, line), line)
  {
    assert !IsWhitespace(t[i]) && !IsSymbolChar(t[i]);
    var j := QuoteEnd(t, i + 1);
    assert NextStart(t, i) == j + 1;
    var tok := Token(StringLit, t[i + 1..j], line);
    assert ScanLine(t, i, line) == [tok] + ScanLine(t, j + 1, line);
    QuotedScanned(t, i + 1, j, line);
    ScannedPrepend(tok, ScanLine(t, j + 1, line), line);
  }

  lemma QuotedScanned(t: string, k: nat, j: nat, line: int)
    requires k <= |t| && j == QuoteEnd(t, k)
    ensures ScannedToken(Token(StringLit, t[k..j], line), line)
  {
    assert forall m :: 0 <= m < j - k ==> t[k..j][m] == t[k + m];
  }

  lemma ChunkScanned(t: string, i: nat, line: int)
    requires i < |t| && !IsWhitespace(t[i]) && !IsSymbolChar(t[i]) && t[i] != '"'
    requires AllScanned(ScanLine(t, NextStart(t, i), line), line)
    ensures AllScanned(ScanLine(t, i, line), line)
  {
    var j := ChunkEnd(t, i);
    assert NextStart(t, i) == j;
    assert ValidChunk(t[i..j]);
    var tok := Classify(t[i..j], line);
    assert ScanLine(t, i, line) == [tok] + ScanLine(t, j, line);
    ScannedPrepend(tok, ScanLine(t, j, line), line);
  }

  lemma ScannedPrepend(tok: Token, rest: seq<Token>, line: int)
    requires ScannedToken(tok, line) && AllScanned(rest, line)
    ensures AllScanned([tok] + rest, line)
  {
    var all := [tok] + rest;
    forall k | 0 <= k < |all|
      ensures ScannedToken(all[k], line)
    {
      if k > 0 {
        assert all[k] == rest[k - 1];
      }
    }
  }

  /** The text `tokenizeLine` scans: everything before the first `//`, trimmed. */
  function CodePart(raw: string): string {
    Trim(raw[..CommentStart(raw)])
  }

  /** `tokenizeLine`: the tokens of one script line. */
  function TokenizeLine(raw: string, line: int): (toks: seq<Token>)
    ensures AllScanned(toks, line)
    ensures CodePart(raw) == [] ==> toks == []
  {
    var t := CodePart(raw);
    if t == [] then [] else ScanLineScanned(t, 0, line); ScanLine(t, 0, line)
  }

  /** Whether a line's tokens open a declaration that the lexer must close. */
  predicate OpensDeclaration(toks: seq<Token>) {
    toks != [] && (toks[0].text == "global" || toks[0].text == "local")
  }

  /** One line's contribution to `lexAll`: its tokens, then NEWLINE after a declaration. */
  function LineOutput(raw: string, line: int): seq<Token> {
    var toks := TokenizeLine(raw, line);
    toks + (if OpensDeclaration(toks) then [Token(Newline, "", line)] else [])
  }

  /** The tokens of lines `k..`, before the final EOF. */
  function LexFrom(lines: seq<string>, k: nat): seq<Token>
    decreases |lines| - k
  {
    if k >= |lines| then [] else LineOutput(lines[k], k + 1) + LexFrom(lines, k + 1)
  }

  /** `lexAll`: every line's tokens in order, then a single EOF. */
  function LexAll(lines: seq<string>): (toks: seq<Token>)
    ensures |toks| > 0 && toks[|toks| - 1] == Token(Eof, "", |lines| + 1)
  {
    LexFrom(lines, 0) + [Token(Eof, "", |lines| + 1)]
  }
}
