/** Properties of the lexer: comments, scanning steps, and the shape of `LexAll`. */
module LexerProps {
  import opened Text
  import opened Tokens
  import opened Lexer

  // ------------------------------------------------------------ one line

  /** Nothing from the first `//` on produces tokens. */
  lemma CommentIgnored(pre: string, rest: string, line: int)
    requires forall k :: 0 <= k < |pre| ==> !CommentAt(pre, k)
    requires pre == [] || pre[|pre| - 1] != '/'
    ensures TokenizeLine(pre + "//" + rest, line) == TokenizeLine(pre, line)
  {
    var raw := pre + "//" + rest;
    assert CommentAt(raw, |pre|);
    forall k | 0 <= k < |pre|
      ensures !CommentAt(raw, k)
    {
      if k + 1 < |pre| {
        assert raw[k] == pre[k] && raw[k + 1] == pre[k + 1];
        assert !CommentAt(pre, k);
      }
    }
    var c := CommentStart(raw);
    assert c == |pre|;
    assert CommentStart(pre) == |pre|;
    assert raw[..c] == pre[..|pre|];
    assert CodePart(raw) == CodePart(pre);
  }

  /** A line holding only blanks and control characters yields no tokens. */
  lemma BlankLineIsSilent(raw: string, line: int)
    requires forall k :: 0 <= k < |raw| ==> IsTrimmed(raw[k])
    ensures TokenizeLine(raw, line) == []
  {
    var c := CommentStart(raw);
    assert forall k :: 0 <= k < c ==> raw[..c][k] == raw[k];
  }

  /** A line that is only a comment, after any indentation, yields no tokens. */
  lemma CommentLineIsSilent(indent: string, rest: string, line: int)
    requires forall k :: 0 <= k < |indent| ==> IsTrimmed(indent[k])
    ensures TokenizeLine(indent + "//" + rest, line) == []
  {
    forall k | 0 <= k < |indent|
      ensures !CommentAt(indent, k)
    {
      assert indent[k] != '/';
    }
    CommentIgnored(indent, rest, line);
    BlankLineIsSilent(indent, line);
  }

  /** The scan at a quote: one STRING token up to where the string loop stops. */
  lemma ScanAtQuote(t: string, i: nat, line: int)
    requires i < |t| && t[i] == '"'
    ensures var j := QuoteEnd(t, i + 1);
      ScanLine(t, i, line) == [Token(StringLit, t[i + 1..j], line)] + ScanLine(t, j + 1, line)
  {
    assert !IsWhitespace(t[i]) && !IsSymbolChar(t[i]);
  }

  /** A quoted string is the characters after the quote up to the next
      quote, which the scan then skips. */
  lemma StringStep(t: string, i: nat, j: nat, line: int)
    requires i < j < |t| && t[i] == '"' && t[j] == '"'
    requires forall m :: i < m < j ==> t[m] != '"'
    ensures ScanLine(t, i, line) == [Token(StringLit, t[i + 1..j], line)] + ScanLine(t, j + 1, line)
  {
    QuoteEndIsFirstQuote(t, i + 1, j);
    StringEndingAt(t, i, j, line);
  }

  lemma {:induction false} StringEndingAt(t: string, i: nat, j: nat, line: int)
    requires i < j < |t| && t[i] == '"' && j == QuoteEnd(t, i + 1)
    ensures ScanLine(t, i, line) == [Token(StringLit, t[i + 1..j], line)] + ScanLine(t, j + 1, line)
  {
    assert !IsWhitespace(t[i]) && !IsSymbolChar(t[i]);
  }

  /** An unterminated string still yields a STRING token: the rest of the line. */
  lemma UnterminatedString(t: string, i: nat, line: int)
    requires i < |t| && t[i] == '"'
    requires forall m :: i < m < |t| ==> t[m] != '"'
    ensures ScanLine(t, i, line) == [Token(StringLit, t[i + 1..], line)]
  {
    QuoteEndIsFirstQuote(t, i + 1, |t|);
    ScanAtQuote(t, i, line);
    assert ScanLine(t, |t| + 1, line) == [];
    assert t[i + 1..|t|] == t[i + 1..];
  }

  lemma {:induction false} QuoteEndIsFirstQuote(t: string, k: nat, j: nat)
    requires k <= j <= |t|
    requires j < |t| ==> t[j] == '"'
    requires forall m :: k <= m < j ==> t[m] != '"'
    ensures QuoteEnd(t, k) == j
    decreases j - k
  {
    if k < j {
      QuoteEndIsFirstQuote(t, k + 1, j);
    }
  }

  /** A chunk runs to the next whitespace, parenthesis, comma or quote and
      no further; `=` does not stop it, so `x=5` is a single token. */
  lemma ChunkStep(t: string, i: nat, j: nat, line: int)
    requires i < j <= |t|
    requires forall m :: i <= m < j ==> !EndsChunk(t[m])
    requires j < |t| ==> EndsChunk(t[j])
    requires !IsSymbolChar(t[i])
    ensures ScanLine(t, i, line) == [Classify(t[i..j], line)] + ScanLine(t, j, line)
  {
    ChunkEndIsFirstStop(t, i, j);
    assert !IsWhitespace(t[i]) && t[i] != '"';
  }

  lemma {:induction false} ChunkEndIsFirstStop(t: string, i: nat, j: nat)
    requires i <= j <= |t|
    requires forall m :: i <= m < j ==> !EndsChunk(t[m])
    requires j < |t| ==> EndsChunk(t[j])
    ensures ChunkEnd(t, i) == j
    decreases j - i
  {
    if i < j {
      ChunkEndIsFirstStop(t, i + 1, j);
    }
  }

  /** A line that is a single chunk containing `=`, such as `x=5` or
      `count=total`, lexes as one IDENTIFIER holding the whole line:
      `=` does not end a chunk, and no word or number contains it. */
  lemma EqualsInsideChunk(t: string, m: nat, line: int)
    requires m < |t| && t[m] == '='
    requires forall k :: 0 <= k < |t| ==> !EndsChunk(t[k]) && !IsTrimmed(t[k])
    requires forall k :: 0 <= k < |t| ==> !CommentAt(t, k)
    requires !IsSymbolChar(t[0])
    ensures TokenizeLine(t, line) == [Token(Identifier, t, line)]
  {
    WholeLineIsCode(t);
    ChunkWithEqualsIsIdentifier(t, m, line);
    ChunkStep(t, 0, |t|, line);
    assert t[0..|t|] == t;
  }

  /** A line without a comment and without blanks at its ends is all code. */
  lemma WholeLineIsCode(t: string)
    requires t != [] && !IsTrimmed(t[0]) && !IsTrimmed(t[|t| - 1])
    requires forall k :: 0 <= k < |t| ==> !CommentAt(t, k)
    ensures CodePart(t) == t
  {
    assert CommentStart(t) == |t|;
    assert t[..|t|] == t;
    assert TrimStart(t) == t;
  }

  /** A chunk containing `=` is neither a boolean word, a keyword nor digits. */
  lemma ChunkWithEqualsIsIdentifier(t: string, m: nat, line: int)
    requires m < |t| && t[m] == '='
    requires ValidChunk(t)
    ensures Classify(t, line) == Token(Identifier, t, line)
  {
    var w := Lower(t);
    assert w[m] == '=';
    NoWordHasEquals(w, m);
    NoWordHasEquals(t, m);
    assert !IsDigit(t[m]);
    ClassifyTable(t, line);
  }

  /** None of the language's words contains `=`. */
  lemma NoWordHasEquals(w: string, m: nat)
    requires m < |w| && w[m] == '='
    ensures w != "true" && w != "false" && w != "switch" && w != "case" && w != "endswitch"
    ensures w !in Keywords
  {
  }

  // -------------------------------------------------------------- LexAll

  /** Number of NEWLINE tokens. */
  function CountNewlines(toks: seq<Token>): nat {
    if toks == [] then 0 else (if toks[0].kind == Newline then 1 else 0) + CountNewlines(toks[1..])
  }

  /** Number of lines from `k` on whose tokens open a declaration. */
  function CountDeclarationLines(lines: seq<string>, k: nat): nat
    decreases |lines| - k
  {
    if k >= |lines| then 0
    else (if OpensDeclaration(TokenizeLine(lines[k], k + 1)) then 1 else 0)
         + CountDeclarationLines(lines, k + 1)
  }

  lemma {:induction false} CountNewlinesAppend(a: seq<Token>, b: seq<Token>)
    ensures CountNewlines(a + b) == CountNewlines(a) + CountNewlines(b)
    decreases |a|
  {
    if a != [] {
      assert (a + b)[0] == a[0];
      assert (a + b)[1..] == a[1..] + b;
      CountNewlinesAppend(a[1..], b);
    } else {
      assert a + b == b;
    }
  }

  lemma {:induction false} ScannedHasNoNewline(toks: seq<Token>, line: int)
    requires AllScanned(toks, line)
    ensures CountNewlines(toks) == 0
    decreases |toks|
  {
    if toks != [] {
      ScannedHasNoNewline(toks[1..], line);
    }
  }

  /** The NEWLINE a line's output ends with, if any. */
  function Closing(toks: seq<Token>, line: int): seq<Token> {
    if OpensDeclaration(toks) then [Token(Newline, "", line)] else []
  }

  /** Tokens without a NEWLINE followed by their closing NEWLINE hold one
      NEWLINE exactly when they open a declaration. */
  lemma ClosedLineNewlines(toks: seq<Token>, line: int)
    requires CountNewlines(toks) == 0
    ensures CountNewlines(toks + Closing(toks, line)) == if OpensDeclaration(toks) then 1 else 0
  {
    var c := Closing(toks, line);
    if OpensDeclaration(toks) {
      assert CountNewlines(c) == 1 + CountNewlines(c[1..]) && c[1..] == [];
    } else {
      assert c == [];
    }
    CountNewlinesAppend(toks, c);
  }

  /** One NEWLINE per line that starts with `global` or `local`, and no other. */
  lemma {:induction false} NewlinePerDeclarationLine(lines: seq<string>, k: nat)
    ensures CountNewlines(LexFrom(lines, k)) == CountDeclarationLines(lines, k)
    decreases |lines| - k
  {
    if k < |lines| {
      var toks := TokenizeLine(lines[k], k + 1);
      var out := LineOutput(lines[k], k + 1);
      assert out == toks + Closing(toks, k + 1);
      ScannedHasNoNewline(toks, k + 1);
      ClosedLineNewlines(toks, k + 1);
      assert LexFrom(lines, k) == out + LexFrom(lines, k + 1);
      CountNewlinesAppend(out, LexFrom(lines, k + 1));
      NewlinePerDeclarationLine(lines, k + 1);
    }
  }

  /** Every token of a line's output carries that line's number. */
  lemma LineOutputCarriesLine(raw: string, line: int)
    ensures forall q :: 0 <= q < |LineOutput(raw, line)| ==> LineOutput(raw, line)[q].line == line
  {
  }

  /** Line numbers of the tokens of lines `k..` lie in `k+1..|lines|`, and
      none of them is EOF. */
  predicate InRange(lines: seq<string>, k: nat, toks: seq<Token>) {
    forall q :: 0 <= q < |toks| ==> k + 1 <= toks[q].line <= |lines| && toks[q].kind != Eof
  }

  predicate LinesSorted(toks: seq<Token>) {
    forall q, q' :: 0 <= q < q' < |toks| ==> toks[q].line <= toks[q'].line
  }

  /** Each NEWLINE directly follows a token of its own line and is the last
      token of that line. */
  predicate NewlinesClose(toks: seq<Token>) {
    forall q :: 0 <= q < |toks| && toks[q].kind == Newline ==>
      && q > 0 && toks[q - 1].line == toks[q].line
      && (q + 1 < |toks| ==> toks[q + 1].line > toks[q].line)
  }

  /** Each NEWLINE sits on a line that opens a declaration. */
  predicate NewlinesDeclare(lines: seq<string>, toks: seq<Token>) {
    forall q :: 0 <= q < |toks| && toks[q].kind == Newline ==> DeclarationLine(lines, toks[q].line)
  }

  /** Line `n` (counted from 1) exists and its tokens open a declaration. */
  predicate DeclarationLine(lines: seq<string>, n: int) {
    1 <= n <= |lines| && OpensDeclaration(TokenizeLine(lines[n - 1], n))
  }

  /** Scanned tokens followed by their closing NEWLINE: all on the line, no
      EOF, and a NEWLINE only last, after a token that opens a declaration. */
  lemma ClosedLineFacts(toks: seq<Token>, line: int)
    requires AllScanned(toks, line)
    ensures var a := toks + Closing(toks, line);
      && (forall q :: 0 <= q < |a| ==> a[q].line == line && a[q].kind != Eof)
      && (forall q :: 0 <= q < |a| && a[q].kind == Newline ==> q == |a| - 1 && q > 0 && OpensDeclaration(toks))
  {
  }

  /** One line's output: all on that line, no EOF, and a NEWLINE only as its
      last token, after the line's own tokens. */
  lemma LineOutputFacts(lines: seq<string>, k: nat)
    requires k < |lines|
    ensures var a := LineOutput(lines[k], k + 1);
      && (forall q :: 0 <= q < |a| ==> a[q].line == k + 1 && a[q].kind != Eof)
      && (forall q :: 0 <= q < |a| && a[q].kind == Newline ==> q == |a| - 1 && q > 0)
      && NewlinesDeclare(lines, a)
  {
    var toks := TokenizeLine(lines[k], k + 1);
    assert LineOutput(lines[k], k + 1) == toks + Closing(toks, k + 1);
    ClosedLineFacts(toks, k + 1);
    assert OpensDeclaration(toks) ==> DeclarationLine(lines, k + 1);
  }

  lemma {:induction false} LexFromInRange(lines: seq<string>, k: nat)
    ensures InRange(lines, k, LexFrom(lines, k))
    decreases |lines| - k
  {
    if k < |lines| {
      LexFromInRange(lines, k + 1);
      LineOutputFacts(lines, k);
      assert LexFrom(lines, k) == LineOutput(lines[k], k + 1) + LexFrom(lines, k + 1);
      InRangeAppend(lines, k, LineOutput(lines[k], k + 1), LexFrom(lines, k + 1));
    }
  }

  lemma InRangeAppend(lines: seq<string>, k: nat, a: seq<Token>, b: seq<Token>)
    requires k < |lines|
    requires forall q :: 0 <= q < |a| ==> a[q].line == k + 1 && a[q].kind != Eof
    requires InRange(lines, k + 1, b)
    ensures InRange(lines, k, a + b)
  {
    var ab := a + b;
    forall q | 0 <= q < |ab|
      ensures k + 1 <= ab[q].line <= |lines| && ab[q].kind != Eof
    {
      if q >= |a| {
        assert ab[q] == b[q - |a|];
      }
    }
  }

  lemma SortedAppend(a: seq<Token>, b: seq<Token>, line: int)
    requires forall q :: 0 <= q < |a| ==> a[q].line == line
    requires forall q :: 0 <= q < |b| ==> b[q].line > line
    requires LinesSorted(b)
    ensures LinesSorted(a + b)
  {
    var ab := a + b;
    forall q, q' | 0 <= q < q' < |ab|
      ensures ab[q].line <= ab[q'].line
    {
      if q < |a| {
        assert ab[q] == a[q];
        if q' < |a| {
          assert ab[q'] == a[q'];
        } else {
          assert ab[q'] == b[q' - |a|];
        }
      } else {
        assert ab[q] == b[q - |a|] && ab[q'] == b[q' - |a|];
      }
    }
  }

  lemma {:induction false} LexFromSorted(lines: seq<string>, k: nat)
    ensures LinesSorted(LexFrom(lines, k))
    decreases |lines| - k
  {
    if k < |lines| {
      LexFromSorted(lines, k + 1);
      LexFromInRange(lines, k + 1);
      LineOutputFacts(lines, k);
      SortedAppend(LineOutput(lines[k], k + 1), LexFrom(lines, k + 1), k + 1);
    }
  }

  /** Joining one line's output to what follows keeps NEWLINEs closing lines. */
  lemma NewlinesCloseAppend(a: seq<Token>, b: seq<Token>, line: int)
    requires forall q :: 0 <= q < |a| ==> a[q].line == line
    requires forall q :: 0 <= q < |a| && a[q].kind == Newline ==> q == |a| - 1 && q > 0
    requires forall q :: 0 <= q < |b| ==> b[q].line > line
    requires NewlinesClose(b)
    ensures NewlinesClose(a + b)
  {
    var ab := a + b;
    forall q | 0 <= q < |ab| && ab[q].kind == Newline
      ensures q > 0 && ab[q - 1].line == ab[q].line
      ensures q + 1 < |ab| ==> ab[q + 1].line > ab[q].line
    {
      if q < |a| {
        assert ab[q] == a[q] && ab[q - 1] == a[q - 1];
        if q + 1 < |ab| {
          assert ab[q + 1] == b[0];
        }
      } else {
        assert ab[q] == b[q - |a|];
        assert ab[q - 1] == b[q - |a| - 1];
        if q + 1 < |ab| {
          assert ab[q + 1] == b[q - |a| + 1];
        }
      }
    }
  }

  lemma {:induction false} LexFromNewlinesClose(lines: seq<string>, k: nat)
    ensures NewlinesClose(LexFrom(lines, k))
    decreases |lines| - k
  {
    if k < |lines| {
      LexFromNewlinesClose(lines, k + 1);
      LexFromInRange(lines, k + 1);
      LineOutputFacts(lines, k);
      NewlinesCloseAppend(LineOutput(lines[k], k + 1), LexFrom(lines, k + 1), k + 1);
    }
  }

  lemma NewlinesDeclareAppend(lines: seq<string>, a: seq<Token>, b: seq<Token>)
    requires NewlinesDeclare(lines, a) && NewlinesDeclare(lines, b)
    ensures NewlinesDeclare(lines, a + b)
  {
    var ab := a + b;
    forall q | 0 <= q < |ab| && ab[q].kind == Newline
      ensures DeclarationLine(lines, ab[q].line)
    {
      if q < |a| {
        assert ab[q] == a[q];
      } else {
        assert ab[q] == b[q - |a|];
      }
    }
  }

  lemma {:induction false} LexFromNewlinesDeclare(lines: seq<string>, k: nat)
    ensures NewlinesDeclare(lines, LexFrom(lines, k))
    decreases |lines| - k
  {
    if k < |lines| {
      LexFromNewlinesDeclare(lines, k + 1);
      LineOutputFacts(lines, k);
      NewlinesDeclareAppend(lines, LineOutput(lines[k], k + 1), LexFrom(lines, k + 1));
    }
  }

  /** Appending the final EOF keeps the earlier facts. */
  lemma EofAppend(lines: seq<string>, a: seq<Token>)
    requires InRange(lines, 0, a) && LinesSorted(a) && NewlinesClose(a) && NewlinesDeclare(lines, a)
    ensures var toks := a + [Token(Eof, "", |lines| + 1)];
      && (forall q :: 0 <= q < |toks| - 1 ==> toks[q].kind != Eof)
      && LinesSorted(toks) && NewlinesClose(toks) && NewlinesDeclare(lines, toks)
  {
    var e := [Token(Eof, "", |lines| + 1)];
    var toks := a + e;
    assert forall q :: 0 <= q < |a| ==> toks[q] == a[q];
    assert NewlinesDeclare(lines, e);
    NewlinesDeclareAppend(lines, a, e);
    forall q | 0 <= q < |toks| && toks[q].kind == Newline
      ensures q > 0 && toks[q - 1].line == toks[q].line
      ensures q + 1 < |toks| ==> toks[q + 1].line > toks[q].line
    {
      assert q < |a|;
    }
  }

  /** `lexAll` ends with exactly one EOF, numbered one past the last line;
      line numbers never decrease; each NEWLINE closes a declaration line. */
  lemma LexAllShape(lines: seq<string>)
    ensures var toks := LexAll(lines);
      && (forall q :: 0 <= q < |toks| - 1 ==> toks[q].kind != Eof)
      && LinesSorted(toks) && NewlinesClose(toks) && NewlinesDeclare(lines, toks)
  {
    LexFromInRange(lines, 0);
    LexFromSorted(lines, 0);
    LexFromNewlinesClose(lines, 0);
    LexFromNewlinesDeclare(lines, 0);
    EofAppend(lines, LexFrom(lines, 0));
  }
}
