/** The tokeniser (`lexer/Tokeniser.java`).

    The `Scanner` it reads from is the input text and an index: `peek` reads the
    character at the index, `next` reads it and advances. Reading past the end
    throws `EOFException`, which `nextToken` turns into an EOF token at the end
    position, whatever the tokeniser was in the middle of. A token's line and
    column are those of the scanner just before its first character is read:
    lines count from 1, columns count the characters read since the last newline.

    `Next` is the specification of one `next()` call as a function of the text and
    the index; the `Tokeniser` class runs it step by step as the Java does. */
module Lexer {
  import opened Wrappers

  datatype TokenClass =
    | IDENTIFIER | ASSIGN
    | LBRA | RBRA | LPAR | RPAR | LSBR | RSBR | SC | COMMA
    | INT | VOID | CHAR | IF | ELSE | WHILE | RETURN | STRUCT | SIZEOF
    | INCLUDE
    | CHAR_LITERAL | STRING_LITERAL | INT_LITERAL
    | AND | OR
    | EQ | NE | LT | GT | LE | GE
    | PLUS | MINUS | ASTERIX | DIV | REM | DOT
    | EOF | INVALID

  /** A token; `data` is empty for tokens that carry none. */
  datatype Token = Token(tokenClass: TokenClass, data: string, line: nat, column: nat)

  /** `Character.isWhitespace`. */
  predicate IsWhitespace(c: char) {
    var n := c as int;
    n == 0x20 || (0x09 <= n <= 0x0D) || (0x1C <= n <= 0x1F)
    || n == 0x1680 || (0x2000 <= n <= 0x2006) || (0x2008 <= n <= 0x200A)
    || n == 0x2028 || n == 0x2029 || n == 0x205F || n == 0x3000
  }

  /** `Character.isDigit`, `isAlphabetic` and `isLetterOrDigit`, on the ASCII range. */
  predicate IsDigit(c: char) { '0' <= c <= '9' }
  predicate IsLetter(c: char) { 'a' <= c <= 'z' || 'A' <= c <= 'Z' }
  predicate IsIdentChar(c: char) { IsLetter(c) || IsDigit(c) || c == '_' }

  /** The scanner's line before the character at index `i` is read. */
  function Line(s: string, i: nat): nat
    requires i <= |s|
  {
    if i == 0 then 1 else Line(s, i - 1) + (if s[i - 1] == '\n' then 1 else 0)
  }

  /** The scanner's column before the character at index `i` is read. */
  function Column(s: string, i: nat): nat
    requires i <= |s|
  {
    if i == 0 then 0 else if s[i - 1] == '\n' then 0 else Column(s, i - 1) + 1
  }

  /** The outcome of one `next()`: the token, the scanner index after it, and how
      many errors were reported (0 or 1). */
  datatype Step = Step(tok: Token, pos: nat, err: nat)

  function At(s: string, i: nat, cls: TokenClass, data: string): Token
    requires i <= |s|
  {
    Token(cls, data, Line(s, i), Column(s, i))
  }

  /** `EOFException` caught by `nextToken`: an EOF token where the input ends. */
  function EofStep(s: string): Step {
    Step(At(s, |s|, EOF, ""), |s|, 0)
  }

  function Keyword(id: string): Option<TokenClass> {
    if id == "int" then Some(INT)
    else if id == "void" then Some(VOID)
    else if id == "char" then Some(CHAR)
    else if id == "if" then Some(IF)
    else if id == "else" then Some(ELSE)
    else if id == "while" then Some(WHILE)
    else if id == "return" then Some(RETURN)
    else if id == "struct" then Some(STRUCT)
    else if id == "sizeof" then Some(SIZEOF)
    else None
  }

  /** The character an escape `\e` stands for inside a string literal; an unknown
      escape adds nothing. */
  function StringEscape(e: char): string {
    if e == 'n' then "\n"
    else if e == 't' then "\t"
    else if e == '\\' then "\\"
    else if e == '"' then "\""
    else if e == 'b' then "\U{8}"
    else if e == 'r' then "\r"
    else if e == 'f' then "\U{C}"
    else if e == '0' then "\0"
    else ""
  }

  /** The character literal an escape `'\e'` stands for. The source tests for the
      backspace and NUL characters themselves where `b` and `0` were meant. */
  function CharEscape(e: char): Option<string> {
    if e == 'n' then Some("\n")
    else if e == 't' then Some("\t")
    else if e == '\\' then Some("\\")
    else if e == '\'' then Some("'")
    else if e == '\U{8}' then Some("\U{8}")
    else if e == 'r' then Some("\r")
    else if e == 'f' then Some("\U{C}")
    else if e == '\0' then Some("\0")
    else None
  }

  /** `while (peek() != '\n') next();` from index `k`: the index of the next newline,
      or `|s|` when the input ends first. */
  function LineEnd(s: string, k: nat): (r: nat)
    requires k <= |s|
    ensures k <= r <= |s|
    ensures r < |s| ==> s[r] == '\n'
    ensures forall m :: k <= m < r ==> s[m] != '\n'
    decreases |s| - k
  {
    if k == |s| || s[k] == '\n' then k else LineEnd(s, k + 1)
  }

  /** The loop that skips a `/* ... */` comment, entered with the scanner at `k`:
      the index after the closing `/`, or None when the input ends first. */
  function CommentEnd(s: string, k: nat): (r: Option<nat>)
    requires k <= |s|
    ensures r.Some? ==> k + 2 < r.value <= |s|
    decreases |s| - k
  {
    if k + 1 >= |s| then None
    else if s[k + 1] == '*' then
      if k + 2 == |s| then None
      else if s[k + 2] == '/' then Some(k + 3)
      else CommentEnd(s, k + 2)
    else CommentEnd(s, k + 1)
  }

  /** The body of a string literal from index `k`, after the text `lit` already read:
      the literal and the index after the closing quote, or None at end of input. */
  function StringBody(s: string, k: nat, lit: string): (r: Option<(string, nat)>)
    requires k <= |s|
    ensures r.Some? ==> k < r.value.1 <= |s|
    decreases |s| - k
  {
    if k == |s| then None
    else if s[k] == '"' then Some((lit, k + 1))
    else if s[k] == '\\' then
      if k + 1 == |s| then None else StringBody(s, k + 2, lit + StringEscape(s[k + 1]))
    else StringBody(s, k + 1, lit + [s[k]])
  }

  /** `while (isDigit(peek())) { lit += peek(); next(); }`. */
  function Digits(s: string, k: nat, lit: string): (r: Option<(string, nat)>)
    requires k <= |s|
    ensures r.Some? ==> k <= r.value.1 < |s|
    decreases |s| - k
  {
    if k == |s| then None
    else if IsDigit(s[k]) then Digits(s, k + 1, lit + [s[k]])
    else Some((lit, k))
  }

  /** `while (isLetterOrDigit(peek()) || peek() == '_') { id += peek(); next(); }`. */
  function IdentChars(s: string, k: nat, id: string): (r: Option<(string, nat)>)
    requires k <= |s|
    ensures r.Some? ==> k <= r.value.1 < |s|
    decreases |s| - k
  {
    if k == |s| then None
    else if IsIdentChar(s[k]) then IdentChars(s, k + 1, id + [s[k]])
    else Some((id, k))
  }

  datatype IncludeMatch = Matched(end: nat) | Mismatch(at: nat) | HitEnd

  /** The loop that checks that `#` is followed by `include`; `n` letters matched so far. */
  function MatchInclude(s: string, k: nat, n: nat): (r: IncludeMatch)
    requires k <= |s| && n <= 7
    ensures r.Matched? ==> r.end == k + (7 - n) <= |s|
    ensures r.Mismatch? ==> k <= r.at < |s|
    decreases 7 - n
  {
    if n == 7 then Matched(k)
    else if k == |s| then HitEnd
    else if s[k] == "include"[n] then MatchInclude(s, k + 1, n + 1)
    else Mismatch(k)
  }

  /** The class of a token that is always one character long. */
  function SingleClass(c: char): Option<TokenClass> {
    if c == '+' then Some(PLUS)
    else if c == '-' then Some(MINUS)
    else if c == '*' then Some(ASTERIX)
    else if c == '%' then Some(REM)
    else if c == '{' then Some(LBRA)
    else if c == '}' then Some(RBRA)
    else if c == '(' then Some(LPAR)
    else if c == ')' then Some(RPAR)
    else if c == '[' then Some(LSBR)
    else if c == ']' then Some(RSBR)
    else if c == ',' then Some(COMMA)
    else if c == ';' then Some(SC)
    else if c == '.' then Some(DOT)
    else None
  }

  /** The first characters of the operators that may take a second character. */
  predicate IsOperatorStart(c: char) {
    c == '>' || c == '<' || c == '=' || c == '!' || c == '&' || c == '|'
  }

  /** An unrecognised character at `i`: one error and an INVALID token, the scanner at `j`. */
  function Invalid(s: string, i: nat, j: nat): Step
    requires i <= |s| && j <= |s|
  {
    Step(At(s, i, INVALID, ""), j, 1)
  }

  /** `>`, `<` and `=` alone or followed by `=`; `!=`, `&&` and `||`, whose first
      character alone is unrecognised. */
  function Operator(s: string, i: nat): (r: Step)
    requires i < |s| && IsOperatorStart(s[i])
    ensures i < r.pos <= |s| && r.err <= 1
  {
    var c := s[i];
    var second := if c == '&' || c == '|' then c else '=';
    if i + 1 == |s| then EofStep(s)
    else if s[i + 1] == second then
      var two := if c == '>' then GE else if c == '<' then LE else if c == '=' then EQ
                 else if c == '!' then NE else if c == '&' then AND else OR;
      Step(At(s, i, two, ""), i + 2, 0)
    else if c == '>' then Step(At(s, i, GT, ""), i + 1, 0)
    else if c == '<' then Step(At(s, i, LT, ""), i + 1, 0)
    else if c == '=' then Step(At(s, i, ASSIGN, ""), i + 1, 0)
    else Invalid(s, i, i + 1)
  }

  /** `#include`, then the rest of the line is skipped. */
  function IncludeToken(s: string, i: nat): (r: Step)
    requires i < |s| && s[i] == '#'
    ensures i < r.pos <= |s| && r.err <= 1
  {
    match MatchInclude(s, i + 1, 0)
    case HitEnd => EofStep(s)
    case Mismatch(k) => Invalid(s, i, k)
    case Matched(k) =>
      var e := LineEnd(s, k);
      if e == |s| then EofStep(s) else Step(At(s, i, INCLUDE, ""), e, 0)
  }

  function StringToken(s: string, i: nat): (r: Step)
    requires i < |s| && s[i] == '"'
    ensures i < r.pos <= |s| && r.err == 0
  {
    match StringBody(s, i + 1, "")
    case None => EofStep(s)
    case Some((lit, e)) => Step(At(s, i, STRING_LITERAL, lit), e, 0)
  }

  /** An integer literal: the digits after the first one, which is read but not kept. */
  function IntegerToken(s: string, i: nat): (r: Step)
    requires i < |s| && IsDigit(s[i])
    ensures i < r.pos <= |s| && r.err == 0
  {
    match Digits(s, i + 1, "")
    case None => EofStep(s)
    case Some((lit, e)) => Step(At(s, i, INT_LITERAL, lit), e, 0)
  }

  /** A character literal whose opening quote is at `i`. */
  function CharToken(s: string, i: nat): (r: Step)
    requires i < |s| && s[i] == '\''
    ensures i < r.pos <= |s| && r.err <= 1
  {
    var j := i + 1;
    if j == |s| then EofStep(s)
    else if s[j] == '\'' then Step(At(s, i, CHAR_LITERAL, ""), j + 1, 0)
    else if j + 1 == |s| then EofStep(s)
    else if s[j + 1] == '\'' then Step(At(s, i, CHAR_LITERAL, [s[j]]), j + 2, 0)
    else if s[j] == '\\' then
      if j + 2 == |s| then EofStep(s)
      else
        var lit := CharEscape(s[j + 1]);
        if lit.Some? then Step(At(s, i, CHAR_LITERAL, lit.value), j + 3, 0)
        else Invalid(s, i, j + 3)
    else Invalid(s, i, j + 1)
  }

  /** An identifier, or a keyword when the word is one. */
  function Word(s: string, i: nat): (r: Step)
    requires i < |s| && (IsLetter(s[i]) || s[i] == '_')
    ensures i < r.pos <= |s| && r.err == 0
  {
    match IdentChars(s, i + 1, [s[i]])
    case None => EofStep(s)
    case Some((id, e)) =>
      var kw := Keyword(id);
      if kw.Some? then Step(At(s, i, kw.value, ""), e, 0)
      else Step(At(s, i, IDENTIFIER, id), e, 0)
  }

  /** A token starting at `i` with a character that is neither whitespace nor `/`. */
  function Token1(s: string, i: nat): (r: Step)
    requires i < |s| && !IsWhitespace(s[i]) && s[i] != '/'
    ensures i < r.pos <= |s| && r.err <= 1
  {
    var c := s[i];
    if c == '#' then IncludeToken(s, i)
    else if SingleClass(c).Some? then Step(At(s, i, SingleClass(c).value, ""), i + 1, 0)
    else if IsOperatorStart(c) then Operator(s, i)
    else if c == '"' then StringToken(s, i)
    else if IsDigit(c) then IntegerToken(s, i)
    else if c == '\'' then CharToken(s, i)
    else if IsLetter(c) || c == '_' then Word(s, i)
    else Invalid(s, i, i + 1)
  }

  /** One call of `next()` with the scanner at index `i`: whitespace and comments are
      skipped by calling `next()` again. */
  function Next(s: string, i: nat): (r: Step)
    requires i <= |s|
    ensures i <= r.pos <= |s|
    ensures r.tok.tokenClass != EOF ==> i < r.pos
    ensures r.err <= 1
    decreases |s| - i
  {
    if i == |s| then EofStep(s)
    else if IsWhitespace(s[i]) then Next(s, i + 1)
    else if s[i] == '/' then
      if i + 1 == |s| then EofStep(s)
      else if s[i + 1] == '/' then
        var e := LineEnd(s, i + 1);
        if e == |s| then EofStep(s) else Next(s, e)
      else if s[i + 1] == '*' then
        match CommentEnd(s, i + 2)
        case None => EofStep(s)
        case Some(e) => Next(s, e)
      else Step(At(s, i, DIV, ""), i + 1, 0)
    else Token1(s, i)
  }

  /** The tokens of successive `nextToken()` calls from index `i`, up to and including
      the first EOF token. */
  function Lex(s: string, i: nat): (r: seq<Token>)
    requires i <= |s|
    ensures |r| >= 1 && r[|r| - 1].tokenClass == EOF
    ensures forall k :: 0 <= k < |r| - 1 ==> r[k].tokenClass != EOF
    decreases |s| - i
  {
    var st := Next(s, i);
    if st.tok.tokenClass == EOF then [st.tok] else [st.tok] + Lex(s, st.pos)
  }

  /** The tokeniser's error count after those calls. */
  function LexErrors(s: string, i: nat): nat
    requires i <= |s|
    decreases |s| - i
  {
    var st := Next(s, i);
    if st.tok.tokenClass == EOF then st.err else st.err + LexErrors(s, st.pos)
  }

  function CountInvalid(ts: seq<Token>): nat {
    if ts == [] then 0 else (if ts[0].tokenClass == INVALID then 1 else 0) + CountInvalid(ts[1..])
  }

  /** A call of `next()` reports an error exactly when it returns an INVALID token. */
  lemma {:induction false} ErrorIffInvalid(s: string, i: nat)
    requires i <= |s|
    ensures Next(s, i).err == 1 <==> Next(s, i).tok.tokenClass == INVALID
    ensures Next(s, i).err == 0 <==> Next(s, i).tok.tokenClass != INVALID
    decreases |s| - i
  {
    if i < |s| {
      if IsWhitespace(s[i]) {
        ErrorIffInvalid(s, i + 1);
      } else if s[i] == '/' && i + 1 < |s| {
        if s[i + 1] == '/' {
          var e := LineEnd(s, i + 1);
          if e < |s| {
            ErrorIffInvalid(s, e);
          }
        } else if s[i + 1] == '*' {
          match CommentEnd(s, i + 2)
          case None =>
          case Some(e) => ErrorIffInvalid(s, e);
        }
      }
    }
  }

  /** The error count is the number of INVALID tokens. */
  lemma {:induction false} LexErrorsCountInvalid(s: string, i: nat)
    requires i <= |s|
    ensures LexErrors(s, i) == CountInvalid(Lex(s, i))
    decreases |s| - i
  {
    var st := Next(s, i);
    ErrorIffInvalid(s, i);
    if st.tok.tokenClass != EOF {
      LexErrorsCountInvalid(s, st.pos);
      assert ([st.tok] + Lex(s, st.pos))[1..] == Lex(s, st.pos);
    }
  }

  /** Whitespace produces no token: lexing from the start of a run of whitespace is
      lexing from its end. */
  lemma {:induction false} WhitespaceSkipped(s: string, i: nat, j: nat)
    requires i <= j <= |s|
    requires forall k :: i <= k < j ==> IsWhitespace(s[k])
    ensures Next(s, i) == Next(s, j)
    decreases j - i
  {
    if i < j {
      WhitespaceSkipped(s, i + 1, j);
    }
  }

  /** At the end of the input, and after nothing but whitespace, the token is EOF at
      the end position. */
  lemma EndIsEof(s: string, i: nat)
    requires i <= |s|
    requires forall k :: i <= k < |s| ==> IsWhitespace(s[k])
    ensures Next(s, i) == EofStep(s)
    ensures Lex(s, i) == [At(s, |s|, EOF, "")]
  {
    WhitespaceSkipped(s, i, |s|);
  }

  /** Every token other than EOF carries the line and column of its first character,
      which lies between the starting index and the index after the token. */
  lemma {:induction false} TokenAtFirstCharacter(s: string, i: nat)
    requires i <= |s|
    ensures var r := Next(s, i);
            r.tok.tokenClass != EOF ==>
              exists k :: i <= k < r.pos && !IsWhitespace(s[k])
                          && r.tok == At(s, k, r.tok.tokenClass, r.tok.data)
    decreases |s| - i
  {
    var r := Next(s, i);
    if i < |s| && r.tok.tokenClass != EOF {
      if IsWhitespace(s[i]) {
        TokenAtFirstCharacter(s, i + 1);
      } else if s[i] == '/' && i + 1 < |s| && s[i + 1] == '/' {
        var e := LineEnd(s, i + 1);
        TokenAtFirstCharacter(s, e);
      } else if s[i] == '/' && i + 1 < |s| && s[i + 1] == '*' {
        var e := CommentEnd(s, i + 2).value;
        TokenAtFirstCharacter(s, e);
      } else if s[i] == '/' {
        assert r.tok == At(s, i, DIV, "");
      } else {
        assert r == Token1(s, i);
        Token1Located(s, i);
      }
    }
  }

  /** A token read by `Token1` other than EOF starts at `i`. */
  lemma Token1Located(s: string, i: nat)
    requires i < |s| && !IsWhitespace(s[i]) && s[i] != '/'
    ensures var r := Token1(s, i);
            r.tok.tokenClass != EOF ==> r.tok == At(s, i, r.tok.tokenClass, r.tok.data)
  {
    var c := s[i];
    if c == '#' {
      assert Token1(s, i) == IncludeToken(s, i);
    } else if SingleClass(c).Some? {
    } else if IsOperatorStart(c) {
      assert Token1(s, i) == Operator(s, i);
    } else if c == '"' {
      assert Token1(s, i) == StringToken(s, i);
    } else if IsDigit(c) {
      assert Token1(s, i) == IntegerToken(s, i);
    } else if c == '\'' {
      assert Token1(s, i) == CharToken(s, i);
    } else if IsLetter(c) || c == '_' {
      assert Token1(s, i) == Word(s, i);
    }
  }

  /** The longest match wins for `>=`, `<=` and `==`, and the single character is
      `>`, `<` or `=`; `!=`, `&&` and `||` need both characters. */
  lemma TwoCharacterOperators(s: string, i: nat)
    requires i + 1 < |s|
    ensures s[i] == '>' ==> Next(s, i) == if s[i + 1] == '=' then Step(At(s, i, GE, ""), i + 2, 0)
                                           else Step(At(s, i, GT, ""), i + 1, 0)
    ensures s[i] == '<' ==> Next(s, i) == if s[i + 1] == '=' then Step(At(s, i, LE, ""), i + 2, 0)
                                           else Step(At(s, i, LT, ""), i + 1, 0)
    ensures s[i] == '=' ==> Next(s, i) == if s[i + 1] == '=' then Step(At(s, i, EQ, ""), i + 2, 0)
                                           else Step(At(s, i, ASSIGN, ""), i + 1, 0)
    ensures s[i] == '!' && s[i + 1] == '=' ==> Next(s, i) == Step(At(s, i, NE, ""), i + 2, 0)
    ensures s[i] == '&' && s[i + 1] == '&' ==> Next(s, i) == Step(At(s, i, AND, ""), i + 2, 0)
    ensures s[i] == '|' && s[i + 1] == '|' ==> Next(s, i) == Step(At(s, i, OR, ""), i + 2, 0)
  {
  }

  /** A lone `!`, `&` or `|`, or a character that starts no token, is one error and an
      INVALID token, and lexing resumes at the next character. */
  lemma Unrecognised(s: string, i: nat)
    requires i + 1 < |s|
    requires (s[i] == '!' && s[i + 1] != '=') || (s[i] == '&' && s[i + 1] != '&')
             || (s[i] == '|' && s[i + 1] != '|')
             || (!IsWhitespace(s[i]) && s[i] != '/' && s[i] != '#' && SingleClass(s[i]).None?
                 && !IsOperatorStart(s[i]) && s[i] != '"' && s[i] != '\'' && !IsDigit(s[i])
                 && !IsLetter(s[i]) && s[i] != '_')
    ensures Next(s, i) == Step(At(s, i, INVALID, ""), i + 1, 1)
  {
  }

  /** A bare `/` is DIV; `//` skips to the end of the line, producing no token. */
  lemma SlashAndLineComment(s: string, i: nat)
    requires i + 1 < |s| && s[i] == '/'
    ensures s[i + 1] != '/' && s[i + 1] != '*' ==> Next(s, i) == Step(At(s, i, DIV, ""), i + 1, 0)
    ensures s[i + 1] == '/' ==>
              var e := LineEnd(s, i + 2);
              Next(s, i) == if e == |s| then EofStep(s) else Next(s, e + 1)
  {
  }

  /** `/*` skips through the first `*/` whose `*` is at least two characters after the
      opening `*`, producing no token. */
  lemma {:induction false} CommentSkipped(s: string, k: nat, p: nat)
    requires k < p && p + 1 < |s| && s[p] == '*' && s[p + 1] == '/'
    requires forall m :: k < m < p ==> s[m] != '*'
    ensures CommentEnd(s, k) == Some(p + 2)
    decreases p - k
  {
    if k + 1 < p {
      CommentSkipped(s, k + 1, p);
    }
  }

  lemma BlockComment(s: string, i: nat, p: nat)
    requires i + 2 < p && p + 1 < |s| && s[i] == '/' && s[i + 1] == '*'
    requires s[p] == '*' && s[p + 1] == '/'
    requires forall m :: i + 2 < m < p ==> s[m] != '*'
    ensures Next(s, i) == Next(s, p + 2)
  {
    CommentSkipped(s, i + 2, p);
  }

  /** The comment loop reads one character before it looks for `*`, so `/**/` does
      not close the comment it opens: the rest of this input is comment. */
  lemma ShortestCommentUnclosed()
    ensures Next("/**/x", 0) == EofStep("/**/x")
  {
    assert CommentEnd("/**/x", 2) == CommentEnd("/**/x", 3);
  }

  // The loop also takes a star and the character after it in one step, so a
  // closing star and slash after a run of stars closes the comment only when the
  // run's first star falls at the right parity: with two stars it stays open.
  lemma DoubleStarUnclosed()
    ensures Next("/* a **/x", 0) == EofStep("/* a **/x")
  {
    var s := "/* a **/x";
    assert CommentEnd(s, 6) == CommentEnd(s, 7) == CommentEnd(s, 8) == None;
    assert CommentEnd(s, 2) == CommentEnd(s, 3) == CommentEnd(s, 4) == CommentEnd(s, 6);
  }

  /** An identifier: a letter or `_`, then letters, digits and `_`. */
  predicate IsWord(w: string) {
    |w| >= 1 && (IsLetter(w[0]) || w[0] == '_') && forall j :: 1 <= j < |w| ==> IsIdentChar(w[j])
  }

  lemma {:induction false} IdentCharsRun(s: string, k: nat, id: string, w: string)
    requires k + |w| < |s| && s[k..k + |w|] == w && !IsIdentChar(s[k + |w|])
    requires forall j :: 0 <= j < |w| ==> IsIdentChar(w[j])
    ensures IdentChars(s, k, id) == Some((id + w, k + |w|))
    decreases |w|
  {
    if w == [] {
      assert id + w == id;
    } else {
      assert s[k] == w[0];
      assert s[k + 1..k + 1 + |w[1..]|] == w[1..];
      IdentCharsRun(s, k + 1, id + [s[k]], w[1..]);
      assert id + [w[0]] + w[1..] == id + w;
    }
  }

  /** A word followed by a character that cannot continue it is its keyword, or an
      IDENTIFIER carrying its text. */
  lemma WordRead(s: string, i: nat, w: string)
    requires i + |w| < |s| && s[i..i + |w|] == w && IsWord(w) && !IsIdentChar(s[i + |w|])
    ensures Next(s, i) == if Keyword(w).Some? then Step(At(s, i, Keyword(w).value, ""), i + |w|, 0)
                          else Step(At(s, i, IDENTIFIER, w), i + |w|, 0)
  {
    assert s[i] == w[0];
    assert s[i + 1..i + 1 + |w[1..]|] == w[1..];
    IdentCharsRun(s, i + 1, [w[0]], w[1..]);
    assert [w[0]] + w[1..] == w;
    NextAtWordStart(s, i);
  }

  lemma {:induction false} DigitsRun(s: string, k: nat, lit: string, d: string)
    requires k + |d| < |s| && s[k..k + |d|] == d && !IsDigit(s[k + |d|])
    requires forall j :: 0 <= j < |d| ==> IsDigit(d[j])
    ensures Digits(s, k, lit) == Some((lit + d, k + |d|))
    decreases |d|
  {
    if d == [] {
      assert lit + d == lit;
    } else {
      assert s[k] == d[0];
      assert s[k + 1..k + 1 + |d[1..]|] == d[1..];
      DigitsRun(s, k + 1, lit + [s[k]], d[1..]);
      assert lit + [d[0]] + d[1..] == lit + d;
    }
  }

  /** A run of digits is one INT_LITERAL whose data leaves out the first digit. */
  lemma IntLiteralDropsFirstDigit(s: string, i: nat, d: string)
    requires |d| >= 1 && i + |d| < |s| && s[i..i + |d|] == d && !IsDigit(s[i + |d|])
    requires forall j :: 0 <= j < |d| ==> IsDigit(d[j])
    ensures Next(s, i) == Step(At(s, i, INT_LITERAL, d[1..]), i + |d|, 0)
  {
    assert s[i] == d[0];
    assert s[i + 1..i + 1 + |d[1..]|] == d[1..];
    DigitsRun(s, i + 1, "", d[1..]);
    assert "" + d[1..] == d[1..];
    NextAtDigit(s, i);
  }

  /** The letter that escapes a character inside a string literal, if it has one. */
  function EscapeLetter(c: char): Option<char> {
    if c == '\n' then Some('n')
    else if c == '\t' then Some('t')
    else if c == '\\' then Some('\\')
    else if c == '"' then Some('"')
    else if c == '\U{8}' then Some('b')
    else if c == '\r' then Some('r')
    else if c == '\U{C}' then Some('f')
    else if c == '\0' then Some('0')
    else None
  }

  /** The body of a string literal that stands for `text`. */
  function Quote(text: string): string {
    if text == [] then ""
    else
      var c := text[0];
      (if EscapeLetter(c).Some? then ['\\', EscapeLetter(c).value] else [c]) + Quote(text[1..])
  }

  lemma {:induction false} StringBodyQuoted(s: string, k: nat, lit: string, text: string)
    requires k + |Quote(text)| < |s| && s[k..k + |Quote(text)|] == Quote(text)
    requires s[k + |Quote(text)|] == '"'
    ensures StringBody(s, k, lit) == Some((lit + text, k + |Quote(text)| + 1))
    decreases |text|
  {
    var q := Quote(text);
    if text == [] {
      assert lit + text == lit;
    } else {
      var c := text[0];
      var head := if EscapeLetter(c).Some? then ['\\', EscapeLetter(c).value] else [c];
      assert q == head + Quote(text[1..]);
      var n := |head|;
      SliceSplit(s, k, head, Quote(text[1..]));
      assert k + n + |Quote(text[1..])| == k + |q|;
      StringBodyStep(s, k, lit, c, head);
      StringBodyQuoted(s, k + n, lit + [c], text[1..]);
      assert lit + [c] + text[1..] == lit + text;
    }
  }

  lemma SliceSplit(s: string, k: nat, a: string, b: string)
    requires k + |a + b| <= |s| && s[k..k + |a + b|] == a + b
    ensures s[k..k + |a|] == a && s[k + |a|..k + |a| + |b|] == b
  {
    var sub := s[k..k + |a + b|];
    assert sub[..|a|] == a && sub[|a|..] == b;
  }

  /** One character of quoted text, escaped or not, reads back as that character. */
  lemma StringBodyStep(s: string, k: nat, lit: string, c: char, head: string)
    requires head == if EscapeLetter(c).Some? then ['\\', EscapeLetter(c).value] else [c]
    requires k + |head| < |s| && s[k..k + |head|] == head
    ensures StringBody(s, k, lit) == StringBody(s, k + |head|, lit + [c])
  {
    if EscapeLetter(c).Some? {
      assert s[k] == '\\' && s[k + 1] == EscapeLetter(c).value;
      assert StringEscape(EscapeLetter(c).value) == [c];
    } else {
      assert s[k] == c;
    }
  }

  /** A string literal round trip: the quoted, escaped form of any text lexes back to
      a STRING_LITERAL carrying that text. */
  lemma StringLiteralRoundTrip(s: string, i: nat, text: string)
    requires i + |Quote(text)| + 1 < |s| && s[i] == '"'
    requires s[i + 1..i + 1 + |Quote(text)|] == Quote(text) && s[i + 1 + |Quote(text)|] == '"'
    ensures Next(s, i) == Step(At(s, i, STRING_LITERAL, text), i + |Quote(text)| + 2, 0)
  {
    StringBodyQuoted(s, i + 1, "", text);
    assert "" + text == text;
    NextAtQuote(s, i);
  }

  lemma NextAtHash(s: string, i: nat)
    requires i < |s| && s[i] == '#'
    ensures Next(s, i) == IncludeToken(s, i)
  {
    assert !IsWhitespace(s[i]) && s[i] != '/';
    assert Token1(s, i) == IncludeToken(s, i);
  }

  lemma NextAtDigit(s: string, i: nat)
    requires i < |s| && IsDigit(s[i])
    ensures Next(s, i) == IntegerToken(s, i)
  {
    assert !IsWhitespace(s[i]) && s[i] != '/';
    assert SingleClass(s[i]).None? && !IsOperatorStart(s[i]) && s[i] != '"' && s[i] != '#';
    assert Token1(s, i) == IntegerToken(s, i);
  }

  lemma NextAtWordStart(s: string, i: nat)
    requires i < |s| && (IsLetter(s[i]) || s[i] == '_')
    ensures Next(s, i) == Word(s, i)
  {
    assert !IsWhitespace(s[i]) && s[i] != '/';
    assert SingleClass(s[i]).None? && !IsOperatorStart(s[i]) && s[i] != '"' && s[i] != '#';
    assert !IsDigit(s[i]) && s[i] != '\'';
    assert Token1(s, i) == Word(s, i);
  }

  lemma NextAtQuote(s: string, i: nat)
    requires i < |s| && s[i] == '"'
    ensures Next(s, i) == StringToken(s, i)
  {
    assert !IsWhitespace(s[i]) && s[i] != '/';
    assert SingleClass(s[i]).None? && !IsOperatorStart(s[i]);
    assert Token1(s, i) == StringToken(s, i);
  }

  /** A character literal `'c'` carries `c`; `''` carries nothing. */
  lemma CharLiteralRead(s: string, i: nat)
    requires i + 2 < |s| && s[i] == '\''
    ensures s[i + 1] == '\'' ==> Next(s, i) == Step(At(s, i, CHAR_LITERAL, ""), i + 2, 0)
    ensures s[i + 1] != '\'' && s[i + 2] == '\'' ==>
              Next(s, i) == Step(At(s, i, CHAR_LITERAL, [s[i + 1]]), i + 3, 0)
  {
  }

  /** `#include` skips the rest of its line. */
  lemma IncludeRead(s: string, i: nat)
    requires i + 8 <= |s| && s[i] == '#' && s[i + 1..i + 8] == "include"
    ensures var e := LineEnd(s, i + 8);
            Next(s, i) == if e == |s| then EofStep(s) else Step(At(s, i, INCLUDE, ""), e, 0)
  {
    NextAtHash(s, i);
    assert forall n :: 0 <= n < 7 ==> s[i + 1 + n] == "include"[n];
    MatchIncludeRun(s, i + 1, 0);
  }

  /** `#` followed by anything but `include` is an error. */
  lemma HashWithoutInclude(s: string, i: nat)
    requires i + 8 <= |s| && s[i] == '#' && s[i + 1..i + 8] != "include"
    ensures Next(s, i).tok.tokenClass == INVALID && Next(s, i).err == 1
  {
    NextAtHash(s, i);
    var n :| 0 <= n < 7 && s[i + 1 + n] != "include"[n];
    MatchIncludeStops(s, i + 1, 0, n);
  }

  lemma {:induction false} MatchIncludeRun(s: string, k: nat, n: nat)
    requires n <= 7 && k + 7 - n <= |s|
    requires forall m :: n <= m < 7 ==> s[k + m - n] == "include"[m]
    ensures MatchInclude(s, k, n) == Matched(k + 7 - n)
    decreases 7 - n
  {
    if n < 7 {
      MatchIncludeRun(s, k + 1, n + 1);
    }
  }

  lemma {:induction false} MatchIncludeStops(s: string, k: nat, n: nat, m: nat)
    requires n <= m < 7 && k + m - n < |s| && s[k + m - n] != "include"[m]
    ensures MatchInclude(s, k, n).Mismatch?
    decreases 7 - n
  {
    if n < m && s[k] == "include"[n] {
      MatchIncludeStops(s, k + 1, n + 1, m);
    }
  }

  /** The source drops the first digit of an integer literal. */
  lemma DigitDropExample()
    ensures Next("12;", 0).tok == Token(INT_LITERAL, "2", 1, 0)
  {
  }

  /** `Tokeniser`: the scanner index into the input and the error counter. */
  class Tokeniser {
    const input: string
    var pos: nat
    var error: nat

    ghost predicate Valid()
      reads this
    {
      pos <= |input|
    }

    constructor (input: string)
      ensures Valid() && this.input == input && pos == 0 && error == 0
    {
      this.input := input;
      pos := 0;
      error := 0;
    }

    /** `nextToken()`: one `next()`, with end of input read as an EOF token. */
    method NextToken() returns (t: Token)
      requires Valid()
      modifies this
      ensures Valid()
      ensures var r := Next(input, old(pos));
              t == r.tok && pos == r.pos && error == old(error) + r.err
      decreases |input| - pos, 2
    {
      if pos == |input| {
        t := Eof();
        return;
      }
      var start := pos;
      var c := input[pos];
      pos := pos + 1;
      if IsWhitespace(c) {
        t := NextToken();
      } else if c == '/' {
        t := AfterSlash(start);
      } else {
        t := ScanToken(start, c);
      }
    }

    /** The branch of `next()` for `/`: division, or a comment to skip. */
    method AfterSlash(start: nat) returns (t: Token)
      requires Valid() && start + 1 == pos && input[start] == '/'
      modifies this
      ensures Valid()
      ensures var r := Next(input, start);
              t == r.tok && pos == r.pos && error == old(error) + r.err
      decreases |input| - pos, 1
    {
      if pos == |input| {
        t := Eof();
      } else if input[pos] == '/' {
        SkipLine();
        if pos == |input| {
          t := Eof();
        } else {
          t := NextToken();
        }
      } else if input[pos] == '*' {
        t := AfterCommentStart(start);
      } else {
        t := At(input, start, DIV, "");
      }
    }

    /** The start of a block comment: the comment is skipped and the token after it read. */
    method AfterCommentStart(start: nat) returns (t: Token)
      requires Valid() && start + 1 == pos < |input| && input[start] == '/' && input[pos] == '*'
      modifies this
      ensures Valid()
      ensures var r := Next(input, start);
              t == r.tok && pos == r.pos && error == old(error) + r.err
      decreases |input| - pos, 0
    {
      pos := pos + 1;
      var closed := SkipComment();
      if closed {
        t := NextToken();
      } else {
        t := Eof();
      }
    }

    /** The EOF token `nextToken` builds from the scanner's final position. */
    method Eof() returns (t: Token)
      modifies this
      ensures Valid() && t == EofStep(input).tok && pos == |input| && error == old(error)
    {
      pos := |input|;
      t := At(input, |input|, EOF, "");
    }

    /** The branches of `next()` past whitespace and `/`. */
    method ScanToken(start: nat, c: char) returns (t: Token)
      requires Valid() && start + 1 == pos && input[start] == c
      requires !IsWhitespace(c) && c != '/'
      modifies this
      ensures Valid()
      ensures var r := Token1(input, start);
              t == r.tok && pos == r.pos && error == old(error) + r.err
    {
      var single := SingleClass(c);
      if c == '#' {
        t := ScanInclude(start);
      } else if single.Some? {
        t := At(input, start, single.value, "");
      } else if IsOperatorStart(c) {
        t := ScanOperator(start, c);
      } else if c == '"' {
        t := ScanString(start);
      } else if IsDigit(c) {
        t := ScanDigits(start);
      } else if c == '\'' {
        t := ScanCharLiteral(start);
      } else if IsLetter(c) || c == '_' {
        t := ScanIdentifier(start, c);
      } else {
        error := error + 1;
        t := At(input, start, INVALID, "");
      }
    }

    /** `>`, `<`, `=`, `!`, `&` and `|`, the scanner just past the first character. */
    method ScanOperator(start: nat, c: char) returns (t: Token)
      requires Valid() && start + 1 == pos && input[start] == c && IsOperatorStart(c)
      modifies this
      ensures Valid()
      ensures var r := Operator(input, start);
              t == r.tok && pos == r.pos && error == old(error) + r.err
    {
      if pos == |input| {
        t := Eof();
        return;
      }
      var second := if c == '&' || c == '|' then c else '=';
      if input[pos] == second {
        pos := pos + 1;
        var cls := if c == '>' then GE else if c == '<' then LE else if c == '=' then EQ
                   else if c == '!' then NE else if c == '&' then AND else OR;
        return At(input, start, cls, "");
      }
      if c == '>' { return At(input, start, GT, ""); }
      if c == '<' { return At(input, start, LT, ""); }
      if c == '=' { return At(input, start, ASSIGN, ""); }
      error := error + 1;
      return At(input, start, INVALID, "");
    }

    /** `#include`, the scanner just past the `#`. */
    method ScanInclude(start: nat) returns (t: Token)
      requires Valid() && start + 1 == pos && input[start] == '#'
      modifies this
      ensures Valid()
      ensures var r := IncludeToken(input, start);
              t == r.tok && pos == r.pos && error == old(error) + r.err
    {
      for n := 0 to 7
        invariant Valid() && pos == start + 1 + n && error == old(error)
        invariant MatchInclude(input, pos, n) == MatchInclude(input, start + 1, 0)
      {
        if pos == |input| {
          t := Eof();
          return;
        }
        if input[pos] == "include"[n] {
          pos := pos + 1;
        } else {
          error := error + 1;
          return At(input, start, INVALID, "");
        }
      }
      SkipLine();
      if pos == |input| {
        t := Eof();
        return;
      }
      return At(input, start, INCLUDE, "");
    }

    /** `while (peek() != '\n') next();` */
    method SkipLine()
      requires Valid()
      modifies this
      ensures Valid() && pos == LineEnd(input, old(pos)) && error == old(error)
    {
      while pos < |input| && input[pos] != '\n'
        invariant Valid() && LineEnd(input, pos) == LineEnd(input, old(pos))
        invariant error == old(error)
        decreases |input| - pos
      {
        pos := pos + 1;
      }
    }

    /** The `while (true)` loop of a block comment; false when the input ends inside it. */
    method SkipComment() returns (closed: bool)
      requires Valid()
      modifies this
      ensures Valid() && error == old(error)
      ensures var r := CommentEnd(input, old(pos));
              closed == r.Some? && (closed ==> pos == r.value)
    {
      while true
        invariant Valid() && CommentEnd(input, pos) == CommentEnd(input, old(pos))
        invariant error == old(error)
        decreases |input| - pos
      {
        if pos + 1 >= |input| {
          return false;
        }
        pos := pos + 1;
        if input[pos] == '*' {
          pos := pos + 1;
          if pos == |input| {
            return false;
          }
          if input[pos] == '/' {
            pos := pos + 1;
            return true;
          }
        }
      }
    }

    /** A string literal, the scanner just past the opening quote. */
    method ScanString(start: nat) returns (t: Token)
      requires Valid() && start + 1 == pos && input[start] == '"'
      modifies this
      ensures Valid()
      ensures var r := StringToken(input, start);
              t == r.tok && pos == r.pos && error == old(error) + r.err
    {
      var lit := "";
      while pos == |input| || input[pos] != '"'
        invariant Valid() && start < pos && error == old(error)
        invariant StringBody(input, pos, lit) == StringBody(input, start + 1, "")
        decreases |input| - pos
      {
        if pos == |input| {
          t := Eof();
          return;
        }
        if input[pos] == '\\' {
          pos := pos + 1;
          if pos == |input| {
            t := Eof();
            return;
          }
          lit := lit + StringEscape(input[pos]);
        } else {
          lit := lit + [input[pos]];
        }
        pos := pos + 1;
      }
      pos := pos + 1;
      return At(input, start, STRING_LITERAL, lit);
    }

    /** An integer literal, the scanner just past its first digit, which is not kept. */
    method ScanDigits(start: nat) returns (t: Token)
      requires Valid() && start + 1 == pos && IsDigit(input[start])
      modifies this
      ensures Valid()
      ensures var r := IntegerToken(input, start);
              t == r.tok && pos == r.pos && error == old(error) + r.err
    {
      var lit := "";
      while pos == |input| || IsDigit(input[pos])
        invariant Valid() && start < pos && error == old(error)
        invariant Digits(input, pos, lit) == Digits(input, start + 1, "")
        decreases |input| - pos
      {
        if pos == |input| {
          t := Eof();
          return;
        }
        lit := lit + [input[pos]];
        pos := pos + 1;
      }
      return At(input, start, INT_LITERAL, lit);
    }

    /** An identifier or keyword, the scanner just past its first character `c`. */
    method ScanIdentifier(start: nat, c: char) returns (t: Token)
      requires Valid() && start + 1 == pos && input[start] == c && (IsLetter(c) || c == '_')
      modifies this
      ensures Valid()
      ensures var r := Word(input, start);
              t == r.tok && pos == r.pos && error == old(error) + r.err
    {
      var id := [c];
      while pos == |input| || IsIdentChar(input[pos])
        invariant Valid() && start < pos && error == old(error)
        invariant IdentChars(input, pos, id) == IdentChars(input, start + 1, [c])
        decreases |input| - pos
      {
        if pos == |input| {
          t := Eof();
          return;
        }
        id := id + [input[pos]];
        pos := pos + 1;
      }
      var kw := Keyword(id);
      if kw.Some? {
        return At(input, start, kw.value, "");
      }
      return At(input, start, IDENTIFIER, id);
    }

    /** A character literal, the scanner just past the opening quote. */
    method ScanCharLiteral(start: nat) returns (t: Token)
      requires Valid() && start + 1 == pos && input[start] == '\''
      modifies this
      ensures Valid()
      ensures var r := CharToken(input, start);
              t == r.tok && pos == r.pos && error == old(error) + r.err
    {
      if pos == |input| {
        t := Eof();
        return;
      }
      var a := input[pos];
      pos := pos + 1;
      if a == '\'' {
        return At(input, start, CHAR_LITERAL, "");
      }
      if pos == |input| {
        t := Eof();
        return;
      }
      if input[pos] == '\'' {
        pos := pos + 1;
        return At(input, start, CHAR_LITERAL, [a]);
      }
      if a == '\\' {
        var e := input[pos];
        pos := pos + 1;
        if pos == |input| {
          t := Eof();
          return;
        }
        pos := pos + 1;
        var lit := CharEscape(e);
        if lit.Some? {
          return At(input, start, CHAR_LITERAL, lit.value);
        }
      }
      error := error + 1;
      return At(input, start, INVALID, "");
    }
  }
}
